/** The entities of the scraper: a show owns its seasons, a season owns its episodes,
    an episode owns its cast; nothing points back at its container. */
module Types {
  import opened Wrappers
  import opened Xml

  /** One billed cast member. */
  datatype Casting = Casting(actor: string, character: Option<string>, thumbnail: Option<string>)

  /** A JSON scalar exactly as the structured data carried it. The rating is passed
      through from the page without a type check, so it is not always a number. */
  datatype JsonScalar = JsonNumber(n: real) | JsonString(s: string) | JsonBool(b: bool) | JsonNull

  /** The detail fields of one episode page. */
  datatype Episode = Episode(
    title: string,
    description: Option<string>,
    runtime: Option<int>,
    contentRating: Option<string>,
    airDate: Option<string>,
    rating: Option<JsonScalar>,
    cast: seq<Casting>,
    thumbnails: seq<string>)

  /** An episode placed in its show: the detail fields plus the site identifier, the
      season number and the (always definite) episode number. */
  datatype SeasonEpisode = SeasonEpisode(
    id: string,
    season: int,
    episode: int,
    title: string,
    description: Option<string>,
    runtime: Option<int>,
    contentRating: Option<string>,
    airDate: Option<string>,
    rating: Option<JsonScalar>,
    cast: seq<Casting>,
    thumbnails: seq<string>)

  datatype Season = Season(season: int, episodes: seq<SeasonEpisode>)

  datatype Show = Show(id: string, title: string, genres: seq<string>, seasons: seq<Season>)

  /** A matched media file: the sidecar path to write and the NFO document for it. */
  datatype GeneratedResult = GeneratedResult(filename: string, nfo: Node)

  /** The NFO document generated for one episode, keyed by its season and episode numbers. */
  datatype ShowNfo = ShowNfo(season: int, episode: int, nfo: Node)

  /** The errors that abort a run: `JSON.parse` rejecting the structured-data text, a
      list entry without an identifier, or a failed page fetch. */
  datatype Error = SyntaxError | NoIdFound | FetchFailed(message: string)
}
