/** Assembling a show from its pages. Fetching a page (the network, the on-disk cache,
    the HTTP status check) is the parameter `fetch`, from a URL to the parsed page or
    the error the fetch raised; entity decoding is the parameter `decode`. The
    concurrent `Promise.all` is evaluated in index order. */
module Assembly {
  import opened Wrappers
  import opened Text
  import opened Types
  import opened Crawler

  /** What the loaders depend on outside the model. */
  datatype Env = Env(fetch: string -> Result<Page, Error>, decode: string -> string)

  /** The title page of an id. */
  function TitleUrl(id: string): string
  {
    "https://www.imdb.com/title/" + id + "/"
  }

  /** The episode-list page of an id for one season. */
  function EpisodesUrl(id: string, season: nat): string
  {
    TitleUrl(id) + "episodes?season=" + NatToString(season)
  }

  function FetchEpisode(env: Env, id: string): Result<Episode, Error>
  {
    var page :- env.fetch(TitleUrl(id));
    CrawlEpisode(page, env.decode)
  }

  function FetchEpisodeList(env: Env, id: string, season: nat): Result<seq<ListEntry>, Error>
  {
    var page :- env.fetch(EpisodesUrl(id, season));
    CrawlEpisodeList(page, env.decode)
  }

  /** The season count is read from the season-1 episode list. */
  function FetchSeasonCount(env: Env, id: string): Result<nat, Error>
  {
    var page :- env.fetch(EpisodesUrl(id, 1));
    Ok(CrawlSeasonCount(page))
  }

  function FetchShow(env: Env, id: string): Result<ShowSummary, Error>
  {
    var page :- env.fetch(TitleUrl(id));
    CrawlShow(page, id, env.decode)
  }

  /** The episode number of the entry at 0-based position `pos` of its list: the page's
      own number when it has one, otherwise the 1-based position. */
  function EpisodeNumber(entry: ListEntry, pos: nat): (n: int)
    ensures entry.episode.Some? ==> n == entry.episode.value
    ensures entry.episode.None? ==> n == pos + 1
  {
    if entry.episode.Some? then entry.episode.value else pos + 1
  }

  /** `{ id, season, episode, ...details }`: the list entry contributes its id and
      number, the episode page every other field. */
  function AssembleEpisode(entry: ListEntry, season: int, pos: nat, details: Episode): SeasonEpisode
  {
    SeasonEpisode(entry.id, season, EpisodeNumber(entry, pos),
      details.title, details.description, details.runtime, details.contentRating,
      details.airDate, details.rating, details.cast, details.thumbnails)
  }

  /** `Promise.all` over settled results: all values in order when every result is a
      value, otherwise the error of a failing one: the lowest-indexed one here, where the
      concurrent `Promise.all` reports whichever fails first. */
  function All<T>(rs: seq<Result<T, Error>>): (r: Result<seq<T>, Error>)
    ensures r.Ok? <==> forall k :: 0 <= k < |rs| ==> rs[k].Ok?
    ensures r.Ok? ==> |r.value| == |rs| && forall k :: 0 <= k < |rs| ==> r.value[k] == rs[k].value
    ensures r.Err? ==> exists k :: 0 <= k < |rs| && rs[k] == Err(r.error)
  {
    if rs == [] then Ok([])
    else
      var head :- rs[0];
      var tail :- All(rs[1..]);
      assert forall k :: 1 <= k < |rs| ==> rs[k] == rs[1..][k - 1];
      Ok([head] + tail)
  }

  /** The episodes of one season: every entry's episode page is fetched by its id, and
      each episode is assembled from its entry, its 0-based position and its page. */
  function LoadEpisodes(env: Env, list: seq<ListEntry>, season: int): (r: Result<seq<SeasonEpisode>, Error>)
    ensures r.Ok? <==> forall k :: 0 <= k < |list| ==> FetchEpisode(env, list[k].id).Ok?
    ensures r.Err? ==> exists k :: 0 <= k < |list| && FetchEpisode(env, list[k].id) == Err(r.error)
    ensures r.Ok? ==> |r.value| == |list| && forall k :: 0 <= k < |list| ==>
      && FetchEpisode(env, list[k].id).Ok?
      && r.value[k] == AssembleEpisode(list[k], season, k, FetchEpisode(env, list[k].id).value)
  {
    var pages := seq(|list|, k requires 0 <= k < |list| => FetchEpisode(env, list[k].id));
    var details :- All(pages);
    Ok(seq(|list|, k requires 0 <= k < |list| => AssembleEpisode(list[k], season, k, details[k])))
  }

  /** One season: its episode list, then every episode of it. */
  function LoadSeason(env: Env, id: string, season: nat): Result<Season, Error>
  {
    var list :- FetchEpisodeList(env, id, season);
    var episodes :- LoadEpisodes(env, list, season);
    Ok(Season(season, episodes))
  }

  /** `loadAllEpisodes`: seasons 1 to the season count, each loaded in full. */
  function LoadAllEpisodes(env: Env, id: string): (r: Result<seq<Season>, Error>)
    ensures FetchSeasonCount(env, id).Err? ==> r == Err(FetchSeasonCount(env, id).error)
    ensures r.Ok? <==>
      && FetchSeasonCount(env, id).Ok?
      && forall s :: 1 <= s <= FetchSeasonCount(env, id).value ==> LoadSeason(env, id, s).Ok?
    ensures r.Err? && FetchSeasonCount(env, id).Ok? ==>
      exists s :: 1 <= s <= FetchSeasonCount(env, id).value && LoadSeason(env, id, s) == Err(r.error)
    ensures r.Ok? ==> |r.value| == FetchSeasonCount(env, id).value && forall s :: 1 <= s <= |r.value| ==>
      LoadSeason(env, id, s).Ok? && r.value[s - 1] == LoadSeason(env, id, s).value
  {
    var count :- FetchSeasonCount(env, id);
    var loads := seq(count, k requires 0 <= k < count => LoadSeason(env, id, k + 1));
    assert forall s :: 1 <= s <= count ==> loads[s - 1] == LoadSeason(env, id, s);
    All(loads)
  }

  /** `loadShow`: the show summary, then every season. */
  function LoadShow(env: Env, id: string): (r: Result<Show, Error>)
    ensures r.Ok? <==> FetchShow(env, id).Ok? && LoadAllEpisodes(env, id).Ok?
    ensures r.Err? && FetchShow(env, id).Err? ==> r.error == FetchShow(env, id).error
    ensures r.Err? && FetchShow(env, id).Ok? ==>
      LoadAllEpisodes(env, id).Err? && r.error == LoadAllEpisodes(env, id).error
    ensures r.Ok? ==>
      && r.value.id == id
      && r.value.title == FetchShow(env, id).value.title
      && r.value.genres == FetchShow(env, id).value.genres
      && r.value.seasons == LoadAllEpisodes(env, id).value
  {
    var series :- FetchShow(env, id);
    var seasons :- LoadAllEpisodes(env, id);
    Ok(Show(id, series.title, series.genres, seasons))
  }

  /** `season` is what season `s` of `id` assembles to: it carries the number `s` and one
      episode per entry of the season's episode list, in list order, each built from the
      entry at that position and the episode page fetched for the entry's id. */
  ghost predicate SeasonFromList(env: Env, id: string, s: nat, season: Season)
  {
    && FetchEpisodeList(env, id, s).Ok?
    && var list := FetchEpisodeList(env, id, s).value;
    && season.season == s
    && |season.episodes| == |list|
    && forall j :: 0 <= j < |list| ==>
         && FetchEpisode(env, list[j].id).Ok?
         && season.episodes[j] == AssembleEpisode(list[j], s, j, FetchEpisode(env, list[j].id).value)
  }

  lemma LoadSeasonSpec(env: Env, id: string, s: nat)
    requires LoadSeason(env, id, s).Ok?
    ensures SeasonFromList(env, id, s, LoadSeason(env, id, s).value)
  {
    var list := FetchEpisodeList(env, id, s).value;
    var episodes := LoadEpisodes(env, list, s);
    assert episodes.Ok?;
  }

  /** loadAllEpisodes yields exactly one season per counted season, numbered 1 to the
      count in order, each assembled from its own episode list. */
  lemma LoadAllEpisodesSpec(env: Env, id: string)
    requires LoadAllEpisodes(env, id).Ok?
    ensures |LoadAllEpisodes(env, id).value| == FetchSeasonCount(env, id).value
    ensures forall k :: 0 <= k < |LoadAllEpisodes(env, id).value| ==>
      SeasonFromList(env, id, k + 1, LoadAllEpisodes(env, id).value[k])
  {
    var seasons, count := LoadAllEpisodes(env, id).value, FetchSeasonCount(env, id).value;
    forall k | 0 <= k < count
      ensures SeasonFromList(env, id, k + 1, seasons[k])
    {
      var s := k + 1;
      assert LoadSeason(env, id, s).Ok?;
      assert seasons[s - 1] == LoadSeason(env, id, s).value;
      LoadSeasonSpec(env, id, s);
    }
  }

  /** Every episode of a loaded season carries the season's number, the list entry's id,
      the entry's own number or else its 1-based position, and every detail field of the
      episode page fetched for that id. */
  lemma SeasonEpisodeFields(env: Env, id: string, s: nat, season: Season, j: nat)
    requires SeasonFromList(env, id, s, season)
    requires j < |season.episodes|
    ensures var entry := FetchEpisodeList(env, id, s).value[j];
      var e, details := season.episodes[j], FetchEpisode(env, entry.id).value;
      && e.season == s
      && e.id == entry.id
      && e.episode == entry.episode.GetOr(j + 1)
      && e.title == details.title
      && e.description == details.description
      && e.runtime == details.runtime
      && e.contentRating == details.contentRating
      && e.airDate == details.airDate
      && e.rating == details.rating
      && e.cast == details.cast
      && e.thumbnails == details.thumbnails
  {
  }

  /** With a season count of 0, loadAllEpisodes fetches nothing more and yields no seasons. */
  lemma LoadAllEpisodesNoSeasons(env: Env, id: string)
    requires FetchSeasonCount(env, id) == Ok(0)
    ensures LoadAllEpisodes(env, id) == Ok([])
  {
  }

  /** The title and description an episode-list entry carries never reach the assembled
      episode: entries that agree on id and number assemble identically. */
  lemma AssembleEpisodeIgnoresListText(entry: ListEntry, entry': ListEntry, season: int, pos: nat, details: Episode)
    requires entry.id == entry'.id && entry.episode == entry'.episode
    ensures AssembleEpisode(entry, season, pos, details) == AssembleEpisode(entry', season, pos, details)
  {
  }
}
