# simple-nfo-generator, modelled in Dafny

simple-nfo-generator writes Kodi `.nfo` sidecar files for the episodes of a TV show. It
scrapes the show's IMDb pages: the title page gives the show's name and genres; the
season selector on the season-1 episode list gives the number of seasons; each season's
episode list gives the episode ids and numbers; each episode's title page gives its
details (schema.org structured data plus the scraped cast). It builds one XML document
per episode. It then scans a directory for media files, reads `S<season>E<episode>` out
of each file name, and pairs every file whose pair names an existing episode with that
episode's document, under the file's path with its extension replaced by `.nfo`.

This project models that pipeline and proves what it does:

- `wrappers.dfy`: `Option`, `Result`, and `FindFirst` (JavaScript's `find`).
- `text.dfy`: the character classes `\d` and `\w`, JavaScript's `parseInt`, and decimal
  numerals.
- `xml.dfy`: NFO documents as element records, plus selection of elements by tag.
- `types.dfy`: the entities of `src/types.ts`.
- `utils.dfy`: `src/utils.ts`. Covers duration and file-name parsing, `showToNfo`,
  `matchFoundFiles`, and `episodeToXml`. `episodeToXml` is an imperative method
  (`EpisodeToXml`) proved equal to the document function `EpisodeNfo`.
- `crawler.dfy`: `src/crawler.ts`. The page extractors work over already-parsed pages.
- `assembly.dfy`: `src/main.ts`, i.e. `loadAllEpisodes` and `loadShow`. It also holds
  the four `fetch*` wrappers, over a page-fetching function passed in as a parameter.
- `scenarios.dfy`: worked examples (durations, file names, a full match, missing
  structured data).

Some of the code's behaviour is easy to misread; the model follows the code:

- `convertDuration` multiplies the seconds group by 60; it does not divide it.
  `PT1M30S` is 1801 minutes (`Scenarios.DurationSecondsScaled`).
- An off-pattern duration converts to 0, not to "unknown". `crawlEpisode` then turns 0
  into an absent runtime with `|| undefined`. An explicit `PT0M` therefore also gives no
  runtime.
- The `S<digits>E<digits>` pattern is case-sensitive: `s02e05` names no episode.
- `episodeToXml` makes one element per builder call, whatever the value. An absent
  plot, runtime, air date, year or content rating (`mpaa`) still yields its element, with no text.
  Whether the serializer drops such elements is not part of this model.
- An episode id is any run of word characters after `/title/` that is closed by `/`.
  No fixed width is required.
- Missing or unparsable structured data fails with the `SyntaxError` that `JSON.parse`
  throws. A list entry without an id fails with the "No id found" error (`NoIdFound`).

## Model

| member | source | states |
|---|---|---|
| Wrappers.FindFirst | src/utils.ts:128 | the index found is the first one whose element satisfies the predicate; none is found exactly when no element does |
| Text.ParseIntDecimal | src/utils.ts:120-121 | `parseInt` of a decimal numeral, followed by nothing or by a character other than a digit, `x` or `X`, is the numeral's value |
| Text.ParseIntNoDigit | src/utils.ts:120-121 | `parseInt` is `NaN` when no digit follows the leading white space and optional sign (empty text, plain text, a lone sign) |
| Text.ParseIntBareHexPrefix | src/utils.ts:120-121 | `parseInt` is `NaN` when `0x` is not followed by a hexadecimal digit |
| Text.NatToString | src/crawler.ts:93 | the season number in the episode-list URL is rendered as decimal digits with that value and no leading zero |
| Utils.MatchDurationMinutes | src/utils.ts:112 | the duration regex captures `<m>M` and no seconds group for `PT<m>M` |
| Utils.MatchDurationSeconds | src/utils.ts:112 | the duration regex captures `<m>M` and `<s>S` for `PT<m>M<s>S` |
| Utils.MatchDurationSound | src/utils.ts:112 | every string the duration matcher accepts has the shape `PT<digits>M` or `PT<digits>M<digits>S` |
| Utils.ConvertDurationMinutes | src/utils.ts:111-116 | `PT<m>M` converts to m minutes |
| Utils.ConvertDurationSeconds | src/utils.ts:111-116 | `PT<m>M<s>S` converts to s * 60 + m |
| Utils.ConvertDurationOffPattern | src/utils.ts:111-116 | every string off the pattern (empty, with hours, ...) converts to 0 |
| Utils.FirstSeasonEpisode | src/utils.ts:119 | the unanchored match starts at the leftmost index where `S\d+E\d+` matches; no match means no index matches |
| Utils.MatchSeasonEpisodeAtSound | src/utils.ts:119 | a match is a real `S<ds>E<de>` occurrence whose episode digits are not followed by another digit |
| Utils.MatchSeasonEpisodeAtComplete | src/utils.ts:119 | every occurrence with maximal episode digits is matched at its index with exactly those digit groups |
| Utils.ConvertFilenameNoOccurrence | src/utils.ts:118-123 | a path with no `S<digits>E<digits>` gives the absent pair |
| Utils.ConvertFilenameFirstOccurrence | src/utils.ts:118-123 | the pair is the decimal value of the season and episode digits of the first occurrence |
| Utils.ReplaceExtensionOf | src/utils.ts:129 | `<stem>.<word>` becomes `<stem>.nfo` |
| Utils.ReplaceExtensionChanged | src/utils.ts:129 | a path is rewritten only when it ends in `.` followed by word characters |
| Utils.ReplaceExtensionAbsent | src/utils.ts:129 | a path without such a suffix is returned unchanged |
| Utils.FindNfo | src/utils.ts:128 | the record found is the first with the file's season and episode; an absent pair finds nothing; nothing found means no record has the pair |
| Utils.KeepFoundIsFilter | src/utils.ts:132-133 | the results are exactly the candidates that found a document, in their original order, each keeping its path and document |
| Utils.MatchFoundFilesSpec | src/utils.ts:125-133 | a file yields a result iff its parsed pair has a record; results keep file order and pair the `.nfo` path with the first such record's document |
| Utils.SeasonsToNfoLength | src/utils.ts:99 | the flattening yields as many records as the seasons hold episodes |
| Utils.SeasonsToNfoAt | src/utils.ts:99-103 | episode j of season i sits at position (episodes of earlier seasons) + j and becomes that episode's record |
| Utils.ShowToNfoSpec | src/utils.ts:99-103 | `showToNfo` gives one record per episode, season by season, in list order; each record carries the episode's own season and episode numbers and its document |
| Utils.FlatIndexOrder | src/utils.ts:99 | flattened positions follow season-then-episode order |
| Utils.YearOf | src/utils.ts:66 | the year is the longest prefix of the air date without `-`; it is all of the date or is followed by `-` |
| Utils.EpisodeToXml | src/utils.ts:54-97 | the document built call by call is the `tvshow` document `EpisodeNfo` |
| Utils.AddHeader | src/utils.ts:57-68 | the twelve fixed `ele` calls append the header elements |
| Utils.AddGenres | src/utils.ts:70 | the genre loop appends one `genre` element per show genre, in order |
| Utils.AddThumbs | src/utils.ts:72-79 | the thumbnail loop appends one `thumb` element per thumbnail, in order |
| Utils.AddActors | src/utils.ts:81-87 | the cast loop appends one `actor` block per cast member, in order, with its index as `order` |
| Utils.HeaderNodesTags | src/utils.ts:57-68 | the fixed elements carry the tags title, originaltitle, showtitle, season, namedseason, episode, plot, runtime, aired, year, uniqueid, mpaa, in that order |
| Utils.EpisodeNfoTags | src/utils.ts:54-94 | the document's elements are the twelve fixed ones, then the genre elements, thumbnails and actors, then `ratings` iff the rating is a number |
| Utils.EpisodeNfoGenres | src/utils.ts:70 | the `genre` elements carry exactly the show's genres, in order |
| Utils.EpisodeNfoThumbnails | src/utils.ts:72-79 | the top-level `thumb` elements carry exactly the episode's thumbnails, in order |
| Utils.EpisodeNfoCast | src/utils.ts:81-87 | block k of the `actor` blocks has children name, role, thumb, order, holding cast member k's name, character and thumbnail, and order k |
| Utils.EpisodeNfoRatings | src/utils.ts:89-94 | there is one `ratings` block iff the rating is a number, and it holds that number |
| Crawler.QueryStructuredData | src/crawler.ts:16-19 | the query succeeds iff the first `application/ld+json` script has a parsable payload, and then yields that payload; otherwise the result is SyntaxError |
| Crawler.RuntimeOf | src/crawler.ts:40 | a missing duration gives no runtime, and a runtime is never 0 |
| Crawler.RuntimeOfOffPattern | src/crawler.ts:40 | a duration off the `PT<m>M[<s>S]` pattern gives no runtime |
| Crawler.CrawlEpisode | src/crawler.ts:21-48 | succeeds iff the structured data does, and fails only with `SyntaxError`; title and description are the decoded name and description; content rating, air date and rating are taken from the structured data; at most one thumbnail, which is the non-empty image; one casting per cast container, in order |
| Crawler.CrawlEpisodeRuntimeAbsent | src/crawler.ts:40 | a missing or off-pattern duration gives no runtime |
| Crawler.CrawlEpisodeRuntimeMinutes | src/crawler.ts:40 | the duration `PT<m>M` with m > 0 gives runtime m |
| Crawler.CrawlEpisodeRuntimeSeconds | src/crawler.ts:40 | the duration `PT<m>M<s>S` with a non-zero total gives runtime s * 60 + m |
| Crawler.CrawlEpisodeRuntimeZero | src/crawler.ts:40 | any duration that converts to 0 minutes gives no runtime |
| Crawler.ExtractIdSound | src/crawler.ts:57 | an extracted id is a word wrapped by the href as `/title/<id>/...` |
| Crawler.ExtractIdComplete | src/crawler.ts:57 | every href `/title/<word>/<rest>` yields that word |
| Crawler.EpisodeNumberOf | src/crawler.ts:61-66 | a missing episode-number attribute gives no number |
| Crawler.EpisodeNumberDecimal | src/crawler.ts:61-66 | a decimal episode-number attribute gives its value |
| Crawler.EpisodeNumberNotNumeric | src/crawler.ts:61-66 | an episode-number attribute with no digit after its white space and sign, or with a bare `0x` prefix, gives no number |
| Crawler.CrawlListItems | src/crawler.ts:54-68 | succeeds iff every item has an id, otherwise fails with NoIdFound; one entry per item, in order |
| Crawler.CrawlEpisodeListSpec | src/crawler.ts:50-71 | the list fails with NoIdFound iff some href lacks `/title/<id>/`; otherwise each entry has the id its href wraps and the item's integer episode number |
| Crawler.CrawlSeasonCount | src/crawler.ts:73-76 | no season selector gives 0 seasons; a single selector gives as many seasons as it has options |
| Crawler.CrawlShow | src/crawler.ts:78-88 | succeeds iff the structured data does, and fails only with `SyntaxError`; keeps the given id, decodes the name, and decodes each genre in order, with no genre field meaning no genres |
| Assembly.All | src/main.ts:17-26 | `Promise.all` succeeds iff every result does, with the values in order; otherwise it fails with the error of a failing result |
| Assembly.LoadEpisodes | src/main.ts:17-26 | a season's episodes load iff every episode page does; episode k is assembled from entry k, its position and its page; otherwise the error is a failing page's |
| Assembly.LoadAllEpisodes | src/main.ts:12-35 | a failing season count fails the load; otherwise the load succeeds iff each season 1..count does, season s sits at index s - 1, and any error is a failing season's |
| Assembly.LoadSeasonSpec | src/main.ts:16-31 | a loaded season carries its number and one episode per list entry, in list order, each built from its entry and its page |
| Assembly.LoadAllEpisodesSpec | src/main.ts:12-35 | one season per counted season, numbered 1 to the count, each built from its own episode list |
| Assembly.SeasonEpisodeFields | src/main.ts:20-25 | an assembled episode has the season number, the entry's id, the entry's number or else its position, and every detail field of its page |
| Assembly.LoadAllEpisodesNoSeasons | src/main.ts:13-14 | a season count of 0 gives no seasons |
| Assembly.AssembleEpisodeIgnoresListText | src/main.ts:20-25 | the title and description of a list entry do not reach the assembled episode |
| Assembly.LoadShow | src/main.ts:37-46 | the show loads iff both the summary and the seasons do; a summary error is the result, and when the summary loads a seasons error is the result; the show has the given id, the summary's title and genres, and the loaded seasons |
| Scenarios.DurationMinutesOnly | src/utils.ts:111-116 | `PT45M` converts to 45 |
| Scenarios.DurationSecondsScaled | src/utils.ts:111-116 | `PT1M30S` converts to 1801 |
| Scenarios.DurationWithHours | src/utils.ts:111-116 | `PT1H5M` converts to 0 |
| Scenarios.PairAfter | src/utils.ts:118-123 | a path `<prefix>S<ds>E<de><rest>`, whose prefix has no `S` before a digit and whose rest does not start with a digit, gives the pair (ds, de) |
| Scenarios.FilenameIncompletePair | src/utils.ts:118-123 | `S2E` gives the absent pair |
| Scenarios.FilenameLowerCase | src/utils.ts:118-123 | `s02e05` gives the absent pair |
| Scenarios.EndToEndMatch | src/utils.ts:125-133 | with episodes S01E01 and S01E02, a file naming S01E02 is matched to episode 2's document and a file naming S01E03 is dropped |
| Scenarios.GenresInOrder | src/utils.ts:70 | genres Drama, Comedy give two `genre` elements in that order |
| Scenarios.PositionalEpisodeNumber | src/main.ts:23 | a third list entry without a number becomes episode 3 |
| Scenarios.ShowWithoutStructuredData | src/main.ts:37-46 | a title page without structured data makes `loadShow` fail with SyntaxError |

## Left out

- `fetcher` (src/utils.ts) is not part of this model; the `fetch` parameter of
  `Assembly.Env` stands in for it. It covers the HTTP request, the on-disk cache under
  `CACHE_DIR`, and the rejection of non-OK responses and of the "Houston" error page.
  Any failure is an `Error` value.
- HTML parsing (`node-html-parser`) and CSS selection: each page arrives as the
  elements the extractors select (`Crawler.Page`).
- `JSON.parse` of a script's text: the payload arrives as the parsed record, or none
  when the text is not JSON. A JSON `null` payload, and a schema.org `genre` given as a
  single string instead of a list, are not represented.
- HTML entity decoding (`html-entities`) is the `decode` parameter, except that an
  absent or empty text decodes to the empty string.
- XML serialization by `xmlbuilder` is not modelled: escaping, pretty-printing, and
  how a value of `undefined` is rendered. Documents are element records.
- Numbers are unbounded integers and exact reals. JavaScript's floating-point
  precision, `Infinity`, and the rendering of non-integer ratings are not modelled.
- `Promise.all` runs its fetches concurrently. The model evaluates them in index order,
  so the reported error is the one with the lowest index rather than whichever
  rejects first.
- `scanDirectory` (a glob over `EXTENSIONS`) is not part of this model. Nor is
  `index.ts`, which handles the command line, writes the files and logs.
- Scenarios.PairAfter: concrete file names such as `Show.S01E02.mkv` are covered by
  this general lemma over any prefix and rest, not by one lemma per literal name.
