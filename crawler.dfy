/** The page extractors. A page arrives already parsed: the model receives the parts of
    the document each extractor selects (the scripts, the episode-list items, the
    season selectors, the cast containers) instead of HTML text, and the structured
    data of a script as the record `JSON.parse` would produce, or `None` when its
    text does not parse. HTML entity decoding is the parameter `decode`. */
module Crawler {
  import opened Wrappers
  import opened Text
  import opened Types
  import Utils

  /** The `type` of the script element holding schema.org structured data. */
  const LdJson: string := "application/ld+json"

  datatype AggregateRating = AggregateRating(ratingValue: Option<JsonScalar>)

  /** The schema.org fields the extractors read, each absent when the JSON lacks it. */
  datatype StructuredData = StructuredData(
    name: Option<string>,
    genre: Option<seq<string>>,
    image: Option<string>,
    duration: Option<string>,
    description: Option<string>,
    contentRating: Option<string>,
    datePublished: Option<string>,
    aggregateRating: Option<AggregateRating>)

  /** A `script` element: its `type` attribute and the parse of its text. */
  datatype Script = Script(scriptType: Option<string>, payload: Option<StructuredData>)

  /** A `div.list.detail.eplist > div` entry: the `href` and text of its
      `a[itemprop="name"]`, the text of its `a[itemprop="description"]`, and the
      `content` of its `meta[itemprop="episodeNumber"]`. */
  datatype ListItem = ListItem(href: Option<string>, nameText: Option<string>,
    descriptionText: Option<string>, episodeNumber: Option<string>)

  /** A `div[data-testid="title-cast-item"]` container: the text of its actor and
      character links and the `src` of its first `img`. */
  datatype CastItem = CastItem(actorText: Option<string>, charactersText: Option<string>,
    imageSource: Option<string>)

  /** What the extractors select in a parsed page. `seasonSelects` holds, for each
      `select#bySeason`, its `option` children. */
  datatype Page = Page(scripts: seq<Script>, episodeItems: seq<ListItem>,
    seasonSelects: seq<seq<string>>, castItems: seq<CastItem>)

  /** One entry of a season's episode list. */
  datatype ListEntry = ListEntry(id: string, title: string, description: string, episode: Option<int>)

  /** The show page's summary. */
  datatype ShowSummary = ShowSummary(id: string, title: string, genres: seq<string>)

  /** `decode(text)`: entity decoding, where an absent or empty text decodes to "". */
  function Decode(text: Option<string>, decode: string -> string): string
  {
    if text.None? || text.value == "" then "" else decode(text.value)
  }

  /** `queryStructuredData`: parse the first `application/ld+json` script; without one,
      `JSON.parse('')` fails just like a text that is not JSON. */
  function QueryStructuredData(page: Page): (r: Result<StructuredData, Error>)
    ensures r.Err? ==> r.error == SyntaxError
    ensures (forall k :: 0 <= k < |page.scripts| ==> page.scripts[k].scriptType != Some(LdJson))
      ==> r == Err(SyntaxError)
    ensures r.Ok? ==>
      exists k ::
        && 0 <= k < |page.scripts|
        && page.scripts[k].scriptType == Some(LdJson)
        && (forall j :: 0 <= j < k ==> page.scripts[j].scriptType != Some(LdJson))
        && page.scripts[k].payload == Some(r.value)
    ensures (exists k ::
        && 0 <= k < |page.scripts|
        && page.scripts[k].scriptType == Some(LdJson)
        && (forall j :: 0 <= j < k ==> page.scripts[j].scriptType != Some(LdJson))
        && page.scripts[k].payload.Some?)
      ==> r.Ok?
  {
    var found := FindFirst(page.scripts, (n: Script) => n.scriptType == Some(LdJson));
    if found.None? then Err(SyntaxError)
    else
      match page.scripts[found.value].payload
      case None => Err(SyntaxError)
      case Some(info) => Ok(info)
  }

  // ---------------------------------------------------------------------------
  // crawlEpisode

  /** One cast container becomes one casting. */
  function CastingOf(item: CastItem, decode: string -> string): Casting
  {
    Casting(Decode(item.actorText, decode), Some(Decode(item.charactersText, decode)), item.imageSource)
  }

  /** `convertDuration(info.duration ?? '') || undefined`: a missing duration gives no
      runtime, and a runtime is never 0. */
  function RuntimeOf(duration: Option<string>): (r: Option<int>)
    ensures duration.None? ==> r.None?
    ensures r != Some(0)
  {
    var minutes := Utils.ConvertDuration(duration.GetOr(""));
    if minutes == 0 then None else Some(minutes)
  }

  /** A duration off the `PT<m>M[<s>S]` pattern (with hours, with days, empty) gives no
      runtime. */
  lemma RuntimeOfOffPattern(d: string)
    requires !Utils.DurationPattern(d)
    ensures RuntimeOf(Some(d)) == None
  {
    Utils.ConvertDurationOffPattern(d);
  }

  /** The detail fields of an episode page. */
  function CrawlEpisode(page: Page, decode: string -> string): (r: Result<Episode, Error>)
    ensures (forall k :: 0 <= k < |page.scripts| ==> page.scripts[k].scriptType != Some(LdJson))
      ==> r == Err(SyntaxError)
    ensures r.Ok? <==> QueryStructuredData(page).Ok?
    ensures r.Err? ==> r.error == SyntaxError
    ensures r.Ok? ==> var info := QueryStructuredData(page).value;
      && r.value.title == Decode(info.name, decode)
      && r.value.description == Some(Decode(info.description, decode))
      && r.value.contentRating == info.contentRating
      && r.value.airDate == info.datePublished
      && r.value.rating == (if info.aggregateRating.Some? then info.aggregateRating.value.ratingValue else None)
    ensures r.Ok? ==> var info := QueryStructuredData(page).value;
      && |r.value.thumbnails| <= 1
      && (r.value.thumbnails == [] <==> info.image.None? || info.image.value == "")
      && (r.value.thumbnails != [] ==> r.value.thumbnails == [info.image.value])
      && |r.value.cast| == |page.castItems|
      && (forall k :: 0 <= k < |page.castItems| ==> r.value.cast[k] == CastingOf(page.castItems[k], decode))
  {
    var info :- QueryStructuredData(page);
    var cast := seq(|page.castItems|, k requires 0 <= k < |page.castItems| => CastingOf(page.castItems[k], decode));
    var thumbnails := if info.image.Some? && info.image.value != "" then [info.image.value] else [];
    Ok(Episode(
      Decode(info.name, decode),
      Some(Decode(info.description, decode)),
      RuntimeOf(info.duration),
      info.contentRating,
      info.datePublished,
      if info.aggregateRating.Some? then info.aggregateRating.value.ratingValue else None,
      cast,
      thumbnails))
  }

  /** A missing duration, or one off the `PT<m>M[<s>S]` pattern, gives no runtime. */
  lemma CrawlEpisodeRuntimeAbsent(page: Page, decode: string -> string)
    requires CrawlEpisode(page, decode).Ok?
    requires var d := QueryStructuredData(page).value.duration;
      d.None? || !Utils.DurationPattern(d.value)
    ensures CrawlEpisode(page, decode).value.runtime.None?
  {
    var d := QueryStructuredData(page).value.duration;
    if d.Some? {
      RuntimeOfOffPattern(d.value);
    }
  }

  /** A duration `PT<m>M` with m > 0 gives a runtime of m minutes. */
  lemma CrawlEpisodeRuntimeMinutes(page: Page, decode: string -> string, m: string)
    requires CrawlEpisode(page, decode).Ok?
    requires IsDigits(m) && DecimalValue(m) > 0
    requires QueryStructuredData(page).value.duration == Some("PT" + m + "M")
    ensures CrawlEpisode(page, decode).value.runtime == Some(DecimalValue(m))
  {
    Utils.ConvertDurationMinutes(m);
  }

  /** A duration `PT<m>M<s>S` with a non-zero total gives a runtime of s * 60 + m
      minutes. */
  lemma CrawlEpisodeRuntimeSeconds(page: Page, decode: string -> string, m: string, s: string)
    requires CrawlEpisode(page, decode).Ok?
    requires IsDigits(m) && IsDigits(s) && DecimalValue(s) * 60 + DecimalValue(m) > 0
    requires QueryStructuredData(page).value.duration == Some("PT" + m + "M" + s + "S")
    ensures CrawlEpisode(page, decode).value.runtime == Some(DecimalValue(s) * 60 + DecimalValue(m))
  {
    Utils.ConvertDurationSeconds(m, s);
  }

  /** Whatever converts to 0 minutes (`PT0M`, `PT0M0S`, or anything off the pattern)
      gives no runtime. */
  lemma CrawlEpisodeRuntimeZero(page: Page, decode: string -> string)
    requires CrawlEpisode(page, decode).Ok?
    requires Utils.ConvertDuration(QueryStructuredData(page).value.duration.GetOr("")) == 0
    ensures CrawlEpisode(page, decode).value.runtime.None?
  {
  }

  // ---------------------------------------------------------------------------
  // crawlEpisodeList

  /** `href.split(/^\/title\/(\w+)\//)[1]`: the word-character segment after a leading
      `/title/`, which must be closed by `/`. */
  function ExtractId(href: string): Option<string>
  {
    if |href| < 7 || href[..7] != "/title/" then None
    else
      var n := Span(href, 7, IsWordChar);
      if n > 0 && 7 + n < |href| && href[7 + n] == '/' then Some(href[7..7 + n]) else None
  }

  /** An extracted id is a word that the href wraps as `/title/<id>/...`. */
  lemma ExtractIdSound(href: string)
    requires ExtractId(href).Some?
    ensures var id := ExtractId(href).value;
      IsWord(id) && 8 + |id| <= |href| && href == "/title/" + id + "/" + href[8 + |id|..]
  {
    var id := ExtractId(href).value;
    forall k | 0 <= k < |id| ensures IsWordChar(id[k]) {
      assert id[k] == href[7 + k];
    }
    assert href == href[..7] + href[7..7 + |id|] + [href[7 + |id|]] + href[8 + |id|..];
  }

  /** Every href of the form `/title/<word>/<rest>` yields that word. */
  lemma ExtractIdComplete(id: string, rest: string)
    requires IsWord(id)
    ensures ExtractId("/title/" + id + "/" + rest) == Some(id)
  {
    var href := "/title/" + id + "/" + rest;
    assert href[..7] == "/title/";
    forall k | 7 <= k < 7 + |id| ensures IsWordChar(href[k]) {
      assert href[k] == id[k - 7];
    }
    assert href[7 + |id|] == '/';
    SpanExact(href, 7, |id|, IsWordChar);
    assert href[7..7 + |id|] == id;
  }

  /** `parseInt(content)` kept only when it is an integer; `undefined` otherwise. */
  function EpisodeNumberOf(item: ListItem): (r: Option<int>)
    ensures item.episodeNumber.None? ==> r.None?
  {
    if item.episodeNumber.None? then None else ParseInt(item.episodeNumber.value)
  }

  /** A decimal `episodeNumber` content gives its value. */
  lemma EpisodeNumberDecimal(item: ListItem, ds: string)
    requires IsDigits(ds) && item.episodeNumber == Some(ds)
    ensures EpisodeNumberOf(item) == Some(DecimalValue(ds))
  {
    assert ds + [] == ds;
    ParseIntDecimal(ds, []);
  }

  /** Content with no digit after its white space and sign (empty, text, a lone sign)
      gives no number, as does a `0x` prefix without a hexadecimal digit. */
  lemma EpisodeNumberNotNumeric(item: ListItem, content: string)
    requires item.episodeNumber == Some(content)
    requires var j := DigitsStart(content);
      || j == |content|
      || !IsDigit(content[j])
      || (j + 2 <= |content| && content[j] == '0' && (content[j + 1] == 'x' || content[j + 1] == 'X')
          && (j + 2 == |content| || !IsHexDigit(content[j + 2])))
    ensures EpisodeNumberOf(item) == None
  {
    var j := DigitsStart(content);
    if j == |content| || !IsDigit(content[j]) {
      ParseIntNoDigit(content);
    } else {
      ParseIntBareHexPrefix(content);
    }
  }

  /** One list item becomes one entry, or the "No id found" error. */
  function CrawlListItem(item: ListItem, decode: string -> string): Result<ListEntry, Error>
  {
    var id := ExtractId(item.href.GetOr(""));
    if id.None? then Err(NoIdFound)
    else Ok(ListEntry(id.value, Decode(item.nameText, decode), Decode(item.descriptionText, decode),
      EpisodeNumberOf(item)))
  }

  /** `entries.map(...)` from index `from` on: it throws at the first item without an id. */
  function CrawlListItems(items: seq<ListItem>, decode: string -> string, from: nat): (r: Result<seq<ListEntry>, Error>)
    requires from <= |items|
    ensures r.Err? ==> r.error == NoIdFound
    ensures r.Ok? <==> forall k :: from <= k < |items| ==> ExtractId(items[k].href.GetOr("")).Some?
    ensures r.Ok? ==> |r.value| == |items| - from
    ensures r.Ok? ==> forall k :: from <= k < |items| ==>
      r.value[k - from] == CrawlListItem(items[k], decode).value
    decreases |items| - from
  {
    if from == |items| then Ok([])
    else
      var entry :- CrawlListItem(items[from], decode);
      var rest :- CrawlListItems(items, decode, from + 1);
      Ok([entry] + rest)
  }

  /** The entries of a season's episode-list page. */
  function CrawlEpisodeList(page: Page, decode: string -> string): Result<seq<ListEntry>, Error>
  {
    CrawlListItems(page.episodeItems, decode, 0)
  }

  /** crawlEpisodeList yields one entry per list item in document order, each with the
      id its href wraps and the integer episode number when there is one; it fails with
      "No id found" exactly when some item's href lacks the `/title/<id>/` shape. */
  lemma CrawlEpisodeListSpec(page: Page, decode: string -> string)
    ensures var r, items := CrawlEpisodeList(page, decode), page.episodeItems;
      && (r.Ok? <==> forall k :: 0 <= k < |items| ==> ExtractId(items[k].href.GetOr("")).Some?)
      && (r.Err? ==> r.error == NoIdFound)
      && (r.Ok? ==> (|r.value| == |items|
           && forall k :: 0 <= k < |items| ==>
                && IsWord(r.value[k].id)
                && items[k].href.GetOr("") == "/title/" + r.value[k].id + "/" + items[k].href.GetOr("")[8 + |r.value[k].id|..]
                && r.value[k].episode == EpisodeNumberOf(items[k])))
  {
    var r, items := CrawlEpisodeList(page, decode), page.episodeItems;
    if r.Ok? {
      forall k | 0 <= k < |items|
        ensures IsWord(r.value[k].id)
        ensures 8 + |r.value[k].id| <= |items[k].href.GetOr("")|
        ensures items[k].href.GetOr("") == "/title/" + r.value[k].id + "/" + items[k].href.GetOr("")[8 + |r.value[k].id|..]
      {
        assert r.value[k] == CrawlListItem(items[k], decode).value;
        ExtractIdSound(items[k].href.GetOr(""));
      }
    }
  }

  // ---------------------------------------------------------------------------
  // crawlSeasonCount

  /** The number of `option` children over all selectors. */
  function OptionCount(selects: seq<seq<string>>): nat
  {
    if selects == [] then 0 else |selects[0]| + OptionCount(selects[1..])
  }

  /** `querySelectorAll('select#bySeason > option').length` */
  function CrawlSeasonCount(page: Page): (n: nat)
    ensures page.seasonSelects == [] ==> n == 0
    ensures |page.seasonSelects| == 1 ==> n == |page.seasonSelects[0]|
  {
    assert |page.seasonSelects| == 1 ==> OptionCount(page.seasonSelects[1..]) == 0;
    OptionCount(page.seasonSelects)
  }

  // ---------------------------------------------------------------------------
  // crawlShow

  /** The show summary: the id passed in, the decoded name, and the decoded genres
      (none when the structured data has no genre). */
  function CrawlShow(page: Page, id: string, decode: string -> string): (r: Result<ShowSummary, Error>)
    ensures r.Ok? <==> QueryStructuredData(page).Ok?
    ensures (forall k :: 0 <= k < |page.scripts| ==> page.scripts[k].scriptType != Some(LdJson))
      ==> r == Err(SyntaxError)
    ensures r.Err? ==> r.error == SyntaxError
    ensures r.Ok? ==> var info := QueryStructuredData(page).value;
      && r.value.id == id
      && r.value.title == Decode(info.name, decode)
      && (info.genre.None? ==> r.value.genres == [])
      && (info.genre.Some? ==> (|r.value.genres| == |info.genre.value|
            && forall i :: 0 <= i < |info.genre.value| ==> r.value.genres[i] == Decode(Some(info.genre.value[i]), decode)))
  {
    var info :- QueryStructuredData(page);
    var genres := info.genre.GetOr([]);
    Ok(ShowSummary(id, Decode(info.name, decode),
      seq(|genres|, i requires 0 <= i < |genres| => Decode(Some(genres[i]), decode))))
  }
}
