/** The file-name and metadata helpers: duration and file-name parsing, matching media
    files to generated NFO records, flattening a show into NFO records, and the element
    layout of one episode's NFO document. */
module Utils {
  import opened Wrappers
  import opened Text
  import opened Xml
  import opened Types

  // ---------------------------------------------------------------------------
  // convertDuration

  /** The capture groups of `^PT(\d+M)(\d+S)?$` when `d` matches it: the minutes group
      including its `M`, and the seconds group including its `S` when present. */
  function MatchDuration(d: string): Option<(string, Option<string>)>
  {
    if |d| < 2 || d[0] != 'P' || d[1] != 'T' then None
    else
      var m := Span(d, 2, IsDigit);
      if m == 0 || 2 + m == |d| || d[2 + m] != 'M' then None
      else if 3 + m == |d| then Some((d[2..3 + m], None))
      else
        var s := Span(d, 3 + m, IsDigit);
        if s > 0 && 4 + m + s == |d| && d[3 + m + s] == 'S' then Some((d[2..3 + m], Some(d[3 + m..])))
        else None
  }

  /** `parseInt(group) || 0` for a capture group that may be `undefined`. */
  function IntOrZero(group: Option<string>): int
  {
    match group
    case None => 0  // parseInt(undefined) is NaN
    case Some(g) => ParseInt(g).GetOr(0)
  }

  /** Runtime in minutes from a duration string; 0 when the string is off-pattern.
      The seconds group is multiplied by 60, as the source does. */
  function ConvertDuration(d: string): int
  {
    var groups := MatchDuration(d);
    var mm := if groups.Some? then Some(groups.value.0) else None;
    var ss := if groups.Some? then groups.value.1 else None;
    IntOrZero(ss) * 60 + IntOrZero(mm)
  }

  /** `d` is matched by `^PT\d+M(\d+S)?$`. */
  ghost predicate DurationPattern(d: string)
  {
    || (exists m :: IsDigits(m) && d == "PT" + m + "M")
    || (exists m, s :: IsDigits(m) && IsDigits(s) && d == "PT" + m + "M" + s + "S")
  }

  /** The regular expression captures `m` followed by its `M` and no seconds group. */
  lemma MatchDurationMinutes(m: string)
    requires IsDigits(m)
    ensures MatchDuration("PT" + m + "M") == Some((m + "M", None))
  {
    var d := "PT" + m + "M";
    forall k | 2 <= k < 2 + |m| ensures IsDigit(d[k]) {
      assert d[k] == m[k - 2];
    }
    SpanExact(d, 2, |m|, IsDigit);
    assert d[2..3 + |m|] == m + "M";
  }

  /** With a seconds group, both groups are captured with their unit letters. */
  lemma MatchDurationSeconds(m: string, s: string)
    requires IsDigits(m) && IsDigits(s)
    ensures MatchDuration("PT" + m + "M" + s + "S") == Some((m + "M", Some(s + "S")))
  {
    var d := "PT" + m + "M" + s + "S";
    SecondsDurationChars(m, s);
    SpanExact(d, 2, |m|, IsDigit);
    SpanExact(d, 3 + |m|, |s|, IsDigit);
  }

  /** `PT<m>M<s>S` read character by character. */
  lemma SecondsDurationChars(m: string, s: string)
    requires IsDigits(m) && IsDigits(s)
    ensures var d := "PT" + m + "M" + s + "S";
      && |d| == 4 + |m| + |s| && d[0] == 'P' && d[1] == 'T'
      && d[2 + |m|] == 'M' && d[3 + |m| + |s|] == 'S'
      && (forall k :: 2 <= k < 2 + |m| ==> IsDigit(d[k]))
      && (forall k :: 3 + |m| <= k < 3 + |m| + |s| ==> IsDigit(d[k]))
      && d[2..3 + |m|] == m + "M" && d[3 + |m|..] == s + "S"
  {
    var d := "PT" + m + "M" + s + "S";
    forall k | 2 <= k < 2 + |m| ensures IsDigit(d[k]) {
      assert d[k] == m[k - 2];
    }
    forall k | 3 + |m| <= k < 3 + |m| + |s| ensures IsDigit(d[k]) {
      assert d[k] == s[k - 3 - |m|];
    }
    assert d[2..3 + |m|] == m + "M";
    assert d[3 + |m|..] == s + "S";
  }

  /** `PT<m>M` converts to m minutes. */
  lemma ConvertDurationMinutes(m: string)
    requires IsDigits(m)
    ensures ConvertDuration("PT" + m + "M") == DecimalValue(m)
  {
    MatchDurationMinutes(m);
    ParseIntDecimal(m, "M");
  }

  /** `PT<m>M<s>S` converts to s * 60 + m: the seconds are multiplied, not divided. */
  lemma ConvertDurationSeconds(m: string, s: string)
    requires IsDigits(m) && IsDigits(s)
    ensures ConvertDuration("PT" + m + "M" + s + "S") == DecimalValue(s) * 60 + DecimalValue(m)
  {
    MatchDurationSeconds(m, s);
    ParseIntDecimal(m, "M");
    ParseIntDecimal(s, "S");
  }

  /** Whatever the matcher accepts has the shape of the regular expression. */
  lemma MatchDurationSound(d: string)
    requires MatchDuration(d).Some?
    ensures DurationPattern(d)
  {
    var n := Span(d, 2, IsDigit);
    var m := d[2..2 + n];
    assert IsDigits(m) by {
      forall k | 0 <= k < |m| ensures IsDigit(m[k]) {
        assert m[k] == d[2 + k];
      }
    }
    if 3 + n == |d| {
      assert d == "PT" + m + "M";
    } else {
      var t := Span(d, 3 + n, IsDigit);
      var s := d[3 + n..3 + n + t];
      assert IsDigits(s) by {
        forall k | 0 <= k < |s| ensures IsDigit(s[k]) {
          assert s[k] == d[3 + n + k];
        }
      }
      assert d == "PT" + m + "M" + s + "S";
    }
  }

  /** Any duration string off the pattern (empty, with an hours part, ...) converts to 0. */
  lemma ConvertDurationOffPattern(d: string)
    requires !DurationPattern(d)
    ensures ConvertDuration(d) == 0
  {
    if MatchDuration(d).Some? {
      MatchDurationSound(d);
    }
  }

  // ---------------------------------------------------------------------------
  // convertFilenameToMetadata

  /** The captures of `S(\d+)E(\d+)` for a match starting at index `i`: both digit runs
      are taken greedily (the first must then be followed by `E`). */
  function MatchSeasonEpisodeAt(f: string, i: nat): Option<(string, string)>
    requires i <= |f|
  {
    if i == |f| || f[i] != 'S' then None
    else
      var a := Span(f, i + 1, IsDigit);
      if a == 0 || i + 1 + a == |f| || f[i + 1 + a] != 'E' then None
      else
        var b := Span(f, i + 2 + a, IsDigit);
        if b == 0 then None else Some((f[i + 1..i + 1 + a], f[i + 2 + a..i + 2 + a + b]))
  }

  /** The leftmost index at or after `from` where the unanchored pattern matches. */
  function FirstSeasonEpisode(f: string, from: nat): (r: Option<nat>)
    requires from <= |f|
    ensures r.Some? ==> from <= r.value < |f| && MatchSeasonEpisodeAt(f, r.value).Some?
    ensures r.Some? ==> forall j :: from <= j < r.value ==> MatchSeasonEpisodeAt(f, j).None?
    ensures r.None? ==> forall j :: from <= j <= |f| ==> MatchSeasonEpisodeAt(f, j).None?
    decreases |f| - from
  {
    if MatchSeasonEpisodeAt(f, from).Some? then Some(from)
    else if from == |f| then None
    else FirstSeasonEpisode(f, from + 1)
  }

  /** Season and episode numbers from a path: the `[s, e]` pair, or `None` for the
      source's `[null, null]` (both present or neither). Case-sensitive. */
  function ConvertFilenameToMetadata(f: string): (r: Option<(int, int)>)
  {
    var groups := match FirstSeasonEpisode(f, 0) case Some(i) => MatchSeasonEpisodeAt(f, i) case None => None;
    var s := if groups.Some? then ParseInt(groups.value.0) else None;
    var e := if groups.Some? then ParseInt(groups.value.1) else None;
    if s.Some? && e.Some? then Some((s.value, e.value)) else None
  }

  /** An occurrence of `S<ds>E<de>` in `f` starting at index `i`. */
  ghost predicate SeasonEpisodeAt(f: string, i: nat, ds: string, de: string)
  {
    && IsDigits(ds) && IsDigits(de)
    && i + 2 + |ds| + |de| <= |f|
    && f[i..i + 2 + |ds| + |de|] == "S" + ds + "E" + de
  }

  /** A match found by the matcher is an occurrence, with the episode digits maximal. */
  lemma MatchSeasonEpisodeAtSound(f: string, i: nat)
    requires i <= |f| && MatchSeasonEpisodeAt(f, i).Some?
    ensures var (ds, de) := MatchSeasonEpisodeAt(f, i).value;
      && SeasonEpisodeAt(f, i, ds, de)
      && (i + 2 + |ds| + |de| == |f| || !IsDigit(f[i + 2 + |ds| + |de|]))
  {
    var (ds, de) := MatchSeasonEpisodeAt(f, i).value;
    var a := |ds|;
    assert IsDigits(ds) by {
      forall k | 0 <= k < a ensures IsDigit(ds[k]) {
        assert ds[k] == f[i + 1 + k];
      }
    }
    assert IsDigits(de) by {
      forall k | 0 <= k < |de| ensures IsDigit(de[k]) {
        assert de[k] == f[i + 2 + a + k];
      }
    }
    assert f[i..i + 2 + |ds| + |de|] == "S" + ds + "E" + de;
  }

  /** Every occurrence is found by the matcher at its index, with the same season digits
      and the maximal run of episode digits. */
  lemma MatchSeasonEpisodeAtComplete(f: string, i: nat, ds: string, de: string)
    requires SeasonEpisodeAt(f, i, ds, de)
    requires i + 2 + |ds| + |de| == |f| || !IsDigit(f[i + 2 + |ds| + |de|])
    ensures MatchSeasonEpisodeAt(f, i) == Some((ds, de))
  {
    OccurrenceChars(f, i, ds, de);
    var a := i + 1;
    var b := i + 2 + |ds|;
    forall k | a <= k < a + |ds| ensures IsDigit(f[k]) {
      assert f[a + (k - a)] == ds[k - a];
    }
    forall k | b <= k < b + |de| ensures IsDigit(f[k]) {
      assert f[b + (k - b)] == de[k - b];
    }
    SpanExact(f, a, |ds|, IsDigit);
    SpanExact(f, b, |de|, IsDigit);
    assert f[a..a + |ds|] == ds;
    assert f[b..b + |de|] == de;
  }

  /** An occurrence read character by character. */
  lemma OccurrenceChars(f: string, i: nat, ds: string, de: string)
    requires SeasonEpisodeAt(f, i, ds, de)
    ensures f[i] == 'S' && f[i + 1 + |ds|] == 'E'
    ensures forall k :: 0 <= k < |ds| ==> f[i + 1 + k] == ds[k]
    ensures forall k :: 0 <= k < |de| ==> f[i + 2 + |ds| + k] == de[k]
  {
    var w := "S" + ds + "E" + de;
    var n := |w|;
    assert f[i..i + n] == w;
    assert f[i] == f[i..i + n][0];
    assert f[i + 1 + |ds|] == f[i..i + n][1 + |ds|];
    forall k | 0 <= k < |ds| ensures f[i + 1 + k] == ds[k] {
      assert f[i + 1 + k] == f[i..i + n][1 + k];
    }
    forall k | 0 <= k < |de| ensures f[i + 2 + |ds| + k] == de[k] {
      assert f[i + 2 + |ds| + k] == f[i..i + n][2 + |ds| + k];
    }
  }

  /** A path without any `S<digits>E<digits>` occurrence (e.g. `S2E`, or lower-case
      `s02e05`) yields the absent pair. */
  lemma ConvertFilenameNoOccurrence(f: string)
    requires forall i, ds, de :: !SeasonEpisodeAt(f, i, ds, de)
    ensures ConvertFilenameToMetadata(f) == None
  {
    var first := FirstSeasonEpisode(f, 0);
    if first.Some? {
      MatchSeasonEpisodeAtSound(f, first.value);
    }
  }

  /** The pair comes from the first occurrence: its season digits and its (maximal)
      episode digits, read as decimal numbers. */
  lemma ConvertFilenameFirstOccurrence(f: string, i: nat, ds: string, de: string)
    requires SeasonEpisodeAt(f, i, ds, de)
    requires i + 2 + |ds| + |de| == |f| || !IsDigit(f[i + 2 + |ds| + |de|])
    requires forall j, ds', de' :: 0 <= j < i ==> !SeasonEpisodeAt(f, j, ds', de')
    ensures ConvertFilenameToMetadata(f) == Some((DecimalValue(ds), DecimalValue(de)))
  {
    MatchSeasonEpisodeAtComplete(f, i, ds, de);
    var first := FirstSeasonEpisode(f, 0);
    if first.value < i {
      MatchSeasonEpisodeAtSound(f, first.value);
      assert false;
    }
    assert first == Some(i);
    assert ds + [] == ds && de + [] == de;
    ParseIntDecimal(ds, []);
    ParseIntDecimal(de, []);
  }

  // ---------------------------------------------------------------------------
  // matchFoundFiles

  /** `f.replace(/\.\w+$/, '.nfo')`: the `.` before the trailing run of word characters
      and that run become `.nfo`; without such a suffix the path is unchanged. */
  function ReplaceExtension(f: string): string
  {
    var n := SpanBack(f, |f|, IsWordChar);
    if 0 < n < |f| && f[|f| - n - 1] == '.' then f[..|f| - n - 1] + ".nfo" else f
  }

  /** `f` ends with `.` followed, from index `i`, by word characters only. */
  ghost predicate ExtensionAt(f: string, i: nat)
  {
    i < |f| && f[i] == '.' && IsWord(f[i + 1..])
  }

  /** A path `<stem>.<ext>` with a word-character extension becomes `<stem>.nfo`. */
  lemma ReplaceExtensionOf(stem: string, ext: string)
    requires IsWord(ext)
    ensures ReplaceExtension(stem + "." + ext) == stem + ".nfo"
  {
    var f := stem + "." + ext;
    forall k | |f| - |ext| <= k < |f| ensures IsWordChar(f[k]) {
      assert f[k] == ext[k - |stem| - 1];
    }
    assert f[|stem|] == '.';
    SpanBackExact(f, |f|, |ext|, IsWordChar);
    assert f[..|stem|] == stem;
  }

  /** When the path is rewritten, it did end in `.` and word characters. */
  lemma ReplaceExtensionChanged(f: string)
    requires ReplaceExtension(f) != f
    ensures ExtensionAt(f, |f| - SpanBack(f, |f|, IsWordChar) - 1)
  {
    var i := |f| - SpanBack(f, |f|, IsWordChar) - 1;
    var e := f[i + 1..];
    forall k | 0 <= k < |e| ensures IsWordChar(e[k]) {
      assert e[k] == f[i + 1 + k];
    }
  }

  /** A path with no `.<word characters>` suffix is returned unchanged. */
  lemma ReplaceExtensionAbsent(f: string)
    requires forall i :: !ExtensionAt(f, i)
    ensures ReplaceExtension(f) == f
  {
    if ReplaceExtension(f) != f {
      ReplaceExtensionChanged(f);
    }
  }

  /** `nfos.find((nfo) => nfo.episode === e && nfo.season === s)` as an index: the first
      record with the parsed pair; a `[null, null]` pair equals no number, so finds none. */
  function FindNfo(nfos: seq<ShowNfo>, pair: Option<(int, int)>): (r: Option<nat>)
    ensures pair.None? ==> r.None?
    ensures r.Some? ==> (r.value < |nfos| && pair.Some?
      && nfos[r.value].season == pair.value.0 && nfos[r.value].episode == pair.value.1)
    ensures r.Some? ==> (forall k :: 0 <= k < r.value ==>
      !(nfos[k].season == pair.value.0 && nfos[k].episode == pair.value.1))
    ensures r.None? && pair.Some? ==> (forall k :: 0 <= k < |nfos| ==>
      !(nfos[k].season == pair.value.0 && nfos[k].episode == pair.value.1))
  {
    FindFirst(nfos, (nfo: ShowNfo) => pair.Some? && nfo.episode == pair.value.1 && nfo.season == pair.value.0)
  }

  /** The first `.map` step for one file: its sidecar name and the NFO found for it. */
  function Candidate(f: string, nfos: seq<ShowNfo>): (string, Option<Node>)
  {
    var found := FindNfo(nfos, ConvertFilenameToMetadata(f));
    (ReplaceExtension(f), if found.Some? then Some(nfos[found.value].nfo) else None)
  }

  function Candidates(files: seq<string>, nfos: seq<ShowNfo>): (cs: seq<(string, Option<Node>)>)
    ensures |cs| == |files|
    ensures forall i :: 0 <= i < |files| ==> cs[i] == Candidate(files[i], nfos)
  {
    seq(|files|, i requires 0 <= i < |files| => Candidate(files[i], nfos))
  }

  /** `.filter(([_, found]) => !!found).map(([filename, nfo]) => ({ filename, nfo }))`,
      over the candidates from index `from` on. */
  function KeepFound(cs: seq<(string, Option<Node>)>, from: nat): seq<GeneratedResult>
    requires from <= |cs|
    decreases |cs| - from
  {
    if from == |cs| then []
    else
      var kept := if cs[from].1.Some? then [GeneratedResult(cs[from].0, cs[from].1.value)] else [];
      kept + KeepFound(cs, from + 1)
  }

  /** Join the scanned media files with the generated records. */
  function MatchFoundFiles(files: seq<string>, nfos: seq<ShowNfo>): seq<GeneratedResult>
  {
    KeepFound(Candidates(files, nfos), 0)
  }

  /** The indices, in increasing order from `from`, of the candidates that found an NFO. */
  ghost function FoundIndices(cs: seq<(string, Option<Node>)>, from: nat): seq<nat>
    requires from <= |cs|
    decreases |cs| - from
  {
    if from == |cs| then []
    else (if cs[from].1.Some? then [from] else []) + FoundIndices(cs, from + 1)
  }

  /** The kept results are exactly the found candidates, in their original order. */
  lemma {:induction false} KeepFoundIsFilter(cs: seq<(string, Option<Node>)>, from: nat)
    requires from <= |cs|
    ensures |KeepFound(cs, from)| == |FoundIndices(cs, from)| <= |cs| - from
    ensures forall k :: 0 <= k < |FoundIndices(cs, from)| ==>
      (var i := FoundIndices(cs, from)[k];
       from <= i < |cs| && cs[i].1.Some? && KeepFound(cs, from)[k] == GeneratedResult(cs[i].0, cs[i].1.value))
    ensures forall k, l :: 0 <= k < l < |FoundIndices(cs, from)| ==>
      FoundIndices(cs, from)[k] < FoundIndices(cs, from)[l]
    ensures forall i :: from <= i < |cs| && cs[i].1.Some? ==> i in FoundIndices(cs, from)
    decreases |cs| - from
  {
    if from < |cs| {
      KeepFoundIsFilter(cs, from + 1);
      var r, idx := KeepFound(cs, from), FoundIndices(cs, from);
      var r', idx' := KeepFound(cs, from + 1), FoundIndices(cs, from + 1);
      if cs[from].1.Some? {
        assert r == [GeneratedResult(cs[from].0, cs[from].1.value)] + r';
        assert idx == [from] + idx';
        forall k | 1 <= k < |idx| ensures idx[k] == idx'[k - 1] && r[k] == r'[k - 1] {
        }
      } else {
        assert r == r' && idx == idx';
      }
    }
  }

  /** matchFoundFiles keeps, in the order of `files`, exactly the files whose parsed pair
      has a record; each result is the file's `.nfo` path with the first such record. */
  lemma MatchFoundFilesSpec(files: seq<string>, nfos: seq<ShowNfo>)
    ensures var r, idx := MatchFoundFiles(files, nfos), FoundIndices(Candidates(files, nfos), 0);
      && |r| == |idx| <= |files|
      && (forall k, l :: 0 <= k < l < |idx| ==> idx[k] < idx[l])
      && (forall k :: 0 <= k < |idx| ==>
            (idx[k] < |files|
             && var found := FindNfo(nfos, ConvertFilenameToMetadata(files[idx[k]]));
             && found.Some?
             && r[k] == GeneratedResult(ReplaceExtension(files[idx[k]]), nfos[found.value].nfo)))
      && (forall i :: 0 <= i < |files| ==>
            (i in idx <==> FindNfo(nfos, ConvertFilenameToMetadata(files[i])).Some?))
  {
    var cs := Candidates(files, nfos);
    KeepFoundIsFilter(cs, 0);
  }

  // ---------------------------------------------------------------------------
  // showToNfo

  /** The record generated for one episode: its own season and episode numbers. */
  function EpisodeToNfo(s: Show, e: SeasonEpisode): ShowNfo {
    ShowNfo(e.season, e.episode, EpisodeNfo(s, e))
  }

  /** `seasons.flatMap((season) => season.episodes.map(...))` */
  function SeasonsToNfo(s: Show, seasons: seq<Season>): seq<ShowNfo>
  {
    if seasons == [] then []
    else
      var eps := seasons[0].episodes;
      seq(|eps|, j requires 0 <= j < |eps| => EpisodeToNfo(s, eps[j])) + SeasonsToNfo(s, seasons[1..])
  }

  /** One NFO record per episode of the show. */
  function ShowToNfo(s: Show): seq<ShowNfo> {
    SeasonsToNfo(s, s.seasons)
  }

  /** The number of episodes across `seasons`. */
  function EpisodeCount(seasons: seq<Season>): nat {
    if seasons == [] then 0 else |seasons[0].episodes| + EpisodeCount(seasons[1..])
  }

  /** The position in the flattened order of episode `ej` of season index `si`. */
  function FlatIndex(seasons: seq<Season>, si: nat, ej: nat): nat
    requires si <= |seasons|
  {
    EpisodeCount(seasons[..si]) + ej
  }

  lemma {:induction false} SeasonsToNfoLength(s: Show, seasons: seq<Season>)
    ensures |SeasonsToNfo(s, seasons)| == EpisodeCount(seasons)
  {
    if seasons != [] {
      SeasonsToNfoLength(s, seasons[1..]);
    }
  }

  /** Counting the first si + 1 seasons adds season si's episodes to the first si. */
  lemma {:induction false} EpisodeCountStep(seasons: seq<Season>, si: nat)
    requires si < |seasons|
    ensures EpisodeCount(seasons[..si + 1]) == EpisodeCount(seasons[..si]) + |seasons[si].episodes|
  {
    if si == 0 {
      assert seasons[..1][1..] == [];
      assert seasons[..0] == [];
    } else {
      EpisodeCountStep(seasons[1..], si - 1);
      assert seasons[..si + 1][1..] == seasons[1..][..si];
      assert seasons[..si][1..] == seasons[1..][..si - 1];
    }
  }

  lemma {:induction false} SeasonsToNfoAt(s: Show, seasons: seq<Season>, si: nat, ej: nat)
    requires si < |seasons| && ej < |seasons[si].episodes|
    ensures FlatIndex(seasons, si, ej) < |SeasonsToNfo(s, seasons)|
    ensures SeasonsToNfo(s, seasons)[FlatIndex(seasons, si, ej)] == EpisodeToNfo(s, seasons[si].episodes[ej])
  {
    var eps := seasons[0].episodes;
    var head := seq(|eps|, j requires 0 <= j < |eps| => EpisodeToNfo(s, eps[j]));
    var rest := SeasonsToNfo(s, seasons[1..]);
    assert SeasonsToNfo(s, seasons) == head + rest;
    if si == 0 {
      assert seasons[..0] == [];
      assert FlatIndex(seasons, si, ej) == ej;
    } else {
      SeasonsToNfoAt(s, seasons[1..], si - 1, ej);
      assert seasons[..si][1..] == seasons[1..][..si - 1];
      assert FlatIndex(seasons, si, ej) == |head| + FlatIndex(seasons[1..], si - 1, ej);
    }
  }

  /** showToNfo yields one record per episode, season by season and, within a season,
      in episode-list order; each record carries its episode's own numbers. */
  lemma ShowToNfoSpec(s: Show)
    ensures |ShowToNfo(s)| == EpisodeCount(s.seasons)
    ensures forall si, ej :: 0 <= si < |s.seasons| && 0 <= ej < |s.seasons[si].episodes| ==>
      && FlatIndex(s.seasons, si, ej) < |ShowToNfo(s)|
      && ShowToNfo(s)[FlatIndex(s.seasons, si, ej)]
         == ShowNfo(s.seasons[si].episodes[ej].season, s.seasons[si].episodes[ej].episode,
                    EpisodeNfo(s, s.seasons[si].episodes[ej]))
  {
    SeasonsToNfoLength(s, s.seasons);
    forall si, ej | 0 <= si < |s.seasons| && 0 <= ej < |s.seasons[si].episodes|
      ensures FlatIndex(s.seasons, si, ej) < |ShowToNfo(s)|
      ensures ShowToNfo(s)[FlatIndex(s.seasons, si, ej)] == EpisodeToNfo(s, s.seasons[si].episodes[ej])
    {
      SeasonsToNfoAt(s, s.seasons, si, ej);
    }
  }

  /** The flattened positions follow season-then-episode order. */
  lemma {:induction false} FlatIndexOrder(seasons: seq<Season>, si: nat, ej: nat, si': nat, ej': nat)
    requires si < |seasons| && ej < |seasons[si].episodes|
    requires si' < |seasons| && ej' < |seasons[si'].episodes|
    requires si < si' || (si == si' && ej < ej')
    ensures FlatIndex(seasons, si, ej) < FlatIndex(seasons, si', ej')
    decreases si' - si
  {
    if si < si' {
      EpisodeCountStep(seasons, si);
      if si + 1 < si' {
        PrefixCountMonotone(seasons, si + 1, si');
      }
    }
  }

  lemma {:induction false} PrefixCountMonotone(seasons: seq<Season>, i: nat, j: nat)
    requires i <= j <= |seasons|
    ensures EpisodeCount(seasons[..i]) <= EpisodeCount(seasons[..j])
    decreases j - i
  {
    if i < j {
      EpisodeCountStep(seasons, i);
      PrefixCountMonotone(seasons, i + 1, j);
    }
  }

  // ---------------------------------------------------------------------------
  // episodeToXml

  /** The tags of the twelve elements every episode document starts with, in order. */
  const HeaderTags: seq<string> := ["title", "originaltitle", "showtitle", "season", "namedseason",
    "episode", "plot", "runtime", "aired", "year", "uniqueid", "mpaa"]

  /** `airDate.split('-')[0]`: the part of the date before its first `-`, or all of it. */
  function YearOf(airDate: string): (y: string)
    ensures |y| <= |airDate| && airDate[..|y|] == y
    ensures forall k :: 0 <= k < |y| ==> y[k] != '-'
    ensures y == airDate || airDate[|y|] == '-'
  {
    airDate[..Span(airDate, 0, c => c != '-')]
  }

  function StrOrAbsent(o: Option<string>): Option<Value> {
    if o.Some? then Some(StrValue(o.value)) else None
  }

  /** `typeof e.rating === 'number'` */
  predicate IsNumber(rating: Option<JsonScalar>) {
    rating.Some? && rating.value.JsonNumber?
  }

  /** The twelve fixed elements, values as handed to the builder (absent ones kept
      as elements without text). */
  function HeaderNodes(s: Show, e: SeasonEpisode): seq<Node>
  {
    [Leaf("title", Some(StrValue(e.title)))]
    + [Leaf("originaltitle", Some(StrValue(e.title)))]
    + [Leaf("showtitle", Some(StrValue(s.title)))]
    + [Leaf("season", Some(IntValue(e.season)))]
    + [Element("namedseason", [("number", IntValue(e.season))], Some(StrValue("Season " + IntToString(e.season))), [])]
    + [Leaf("episode", Some(IntValue(e.episode)))]
    + [Leaf("plot", StrOrAbsent(e.description))]
    + [Leaf("runtime", if e.runtime.Some? then Some(IntValue(e.runtime.value)) else None)]
    + [Leaf("aired", StrOrAbsent(e.airDate))]
    + [Leaf("year", if e.airDate.Some? then Some(StrValue(YearOf(e.airDate.value))) else None)]
    + [Element("uniqueid", [("type", StrValue("imdb"))], Some(StrValue(e.id)), [])]
    + [Leaf("mpaa", StrOrAbsent(e.contentRating))]
  }

  function GenreNode(genre: string): Node {
    Leaf("genre", Some(StrValue(genre)))
  }

  function ThumbNode(url: string): Node {
    Element("thumb", [("spoof", StrValue("")), ("cache", StrValue(""))], Some(StrValue(url)), [])
  }

  /** The actor block of the cast member billed at index `order`. */
  function ActorNode(c: Casting, order: nat): Node {
    Element("actor", [], None, [
      Leaf("name", Some(StrValue(c.actor))),
      Leaf("role", StrOrAbsent(c.character)),
      Leaf("thumb", StrOrAbsent(c.thumbnail)),
      Leaf("order", Some(IntValue(order)))])
  }

  function RatingsNode(rating: real): Node {
    Element("ratings", [], None, [
      Element("rating", [("name", StrValue("imdb")), ("max", IntValue(10)), ("default", BoolValue(true))], None, [
        Leaf("value", Some(RealValue(rating)))])])
  }

  function GenreNodes(genres: seq<string>): seq<Node> {
    seq(|genres|, i requires 0 <= i < |genres| => GenreNode(genres[i]))
  }

  function ThumbNodes(thumbnails: seq<string>): seq<Node> {
    seq(|thumbnails|, i requires 0 <= i < |thumbnails| => ThumbNode(thumbnails[i]))
  }

  function ActorNodes(cast: seq<Casting>): seq<Node> {
    seq(|cast|, i requires 0 <= i < |cast| => ActorNode(cast[i], i))
  }

  function RatingsNodes(rating: Option<JsonScalar>): seq<Node> {
    if IsNumber(rating) then [RatingsNode(rating.value.n)] else []
  }

  /** The `tvshow` document of one episode of a show. */
  function EpisodeNfo(s: Show, e: SeasonEpisode): Node
  {
    Element("tvshow", [], None,
      HeaderNodes(s, e) + GenreNodes(s.genres) + ThumbNodes(e.thumbnails) + ActorNodes(e.cast)
      + RatingsNodes(e.rating))
  }

  /** Builds the document the way the source drives its XML builder: one `ele` call
      per fixed element, then one per genre, thumbnail and cast member, then the
      ratings block when the rating is a number. */
  method EpisodeToXml(s: Show, e: SeasonEpisode) returns (doc: Node)
    ensures doc == EpisodeNfo(s, e)
  {
    var children := AddHeader(s, e);
    children := AddGenres(children, s.genres);
    children := AddThumbs(children, e.thumbnails);
    children := AddActors(children, e.cast);
    if e.rating.Some? && e.rating.value.JsonNumber? {
      children := children + [RatingsNode(e.rating.value.n)];
    }
    doc := Element("tvshow", [], None, children);
  }

  /** The twelve fixed elements, one `ele` call each. */
  method AddHeader(s: Show, e: SeasonEpisode) returns (children: seq<Node>)
    ensures children == HeaderNodes(s, e)
  {
    children := [Leaf("title", Some(StrValue(e.title)))];
    children := children + [Leaf("originaltitle", Some(StrValue(e.title)))];
    children := children + [Leaf("showtitle", Some(StrValue(s.title)))];
    children := children + [Leaf("season", Some(IntValue(e.season)))];
    children := children + [Element("namedseason", [("number", IntValue(e.season))],
      Some(StrValue("Season " + IntToString(e.season))), [])];
    children := children + [Leaf("episode", Some(IntValue(e.episode)))];
    children := children + [Leaf("plot", StrOrAbsent(e.description))];
    children := children + [Leaf("runtime", if e.runtime.Some? then Some(IntValue(e.runtime.value)) else None)];
    children := children + [Leaf("aired", StrOrAbsent(e.airDate))];
    children := children + [Leaf("year", if e.airDate.Some? then Some(StrValue(YearOf(e.airDate.value))) else None)];
    children := children + [Element("uniqueid", [("type", StrValue("imdb"))], Some(StrValue(e.id)), [])];
    children := children + [Leaf("mpaa", StrOrAbsent(e.contentRating))];
  }

  /** `s.genres.forEach((g) => xml.ele('genre', g))` */
  method AddGenres(start: seq<Node>, genres: seq<string>) returns (children: seq<Node>)
    ensures children == start + GenreNodes(genres)
  {
    children := start;
    for i := 0 to |genres|
      invariant children == start + GenreNodes(genres)[..i]
    {
      children := children + [GenreNode(genres[i])];
    }
    assert GenreNodes(genres)[..|genres|] == GenreNodes(genres);
  }

  /** One `thumb` element per thumbnail. */
  method AddThumbs(start: seq<Node>, thumbnails: seq<string>) returns (children: seq<Node>)
    ensures children == start + ThumbNodes(thumbnails)
  {
    children := start;
    for i := 0 to |thumbnails|
      invariant children == start + ThumbNodes(thumbnails)[..i]
    {
      children := children + [ThumbNode(thumbnails[i])];
    }
    assert ThumbNodes(thumbnails)[..|thumbnails|] == ThumbNodes(thumbnails);
  }

  /** One `actor` block per cast member, its `order` being its index. */
  method AddActors(start: seq<Node>, cast: seq<Casting>) returns (children: seq<Node>)
    ensures children == start + ActorNodes(cast)
  {
    children := start;
    for i := 0 to |cast|
      invariant children == start + ActorNodes(cast)[..i]
    {
      var c := cast[i];
      var actor := [Leaf("name", Some(StrValue(c.actor)))];
      actor := actor + [Leaf("role", StrOrAbsent(c.character))];
      actor := actor + [Leaf("thumb", StrOrAbsent(c.thumbnail))];
      actor := actor + [Leaf("order", Some(IntValue(i)))];
      assert actor == ActorNode(c, i).children;
      assert ActorNodes(cast)[..i + 1] == ActorNodes(cast)[..i] + [ActorNode(c, i)];
      children := children + [Element("actor", [], None, actor)];
    }
    assert ActorNodes(cast)[..|cast|] == ActorNodes(cast);
  }

  /** Element order: the twelve fixed elements, then one `genre` per show genre, one
      `thumb` per thumbnail, one `actor` per cast member, and `ratings` last exactly
      when the rating is a number. */
  lemma EpisodeNfoTags(s: Show, e: SeasonEpisode)
    ensures Tags(EpisodeNfo(s, e).children)
      == HeaderTags + Repeat("genre", |s.genres|) + Repeat("thumb", |e.thumbnails|)
         + Repeat("actor", |e.cast|) + (if IsNumber(e.rating) then ["ratings"] else [])
  {
    var h, g, t, a, r := HeaderNodes(s, e), GenreNodes(s.genres), ThumbNodes(e.thumbnails),
      ActorNodes(e.cast), RatingsNodes(e.rating);
    HeaderNodesTags(s, e);
    assert Tags(g) == Repeat("genre", |s.genres|);
    assert Tags(t) == Repeat("thumb", |e.thumbnails|);
    assert Tags(a) == Repeat("actor", |e.cast|);
    TagsAppend(h, g);
    TagsAppend(h + g, t);
    TagsAppend(h + g + t, a);
    TagsAppend(h + g + t + a, r);
  }

  /** The fixed elements carry the twelve header tags, in order. */
  lemma HeaderNodesTags(s: Show, e: SeasonEpisode)
    ensures Tags(HeaderNodes(s, e)) == HeaderTags
  {
  }

  lemma TagsAppend(a: seq<Node>, b: seq<Node>)
    ensures Tags(a + b) == Tags(a) + Tags(b)
  {
  }

  /** Selecting by tag goes section by section through the document. */
  lemma TaggedSections(s: Show, e: SeasonEpisode, tag: string)
    ensures Tagged(EpisodeNfo(s, e).children, tag)
      == Tagged(HeaderNodes(s, e), tag) + Tagged(GenreNodes(s.genres), tag) + Tagged(ThumbNodes(e.thumbnails), tag)
         + Tagged(ActorNodes(e.cast), tag) + Tagged(RatingsNodes(e.rating), tag)
  {
    TaggedConcat(HeaderNodes(s, e), GenreNodes(s.genres), ThumbNodes(e.thumbnails), ActorNodes(e.cast),
      RatingsNodes(e.rating), tag);
  }

  lemma TaggedConcat(h: seq<Node>, g: seq<Node>, t: seq<Node>, a: seq<Node>, r: seq<Node>, tag: string)
    ensures Tagged(h + g + t + a + r, tag)
      == Tagged(h, tag) + Tagged(g, tag) + Tagged(t, tag) + Tagged(a, tag) + Tagged(r, tag)
  {
    TaggedAppend(h + g + t + a, r, tag);
    TaggedAppend(h + g + t, a, tag);
    TaggedAppend(h + g, t, tag);
    TaggedAppend(h, g, tag);
  }

  lemma HeaderTagged(s: Show, e: SeasonEpisode, tag: string)
    requires tag !in HeaderTags
    ensures Tagged(HeaderNodes(s, e), tag) == []
  {
    TaggedNone(HeaderNodes(s, e), tag);
  }

  lemma GenresTagged(genres: seq<string>, tag: string)
    ensures Tagged(GenreNodes(genres), tag) == if tag == "genre" then GenreNodes(genres) else []
  {
    if tag == "genre" { TaggedAll(GenreNodes(genres), tag); } else { TaggedNone(GenreNodes(genres), tag); }
  }

  lemma ThumbsTagged(thumbnails: seq<string>, tag: string)
    ensures Tagged(ThumbNodes(thumbnails), tag) == if tag == "thumb" then ThumbNodes(thumbnails) else []
  {
    if tag == "thumb" { TaggedAll(ThumbNodes(thumbnails), tag); } else { TaggedNone(ThumbNodes(thumbnails), tag); }
  }

  lemma ActorsTagged(cast: seq<Casting>, tag: string)
    ensures Tagged(ActorNodes(cast), tag) == if tag == "actor" then ActorNodes(cast) else []
  {
    if tag == "actor" { TaggedAll(ActorNodes(cast), tag); } else { TaggedNone(ActorNodes(cast), tag); }
  }

  lemma RatingsTagged(rating: Option<JsonScalar>, tag: string)
    ensures Tagged(RatingsNodes(rating), tag) == if tag == "ratings" then RatingsNodes(rating) else []
  {
    if tag == "ratings" { TaggedAll(RatingsNodes(rating), tag); } else { TaggedNone(RatingsNodes(rating), tag); }
  }

  /** The `genre` elements, read in document order, carry exactly the show's genres. */
  lemma EpisodeNfoGenres(s: Show, e: SeasonEpisode)
    ensures var gs := Tagged(EpisodeNfo(s, e).children, "genre");
      && |gs| == |s.genres|
      && forall i :: 0 <= i < |gs| ==> gs[i].value == Some(StrValue(s.genres[i]))
  {
    TaggedSections(s, e, "genre");
    HeaderTagged(s, e, "genre");
    GenresTagged(s.genres, "genre");
    ThumbsTagged(e.thumbnails, "genre");
    ActorsTagged(e.cast, "genre");
    RatingsTagged(e.rating, "genre");
    assert Tagged(EpisodeNfo(s, e).children, "genre") == GenreNodes(s.genres);
  }

  /** The top-level `thumb` elements carry exactly the episode's thumbnails, in order. */
  lemma EpisodeNfoThumbnails(s: Show, e: SeasonEpisode)
    ensures var ts := Tagged(EpisodeNfo(s, e).children, "thumb");
      && |ts| == |e.thumbnails|
      && forall i :: 0 <= i < |ts| ==> ts[i].value == Some(StrValue(e.thumbnails[i]))
  {
    TaggedSections(s, e, "thumb");
    HeaderTagged(s, e, "thumb");
    GenresTagged(s.genres, "thumb");
    ThumbsTagged(e.thumbnails, "thumb");
    ActorsTagged(e.cast, "thumb");
    RatingsTagged(e.rating, "thumb");
    assert Tagged(EpisodeNfo(s, e).children, "thumb") == ThumbNodes(e.thumbnails);
  }

  /** One `actor` block per cast member, in billing order; block k names the k-th cast
      member and carries order k, with `role` and `thumb` present even when empty. */
  lemma EpisodeNfoCast(s: Show, e: SeasonEpisode)
    ensures var actors := Tagged(EpisodeNfo(s, e).children, "actor");
      && |actors| == |e.cast|
      && forall k :: 0 <= k < |actors| ==>
           && Tags(actors[k].children) == ["name", "role", "thumb", "order"]
           && actors[k].children[0].value == Some(StrValue(e.cast[k].actor))
           && actors[k].children[1].value == StrOrAbsent(e.cast[k].character)
           && actors[k].children[2].value == StrOrAbsent(e.cast[k].thumbnail)
           && actors[k].children[3].value == Some(IntValue(k))
  {
    TaggedSections(s, e, "actor");
    HeaderTagged(s, e, "actor");
    GenresTagged(s.genres, "actor");
    ThumbsTagged(e.thumbnails, "actor");
    ActorsTagged(e.cast, "actor");
    RatingsTagged(e.rating, "actor");
    var actors := Tagged(EpisodeNfo(s, e).children, "actor");
    assert actors == [] + [] + [] + ActorNodes(e.cast) + [];
    assert actors == ActorNodes(e.cast);
    ActorNodesShape(e.cast);
  }

  /** Block k of the actor elements holds cast member k's name, character and
      thumbnail, and order k. */
  lemma ActorNodesShape(cast: seq<Casting>)
    ensures var actors := ActorNodes(cast);
      forall k :: 0 <= k < |actors| ==>
        && Tags(actors[k].children) == ["name", "role", "thumb", "order"]
        && actors[k].children[0].value == Some(StrValue(cast[k].actor))
        && actors[k].children[1].value == StrOrAbsent(cast[k].character)
        && actors[k].children[2].value == StrOrAbsent(cast[k].thumbnail)
        && actors[k].children[3].value == Some(IntValue(k))
  {
    forall k | 0 <= k < |cast|
      ensures Tags(ActorNodes(cast)[k].children) == ["name", "role", "thumb", "order"]
    {
      ActorNodeShape(cast[k], k);
    }
  }

  lemma ActorNodeShape(c: Casting, order: nat)
    ensures Tags(ActorNode(c, order).children) == ["name", "role", "thumb", "order"]
  {
  }

  /** A `ratings` block appears exactly when the rating is a number, and then holds that
      number as the value of an `imdb` rating out of 10. */
  lemma EpisodeNfoRatings(s: Show, e: SeasonEpisode)
    ensures var rs := Tagged(EpisodeNfo(s, e).children, "ratings");
      && |rs| == (if IsNumber(e.rating) then 1 else 0)
      && (IsNumber(e.rating) ==> rs == [RatingsNode(e.rating.value.n)])
  {
    TaggedSections(s, e, "ratings");
    HeaderTagged(s, e, "ratings");
    GenresTagged(s.genres, "ratings");
    ThumbsTagged(e.thumbnails, "ratings");
    ActorsTagged(e.cast, "ratings");
    RatingsTagged(e.rating, "ratings");
  }
}
