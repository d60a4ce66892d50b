/** Worked examples of the generator's behaviour on concrete inputs. */
module Scenarios {
  import opened Wrappers
  import opened Text
  import opened Xml
  import opened Types
  import opened Utils
  import opened Crawler
  import opened Assembly

  /** No occurrence of `S<digits>E<digits>` starts before index `i` when each earlier
      character is not an `S` or is not followed by a digit. */
  lemma NoOccurrenceBefore(f: string, i: nat)
    requires i < |f|
    requires forall j :: 0 <= j < i ==> f[j] != 'S' || !IsDigit(f[j + 1])
    ensures forall j, ds, de :: 0 <= j < i ==> !SeasonEpisodeAt(f, j, ds, de)
  {
    forall j, ds, de | 0 <= j < i ensures !SeasonEpisodeAt(f, j, ds, de) {
      if SeasonEpisodeAt(f, j, ds, de) {
        OccurrenceStart(f, j, ds, de);
      }
    }
  }

  /** An occurrence starts with `S` and a digit. */
  lemma OccurrenceStart(f: string, j: nat, ds: string, de: string)
    requires SeasonEpisodeAt(f, j, ds, de)
    ensures j + 1 < |f| && f[j] == 'S' && IsDigit(f[j + 1])
  {
    OccurrenceChars(f, j, ds, de);
    assert f[j + 1] == ds[0];
  }

  /** Decimal value of a two-digit numeral. */
  lemma TwoDigits(c1: char, c2: char)
    requires IsDigit(c1) && IsDigit(c2)
    ensures DecimalValue([c1, c2]) == DigitValue(c1) * 10 + DigitValue(c2)
  {
    assert NumeralValue([c1], 10) == DigitValue(c1) by {
      assert [c1][..0] == [];
    }
    assert [c1, c2][..1] == [c1];
    assert NumeralValue([c1, c2], 10) == NumeralValue([c1], 10) * 10 + DigitValue(c2);
  }

  /** A path `<prefix>S<ds>E<de><rest>` whose prefix holds no `S` followed by a digit,
      and whose rest does not continue the episode digits, yields the pair `(ds, de)`. */
  lemma PairAfter(prefix: string, ds: string, de: string, rest: string)
    requires IsDigits(ds) && IsDigits(de)
    requires forall j :: 0 <= j && j + 1 < |prefix| ==> prefix[j] != 'S' || !IsDigit(prefix[j + 1])
    requires rest == [] || !IsDigit(rest[0])
    ensures ConvertFilenameToMetadata(prefix + ("S" + ds + "E" + de) + rest)
      == Some((DecimalValue(ds), DecimalValue(de)))
  {
    var pair := "S" + ds + "E" + de;
    var f := prefix + pair + rest;
    var i := |prefix|;
    assert f[i..i + |pair|] == pair;
    if rest != [] {
      assert f[i + |pair|] == rest[0];
    }
    assert f[i] == 'S';
    forall j | 0 <= j < i ensures f[j] != 'S' || !IsDigit(f[j + 1]) {
      assert f[j] == prefix[j];
      if j + 1 < i {
        assert f[j + 1] == prefix[j + 1];
      }
    }
    NoOccurrenceBefore(f, i);
    ConvertFilenameFirstOccurrence(f, i, ds, de);
  }

  /** A path with no `S` at all has no occurrence anywhere. */
  lemma NoOccurrenceWithoutS(f: string)
    requires forall j :: 0 <= j < |f| ==> f[j] != 'S'
    ensures forall j, ds, de :: !SeasonEpisodeAt(f, j, ds, de)
  {
    forall j, ds, de ensures !SeasonEpisodeAt(f, j, ds, de) {
      if SeasonEpisodeAt(f, j, ds, de) {
        OccurrenceChars(f, j, ds, de);
      }
    }
  }

  lemma DurationMinutesOnly()
    ensures ConvertDuration("PT45M") == 45
  {
    ConvertDurationMinutes("45");
    TwoDigits('4', '5');
    assert "PT" + "45" + "M" == "PT45M";
  }

  /** `PT1M30S` is 30 * 60 + 1 minutes as written, not the 1 minute of a seconds-to-minutes
      conversion. */
  lemma DurationSecondsScaled()
    ensures ConvertDuration("PT1M30S") == 1801
  {
    ConvertDurationSeconds("1", "30");
    TwoDigits('3', '0');
    assert "1"[..0] == [];
    assert "PT" + "1" + "M" + "30" + "S" == "PT1M30S";
  }

  /** An hours component takes the duration off the pattern. */
  lemma DurationWithHours()
    ensures ConvertDuration("PT1H5M") == 0
  {
    var d := "PT1H5M";
    forall m | IsDigits(m) ensures d != "PT" + m + "M" {
      if |m| == 3 {
        assert ("PT" + m + "M")[3] == m[1];
      }
    }
    forall m, s | IsDigits(m) && IsDigits(s) ensures d != "PT" + m + "M" + s + "S" {
      var w := "PT" + m + "M" + s + "S";
      assert w[|w| - 1] == 'S';
    }
    ConvertDurationOffPattern(d);
  }

  /** A missing episode digit group leaves no pair at all. */
  lemma FilenameIncompletePair()
    ensures ConvertFilenameToMetadata("S2E") == None
  {
    ConvertFilenameNoOccurrence("S2E");
  }

  /** The pattern is case-sensitive: lower-case `s..e..` is not a pair. */
  lemma FilenameLowerCase()
    ensures ConvertFilenameToMetadata("s02e05") == None
  {
    NoOccurrenceWithoutS("s02e05");
    ConvertFilenameNoOccurrence("s02e05");
  }

  /** The records of a show with one season of episodes 1 and 2, and two files naming
      S01E02 and S01E03 (such as `a.S01E02.mkv` and `b.S01E03.mkv`): only the first is
      matched, to episode 2's document, under its `.nfo` name; the second names an
      episode that does not exist and is dropped. */
  lemma EndToEndMatch(n1: Node, n2: Node, a: string, b: string)
    requires ConvertFilenameToMetadata(a) == Some((1, 2))
    requires ConvertFilenameToMetadata(b) == Some((1, 3))
    ensures MatchFoundFiles([a, b], [ShowNfo(1, 1, n1), ShowNfo(1, 2, n2)])
      == [GeneratedResult(ReplaceExtension(a), n2)]
  {
    var nfos := [ShowNfo(1, 1, n1), ShowNfo(1, 2, n2)];
    var found := FindNfo(nfos, Some((1, 2)));
    assert found.Some? by {
      assert nfos[1].season == 1 && nfos[1].episode == 2;
    }
    assert found.value == 1 by {
      assert nfos[0].episode != 2;
    }
    var missing := FindNfo(nfos, Some((1, 3)));
    assert missing.None? by {
      assert nfos[0].episode != 3 && nfos[1].episode != 3;
    }
    var cs := Candidates([a, b], nfos);
    assert cs[0] == (ReplaceExtension(a), Some(n2));
    assert cs[1].1 == None;
    assert KeepFound(cs, 2) == [];
    assert KeepFound(cs, 1) == [];
    assert KeepFound(cs, 0) == [GeneratedResult(ReplaceExtension(a), n2)];
  }

  /** Two genres give two `genre` elements, in the show's order, in every episode's document. */
  lemma GenresInOrder(s: Show, e: SeasonEpisode)
    requires s.genres == ["Drama", "Comedy"]
    ensures var gs := Tagged(EpisodeNfo(s, e).children, "genre");
      |gs| == 2 && gs[0].value == Some(StrValue("Drama")) && gs[1].value == Some(StrValue("Comedy"))
  {
    EpisodeNfoGenres(s, e);
  }

  /** The third entry of a season list without an explicit number is episode 3, whatever
      numbers its siblings carry. */
  lemma PositionalEpisodeNumber(env: Env, id: string, n: nat, season: Season)
    requires SeasonFromList(env, id, n, season)
    requires |season.episodes| >= 3
    requires FetchEpisodeList(env, id, n).value[2].episode.None?
    ensures season.episodes[2].episode == 3
  {
    SeasonEpisodeFields(env, id, n, season, 2);
  }

  /** A show page without structured data makes loading the show fail with a syntax error. */
  lemma ShowWithoutStructuredData(env: Env, id: string, page: Page)
    requires env.fetch(TitleUrl(id)) == Ok(page)
    requires forall k :: 0 <= k < |page.scripts| ==> page.scripts[k].scriptType != Some(LdJson)
    ensures LoadShow(env, id) == Err(SyntaxError)
  {
  }
}
