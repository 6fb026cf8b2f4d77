/** The configuration the constructor assembles from its argument array and
    the decoded settings file. */
module Settings {
  import opened Php
  import opened Filters

  /** The constructor's argument array; None is a missing key. */
  datatype Args = Args(
    username: Option<Bytes>,
    searchString: Option<Bytes>,
    searchMax: Option<int>,
    minRateLimit: Option<int>,
    settingsFile: Option<Bytes>,
    lastSearchFile: Option<Bytes>)

  /** The decoded settings file. A missing key is the empty list or map,
      which empty() treats the same way. */
  datatype SettingsFile = SettingsFile(
    filters: seq<Bytes>,
    userFilters: seq<Bytes>,
    dice: map<string, real>)

  /** empty() on a string argument: missing, "" or "0". */
  predicate EmptyStringArg(v: Option<Bytes>)
  {
    v.None? || IsEmptyString(v.value)
  }

  /** empty() on an integer argument: missing or 0. */
  predicate EmptyIntArg(v: Option<int>)
  {
    v.None? || v.value == 0
  }

  /** (!empty(v) ? v : d) for a string argument. */
  function StringOr(v: Option<Bytes>, d: Bytes): (r: Bytes)
    ensures EmptyStringArg(v) ==> r == d
    ensures !EmptyStringArg(v) ==> r == v.value
  {
    if EmptyStringArg(v) then d else v.value
  }

  /** (!empty(v) ? v : d) for an integer argument. */
  function IntOr(v: Option<int>, d: int): (r: int)
    ensures EmptyIntArg(v) ==> r == d
    ensures !EmptyIntArg(v) ==> r == v.value
    ensures d != 0 ==> r != 0
  {
    if EmptyIntArg(v) then d else v.value
  }

  /** The defaults for the result count and the rate-limit floor. */
  const DEFAULT_SEARCH_MAX := 5
  const DEFAULT_MIN_RATE_LIMIT := 5

  /** 'settings.json' */
  function DefaultSettingsFile(): Bytes
  {
    [115, 101, 116, 116, 105, 110, 103, 115, 46, 106, 115, 111, 110]
  }

  /** 'lastsearch.json' */
  function DefaultLastSearchFile(): Bytes
  {
    [108, 97, 115, 116, 115, 101, 97, 114, 99, 104, 46, 106, 115, 111, 110]
  }

  /** The five hard-coded text filters, byte for byte as the UTF-8 source
      file holds them: a straight quote then "@"; the single byte 147 (from
      chr(147)) then "@"; the control character U+0093 then "@"; "â",
      U+0080 and U+009C (a mis-decoded curly quote) then "@"; the curly
      quote U+201C then "@". None of them is the bare "@": each ends in
      "@" after at least one other byte. */
  function HardcodedFilters(): (r: seq<Bytes>)
    ensures |r| == 5
    ensures forall i :: 0 <= i < |r| ==> |r[i]| >= 2 && r[i][|r[i]| - 1] == 64
  {
    [[34, 64], [147, 64], [194, 147, 64], [195, 162, 194, 128, 194, 156, 64], [226, 128, 156, 64]]
  }

  /** The default probability table. */
  function DefaultDice(): (r: map<string, real>)
    ensures forall c: Category :: Probability(r, c).Some? && 0.0 <= Probability(r, c).value <= 1.0
    ensures Probability(r, Media) == Some(1.0)
  {
    map["media" := 1.0, "urls" := 0.8, "mentions" := 0.5, "base" := 0.7]
  }

  /** aSearchFilters: the hard-coded filters, then the settings filters
      appended when there are any. */
  function MergedFilters(s: SettingsFile): (r: seq<Bytes>)
    ensures r == HardcodedFilters() + s.filters
  {
    if |s.filters| > 0 then HardcodedFilters() + s.filters else HardcodedFilters()
  }

  /** aDiceValues: the settings table replaces the defaults wholesale
      whenever it is non-empty, even when it lacks some keys. */
  function DiceValues(s: SettingsFile): (r: map<string, real>)
    ensures |s.dice| == 0 ==> r == DefaultDice()
    ensures |s.dice| > 0 ==> r == s.dice
  {
    if |s.dice| > 0 then s.dice else DefaultDice()
  }

  /** The hard-coded filters and every settings filter are among the
      merged text filters. */
  lemma MergedKeepsAll(s: SettingsFile)
    ensures forall i :: 0 <= i < 5 ==> HardcodedFilters()[i] in MergedFilters(s)
    ensures forall i :: 0 <= i < |s.filters| ==> s.filters[i] in MergedFilters(s)
  {
    MergedLayout(s);
    forall i | 0 <= i < 5
      ensures HardcodedFilters()[i] in MergedFilters(s)
    {
      assert MergedFilters(s)[i] == HardcodedFilters()[i];
    }
    forall i | 0 <= i < |s.filters|
      ensures s.filters[i] in MergedFilters(s)
    {
      assert MergedFilters(s)[5 + i] == s.filters[i];
    }
  }

  /** Each hard-coded filter ends in "@". */
  lemma HardcodedEndsInAt(i: int)
    requires 0 <= i < 5
    ensures OccursAt(HardcodedFilters()[i], MentionMarker(), |HardcodedFilters()[i]| - 1)
  {
    EndsInAt(HardcodedFilters()[i]);
  }

  /** A string whose last byte is "@" has "@" at its last offset. */
  lemma EndsInAt(f: Bytes)
    requires |f| > 0 && f[|f| - 1] == 64
    ensures OccursAt(f, MentionMarker(), |f| - 1)
  {
    assert f[|f| - 1..] == [f[|f| - 1]];
  }

  /** A hay containing a hard-coded filter contains "@". */
  lemma HardcodedImpliesAt(hay: Bytes, i: int)
    requires 0 <= i < 5 && Contains(hay, HardcodedFilters()[i])
    ensures Contains(hay, MentionMarker())
  {
    HardcodedEndsInAt(i);
    ContainsWithin(hay, HardcodedFilters()[i], MentionMarker());
  }

  /** Where the hard-coded and the settings filters sit in the merged list. */
  lemma MergedLayout(s: SettingsFile)
    ensures |MergedFilters(s)| == 5 + |s.filters|
    ensures forall i :: 0 <= i < 5 ==> MergedFilters(s)[i] == HardcodedFilters()[i]
    ensures forall i :: 0 <= i < |s.filters| ==> MergedFilters(s)[5 + i] == s.filters[i]
  {
  }

  /** A rejection by the merged list is a rejection by a hard-coded filter
      or by a settings filter. */
  lemma MergedRejectionSource(s: SettingsFile, t: Tweets.Tweet)
    requires TextRejected(MergedFilters(s), t)
    ensures TextRejected(HardcodedFilters(), t) || TextRejected(s.filters, t)
  {
    var low := ToLower(t.text);
    var fs := MergedFilters(s);
    MergedLayout(s);
    var i :| 0 <= i < |fs| && Contains(low, fs[i]);
    if i < 5 {
      assert Contains(low, HardcodedFilters()[i]);
    } else {
      assert Contains(low, s.filters[i - 5]);
    }
  }

  /** The merged list rejects what a hard-coded or a settings filter rejects. */
  lemma MergedRejectionCovers(s: SettingsFile, t: Tweets.Tweet)
    requires TextRejected(HardcodedFilters(), t) || TextRejected(s.filters, t)
    ensures TextRejected(MergedFilters(s), t)
  {
    var low := ToLower(t.text);
    var fs := MergedFilters(s);
    MergedLayout(s);
    var k: int;
    if TextRejected(HardcodedFilters(), t) {
      var i :| 0 <= i < 5 && Contains(low, HardcodedFilters()[i]);
      k := i;
    } else {
      var i :| 0 <= i < |s.filters| && Contains(low, s.filters[i]);
      k := 5 + i;
    }
    assert 0 <= k < |fs| && Contains(low, fs[k]);
  }

  /** The text stage rejects exactly what the hard-coded filters or the
      settings filters reject. */
  lemma TextStageReduces(s: SettingsFile, t: Tweets.Tweet)
    ensures TextRejected(MergedFilters(s), t) <==>
              TextRejected(HardcodedFilters(), t) || TextRejected(s.filters, t)
  {
    if TextRejected(MergedFilters(s), t) {
      MergedRejectionSource(s, t);
    }
    if TextRejected(HardcodedFilters(), t) || TextRejected(s.filters, t) {
      MergedRejectionCovers(s, t);
    }
  }

  /** Every hard-coded filter ends in "@", so a text the hard-coded filters
      reject contains "@": a text without "@" is rejected at the text stage
      only by a settings filter. */
  lemma TextStageNeedsAt(s: SettingsFile, t: Tweets.Tweet)
    ensures TextRejected(HardcodedFilters(), t) ==> Contains(t.text, MentionMarker())
    ensures TextRejected(MergedFilters(s), t) ==>
              Contains(t.text, MentionMarker()) || TextRejected(s.filters, t)
  {
    LowerKeepsNonLetter(t.text, 64);
    if TextRejected(HardcodedFilters(), t) {
      var i :| 0 <= i < 5 && Contains(ToLower(t.text), HardcodedFilters()[i]);
      HardcodedImpliesAt(ToLower(t.text), i);
    }
    TextStageReduces(s, t);
  }

  /** The converse fails: the text "@" passes every hard-coded filter, since
      each is longer than it. */
  lemma BareAtPassesHardcoded(t: Tweets.Tweet)
    requires t.text == MentionMarker()
    ensures Contains(t.text, MentionMarker())
    ensures !TextRejected(HardcodedFilters(), t)
  {
    assert OccursAt(t.text, MentionMarker(), 0);
    var low := ToLower(t.text);
    assert |low| == 1;
    forall i | 0 <= i < 5
      ensures !Contains(low, HardcodedFilters()[i])
    {
      TooLongAbsent(low, HardcodedFilters()[i]);
    }
  }

  /** With no settings filters, a tweet whose whole text is "@", without
      entities, passes the text stage and is rolled with the mentions
      probability once the username and block stages let it through. */
  lemma BareAtRolledAsMention(s: SettingsFile, cfg: FilterConfig, t: Tweets.Tweet, draw: real)
    requires s.filters == [] && cfg.searchFilters == MergedFilters(s)
    requires t.text == MentionMarker() && t.media == [] && t.urls == []
    requires !UsernameRejected(cfg.usernameFilters, t) && !AuthorBlocked(cfg.blocked, t)
    ensures Screen(cfg, t) == Accept && CategoryOf(t) == Mentions
    ensures Decide(cfg, t, draw) == Accept <==> !DiceRejects(Probability(cfg.dice, Mentions), draw)
  {
    BareAtPassesHardcoded(t);
    TextStageReduces(s, t);
    MentionsMeansBareAt(t);
  }

  /** An empty string among the settings filters occurs in every text, so
      it makes the text stage reject every tweet. */
  lemma EmptyFilterRejectsAll(s: SettingsFile, t: Tweets.Tweet)
    requires [] in s.filters
    ensures TextRejected(MergedFilters(s), t)
  {
    var i :| 0 <= i < |s.filters| && s.filters[i] == [];
    assert OccursAt(ToLower(t.text), [], 0);
    TextStageReduces(s, t);
  }
}
