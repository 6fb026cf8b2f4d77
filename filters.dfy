/** The decision filterTweet makes for one (already expanded) tweet: the
    text filter, the username filter, the block list and the dice, in that
    order, the first rejection deciding. */
module Filters {
  import opened Php
  import opened Tweets

  /** The four keys of the probability table. */
  datatype Category = Media | Urls | Mentions | Base

  function DiceKey(c: Category): string
  {
    match c
    case Media => "media"
    case Urls => "urls"
    case Mentions => "mentions"
    case Base => "base"
  }

  /** What filterTweet reads from the bot: the text filters, the username
      filters, the blocked ids and the probability table. */
  datatype FilterConfig = FilterConfig(
    searchFilters: seq<Bytes>,
    usernameFilters: seq<Bytes>,
    blocked: seq<int>,
    dice: map<string, real>)

  /** Some filter occurs in hay. */
  predicate AnyOccurs(filters: seq<Bytes>, hay: Bytes)
  {
    exists i :: 0 <= i < |filters| && Contains(hay, filters[i])
  }

  /** applyFilters fails: a filter occurs in the lowered text (the filters
      themselves are not lowered). */
  predicate TextRejected(filters: seq<Bytes>, t: Tweet)
  {
    AnyOccurs(filters, ToLower(t.text))
  }

  /** applyUsernameFilters fails: a filter occurs in the lowered screen name. */
  predicate UsernameRejected(filters: seq<Bytes>, t: Tweet)
  {
    AnyOccurs(filters, ToLower(t.user.screenName))
  }

  /** The author's id equals a blocked id (isBlocked then returns FALSE). */
  predicate AuthorBlocked(blocked: seq<int>, t: Tweet)
  {
    t.user.id in blocked
  }

  /** "instagram.com/p/" */
  function InstagramMarker(): Bytes
  {
    [105, 110, 115, 116, 97, 103, 114, 97, 109, 46, 99, 111, 109, 47, 112, 47]
  }

  /** "@" */
  function MentionMarker(): Bytes
  {
    [64]
  }

  /** strpos('instagram.com/p/', text) !== FALSE, with the literal as the
      haystack: the text occurs inside the literal. */
  predicate InstagramTest(text: Bytes)
  {
    StrPos(InstagramMarker(), text).Some?
  }

  /** strpos('@', text) === 0, with "@" as the haystack. */
  predicate MentionTest(text: Bytes)
  {
    StrPos(MentionMarker(), text) == Some(0)
  }

  /** The category rollDie picks, by precedence media, urls, mentions, base. */
  function CategoryOf(t: Tweet): (c: Category)
    ensures c == Media <==> |t.media| > 0 || InstagramTest(t.text)
    ensures c == Urls <==> !(|t.media| > 0 || InstagramTest(t.text)) && |t.urls| > 0
    ensures c == Mentions <==>
              !(|t.media| > 0 || InstagramTest(t.text)) && |t.urls| == 0 && MentionTest(t.text)
    ensures c == Base <==>
              !(|t.media| > 0 || InstagramTest(t.text)) && |t.urls| == 0 && !MentionTest(t.text)
  {
    if |t.media| > 0 || InstagramTest(t.text) then Media
    else if |t.urls| > 0 then Urls
    else if MentionTest(t.text) then Mentions
    else Base
  }

  /** The probability for a category; None when the table (replaced
      wholesale by the settings) has no such key, which PHP reads as null. */
  function Probability(dice: map<string, real>, c: Category): (r: Option<real>)
    ensures r.Some? <==> DiceKey(c) in dice
    ensures r.Some? ==> r.value == dice[DiceKey(c)]
  {
    if DiceKey(c) in dice then Some(dice[DiceKey(c)]) else None
  }

  /** The dice rejects when draw > probability. Against null PHP compares
      both sides as booleans, so draw > null holds exactly when draw != 0. */
  predicate DiceRejects(p: Option<real>, draw: real)
    ensures p.None? && draw >= 0.0 ==> (DiceRejects(p, draw) <==> draw > 0.0)
  {
    match p
    case Some(v) => draw > v
    case None => draw != 0.0
  }

  datatype Stage = TextStage | UsernameStage | BlockStage | DiceStage

  datatype Verdict = Accept | Reject(stage: Stage)

  /** The three stages that need no random draw, in filterTweet's order. */
  function Screen(cfg: FilterConfig, t: Tweet): (v: Verdict)
    ensures v == Accept <==>
              !TextRejected(cfg.searchFilters, t) && !UsernameRejected(cfg.usernameFilters, t) &&
              !AuthorBlocked(cfg.blocked, t)
    ensures v != Reject(DiceStage)
  {
    if TextRejected(cfg.searchFilters, t) then Reject(TextStage)
    else if UsernameRejected(cfg.usernameFilters, t) then Reject(UsernameStage)
    else if AuthorBlocked(cfg.blocked, t) then Reject(BlockStage)
    else Accept
  }

  /** filterTweet, the dice stage using draw. */
  function Decide(cfg: FilterConfig, t: Tweet, draw: real): (v: Verdict)
    ensures v == Accept <==>
              !TextRejected(cfg.searchFilters, t) && !UsernameRejected(cfg.usernameFilters, t) &&
              !AuthorBlocked(cfg.blocked, t) &&
              !DiceRejects(Probability(cfg.dice, CategoryOf(t)), draw)
    ensures v == Reject(TextStage) <==> TextRejected(cfg.searchFilters, t)
    ensures v == Reject(UsernameStage) <==>
              !TextRejected(cfg.searchFilters, t) && UsernameRejected(cfg.usernameFilters, t)
    ensures v == Reject(BlockStage) <==>
              !TextRejected(cfg.searchFilters, t) && !UsernameRejected(cfg.usernameFilters, t) &&
              AuthorBlocked(cfg.blocked, t)
    ensures v == Reject(DiceStage) <==>
              Screen(cfg, t) == Accept && DiceRejects(Probability(cfg.dice, CategoryOf(t)), draw)
  {
    var s := Screen(cfg, t);
    if s.Reject? then s
    else if DiceRejects(Probability(cfg.dice, CategoryOf(t)), draw) then Reject(DiceStage)
    else Accept
  }

  /** A rejection before the dice does not depend on the draw. */
  lemma ScreenDecidesAlone(cfg: FilterConfig, t: Tweet, d1: real, d2: real)
    requires Screen(cfg, t).Reject?
    ensures Decide(cfg, t, d1) == Decide(cfg, t, d2) == Screen(cfg, t)
  {
  }

  /** A tweet whose author is blocked is rejected at the block stage when
      the text and username stages let it through, and in any case rejected. */
  lemma BlockedAlwaysRejected(cfg: FilterConfig, t: Tweet, draw: real)
    requires AuthorBlocked(cfg.blocked, t)
    ensures Decide(cfg, t, draw).Reject? && Decide(cfg, t, draw) != Reject(DiceStage)
    ensures !TextRejected(cfg.searchFilters, t) && !UsernameRejected(cfg.usernameFilters, t) ==>
              Decide(cfg, t, draw) == Reject(BlockStage)
  {
  }

  /** A tweet with a media entity is in the media category whatever else it
      has, url entities included. */
  lemma MediaBeatsUrls(t: Tweet)
    requires |t.media| > 0
    ensures CategoryOf(t) == Media
  {
  }

  /** Because of the argument order, every text that occurs inside
      "instagram.com/p/" puts the tweet in the media category. */
  lemma InstagramTextIsMedia(t: Tweet, j: int)
    requires OccursAt(InstagramMarker(), t.text, j)
    ensures CategoryOf(t) == Media
  {
  }

  /** Under PHP 8 the empty text occurs at offset 0 of the literal, and so
      does "a" at its offset 4: both are in the media category. */
  lemma EmptyTextIsMedia(t: Tweet)
    requires t.text == [] || t.text == [97]
    ensures CategoryOf(t) == Media
  {
    if t.text == [] {
      assert OccursAt(InstagramMarker(), [], 0);
    } else {
      assert InstagramMarker()[4..5] == [97];
      InstagramTextIsMedia(t, 4);
    }
  }

  /** strpos('@', text) === 0 holds exactly for the empty text and for "@". */
  lemma MentionTestMeaning(text: Bytes)
    ensures MentionTest(text) <==> text == [] || text == MentionMarker()
  {
    assert MentionTest(text) <==> OccursAt(MentionMarker(), text, 0);
    if |text| == 0 {
      assert MentionMarker()[0..0] == [];
    } else if |text| == 1 {
      assert MentionMarker()[0..1] == MentionMarker();
    }
  }

  /** "@" does not occur inside "instagram.com/p/". */
  lemma AtNotInstagram()
    ensures !InstagramTest(MentionMarker())
  {
    var m := InstagramMarker();
    assert 64 !in m;
    forall j
      ensures !OccursAt(m, MentionMarker(), j)
    {
      if 0 <= j && j + 1 <= |m| {
        assert m[j..j + 1] == [m[j]];
        assert m[j] in m;
      }
    }
  }

  /** The mentions category is reached only by a tweet without entities
      whose whole text is "@". */
  lemma MentionsMeansBareAt(t: Tweet)
    ensures CategoryOf(t) == Mentions <==> t.media == [] && t.urls == [] && t.text == MentionMarker()
  {
    MentionTestMeaning(t.text);
    AtNotInstagram();
    if t.text == [] {
      EmptyTextIsMedia(t);
    }
  }

  /** With "@" among the text filters, a tweet in the mentions category is
      always rejected at the text stage: that probability is never used. */
  lemma MentionsNeverRolled(cfg: FilterConfig, t: Tweet)
    requires MentionMarker() in cfg.searchFilters
    ensures CategoryOf(t) == Mentions ==> TextRejected(cfg.searchFilters, t)
  {
    if CategoryOf(t) == Mentions {
      MentionsMeansBareAt(t);
      assert ToLower(t.text) == MentionMarker();
      assert OccursAt(ToLower(t.text), MentionMarker(), 0);
      var i :| 0 <= i < |cfg.searchFilters| && cfg.searchFilters[i] == MentionMarker();
      assert Contains(ToLower(t.text), cfg.searchFilters[i]);
    }
  }

  /** Probability 1.0 (or more) never rejects a draw in [0, 1]. */
  lemma CertainNeverRejects(v: real, draw: real)
    requires v >= 1.0 && 0.0 <= draw <= 1.0
    ensures !DiceRejects(Some(v), draw)
  {
  }

  /** Probability 0.0 rejects every draw in [0, 1] except 0 itself; a
      missing key behaves the same way. */
  lemma ZeroRejectsAllButZero(draw: real)
    requires 0.0 <= draw <= 1.0
    ensures DiceRejects(Some(0.0), draw) <==> draw != 0.0
    ensures DiceRejects(None, draw) <==> DiceRejects(Some(0.0), draw)
  {
  }
}
