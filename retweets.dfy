/** What the doRetweets loop posts: each tweet is expanded, filtered and,
    when accepted, retweeted, in search order. The dice stage consumes two
    mt_rand() draws and uses the second; earlier rejections consume none. */
module RetweetLoop {
  import opened Php
  import opened Tweets
  import opened UrlExpander
  import opened Filters

  /** The tweet filterTweet sees: expandUrls with its defaults (links on,
      photos off). */
  function Prepared(t: Tweet): Tweet
  {
    t.(text := ExpandedText(t, true, false))
  }

  /** The ids posted by a batch and the number of draws taken so far. */
  datatype Batch = Batch(posted: seq<Bytes>, draws: nat)

  /** The loop body for one tweet, with k draws taken before it: the ids
      it posts (none or its own) and the draws taken after it. */
  function TweetEffect(cfg: FilterConfig, t: Tweet, rand: nat -> real, k: nat): (b: Batch)
    ensures b.posted == [] || b.posted == [t.idStr]
    ensures b.posted == [t.idStr] <==> Decide(cfg, Prepared(t), rand(k + 1)) == Accept
    ensures b.draws == k + 2 <==> Screen(cfg, Prepared(t)) == Accept
    ensures b.draws == k || b.draws == k + 2
  {
    var e := Prepared(t);
    if Screen(cfg, e).Reject? then Batch([], k)
    else Batch(if Decide(cfg, e, rand(k + 1)) == Accept then [e.idStr] else [], k + 2)
  }

  /** The loop over tweets, starting with k draws already taken: the k-th
      draw is rand(k). */
  function Retweets(cfg: FilterConfig, ts: seq<Tweet>, rand: nat -> real, k: nat): (b: Batch)
    ensures k <= b.draws <= k + 2 * |ts|
    ensures |b.posted| <= |ts|
    ensures forall x :: x in b.posted ==> x in Ids(ts)
  {
    EffectBounds(cfg, rand, ts, k);
    Fold(Effect(cfg, rand), ts, k)
  }

  /** Each turn posts at most its own tweet's id and takes none or two
      draws, so the loop posts at most one id per tweet, all of them
      fetched ids, and takes at most two draws per tweet. */
  lemma {:induction false} EffectBounds(cfg: FilterConfig, rand: nat -> real, ts: seq<Tweet>, k: nat)
    ensures var b := Fold(Effect(cfg, rand), ts, k);
            k <= b.draws <= k + 2 * |ts| && |b.posted| <= |ts| &&
            forall x :: x in b.posted ==> x in Ids(ts)
    decreases |ts|
  {
    if ts != [] {
      var f := TweetEffect(cfg, ts[0], rand, k);
      assert Effect(cfg, rand)(ts[0], k) == f;
      var rest := Fold(Effect(cfg, rand), ts[1..], f.draws);
      assert Fold(Effect(cfg, rand), ts, k) == Batch(f.posted + rest.posted, rest.draws);
      EffectBounds(cfg, rand, ts[1..], f.draws);
      IdsCons(ts);
      forall x | x in f.posted + rest.posted
        ensures x in Ids(ts)
      {
        if x in f.posted {
          assert x == ts[0].idStr;
        }
      }
    }
  }

  /** The loop body as a function of the tweet and the draws taken before it. */
  function Effect(cfg: FilterConfig, rand: nat -> real): (Tweet, nat) -> Batch
  {
    (t: Tweet, j: nat) => TweetEffect(cfg, t, rand, j)
  }

  /** A loop whose body, run with j draws before it, has effect step(t, j). */
  function Fold(step: (Tweet, nat) -> Batch, ts: seq<Tweet>, k: nat): Batch
    decreases |ts|
  {
    if ts == [] then Batch([], k)
    else
      var first := step(ts[0], k);
      var rest := Fold(step, ts[1..], first.draws);
      Batch(first.posted + rest.posted, rest.draws)
  }

  /** The prepared tweets that pass the text, username and block stages,
      in search order. */
  function Survivors(cfg: FilterConfig, ts: seq<Tweet>): (r: seq<Tweet>)
    ensures |r| <= |ts|
    ensures forall i :: 0 <= i < |r| ==> Screen(cfg, r[i]) == Accept
    decreases |ts|
  {
    if ts == [] then []
    else if Screen(cfg, Prepared(ts[0])) == Accept then [Prepared(ts[0])] + Survivors(cfg, ts[1..])
    else Survivors(cfg, ts[1..])
  }

  function Ids(ts: seq<Tweet>): (r: seq<Bytes>)
    ensures |r| == |ts|
    ensures forall i :: 0 <= i < |ts| ==> r[i] == ts[i].idStr
  {
    seq(|ts|, i requires 0 <= i < |ts| => ts[i].idStr)
  }

  /** The dice stage over the survivors alone: the n-th survivor is decided
      by draw k + 2n + 1. */
  function Lucky(cfg: FilterConfig, ss: seq<Tweet>, rand: nat -> real, k: nat): seq<Bytes>
    decreases |ss|
  {
    if ss == [] then []
    else
      (if DiceRejects(Probability(cfg.dice, CategoryOf(ss[0])), rand(k + 1)) then [] else [ss[0].idStr])
      + Lucky(cfg, ss[1..], rand, k + 2)
  }

  predicate Distinct(s: seq<Bytes>)
  {
    forall a, b :: 0 <= a < b < |s| ==> s[a] != s[b]
  }

  /** Every probability in the table is at least 1.0. */
  predicate AllCertain(dice: map<string, real>)
  {
    forall c: Category :: Probability(dice, c).Some? && Probability(dice, c).value >= 1.0
  }

  /** The loop takes the first tweet, then the rest with the draws it left. */
  lemma RetweetsUnfold(cfg: FilterConfig, ts: seq<Tweet>, rand: nat -> real, k: nat)
    requires ts != []
    ensures var f := TweetEffect(cfg, ts[0], rand, k);
            var rest := Retweets(cfg, ts[1..], rand, f.draws);
            Retweets(cfg, ts, rand, k) == Batch(f.posted + rest.posted, rest.draws)
  {
  }

  /** The dice over survivors handles the first, then the rest two draws on. */
  lemma LuckyCons(cfg: FilterConfig, e: Tweet, ss: seq<Tweet>, rand: nat -> real, k: nat)
    ensures Lucky(cfg, [e] + ss, rand, k) == Lucky(cfg, [e], rand, k) + Lucky(cfg, ss, rand, k + 2)
  {
    assert ([e] + ss)[1..] == ss;
    assert [e][1..] == [];
  }

  /** A first tweet the screen rejects posts nothing, takes no draw and
      is no survivor. */
  lemma FirstRejected(cfg: FilterConfig, ts: seq<Tweet>, rand: nat -> real, k: nat)
    requires ts != [] && Screen(cfg, Prepared(ts[0])).Reject?
    ensures Retweets(cfg, ts, rand, k) == Retweets(cfg, ts[1..], rand, k)
    ensures Survivors(cfg, ts) == Survivors(cfg, ts[1..])
  {
    RetweetsUnfold(cfg, ts, rand, k);
    assert TweetEffect(cfg, ts[0], rand, k) == Batch([], k);
  }

  /** A first tweet the screen accepts is the first survivor, is handled
      by the dice with the next two draws, and the rest follows. */
  lemma FirstAccepted(cfg: FilterConfig, ts: seq<Tweet>, rand: nat -> real, k: nat)
    requires ts != [] && Screen(cfg, Prepared(ts[0])) == Accept
    ensures Retweets(cfg, ts, rand, k) ==
              Batch(Lucky(cfg, [Prepared(ts[0])], rand, k) + Retweets(cfg, ts[1..], rand, k + 2).posted,
                    Retweets(cfg, ts[1..], rand, k + 2).draws)
    ensures Survivors(cfg, ts) == [Prepared(ts[0])] + Survivors(cfg, ts[1..])
  {
    RetweetsUnfold(cfg, ts, rand, k);
    assert [Prepared(ts[0])][1..] == [];
    assert TweetEffect(cfg, ts[0], rand, k) == Batch(Lucky(cfg, [Prepared(ts[0])], rand, k), k + 2);
  }

  /** The loop factors into the deterministic screen followed by the dice
      over the survivors; two draws are taken per survivor and none for a
      tweet an earlier stage rejected. */
  lemma {:induction false} RetweetsFactor(cfg: FilterConfig, ts: seq<Tweet>, rand: nat -> real, k: nat)
    ensures Retweets(cfg, ts, rand, k) ==
              Batch(Lucky(cfg, Survivors(cfg, ts), rand, k), k + 2 * |Survivors(cfg, ts)|)
    decreases |ts|
  {
    if ts == [] {
      assert Survivors(cfg, ts) == [];
    } else if Screen(cfg, Prepared(ts[0])).Reject? {
      FirstRejected(cfg, ts, rand, k);
      RetweetsFactor(cfg, ts[1..], rand, k);
    } else {
      FirstAccepted(cfg, ts, rand, k);
      RetweetsFactor(cfg, ts[1..], rand, k + 2);
      LuckyCons(cfg, Prepared(ts[0]), Survivors(cfg, ts[1..]), rand, k);
    }
  }

  /** One turn of the loop: the ids posted so far plus what the rest of the
      loop posts stays the same after handling tweet i. */
  lemma LoopStep(step: (Tweet, nat) -> Batch, ts: seq<Tweet>, i: int, k: nat, done: seq<Bytes>, goal: seq<Bytes>)
    requires 0 <= i < |ts|
    requires done + Fold(step, ts[i..], k).posted == goal
    ensures var f := step(ts[i], k);
            (done + f.posted) + Fold(step, ts[i + 1..], f.draws).posted == goal &&
            Fold(step, ts[i + 1..], f.draws).draws == Fold(step, ts[i..], k).draws
  {
    assert ts[i..][1..] == ts[i + 1..];
    assert ts[i..][0] == ts[i];
  }

  /** Every id the dice lets through is the id of a survivor. */
  lemma {:induction false} LuckyFromSurvivors(cfg: FilterConfig, ss: seq<Tweet>, rand: nat -> real, k: nat)
    ensures |Lucky(cfg, ss, rand, k)| <= |ss|
    ensures forall x :: x in Lucky(cfg, ss, rand, k) ==> x in Ids(ss)
    decreases |ss|
  {
    if ss != [] {
      LuckyFromSurvivors(cfg, ss[1..], rand, k + 2);
      assert Ids(ss) == [ss[0].idStr] + Ids(ss[1..]);
    }
  }

  /** The dice posts each survivor's id at most once per survivor that
      carries it: as a multiset, the ids posted are within the survivors'. */
  lemma {:induction false} LuckyWithinSurvivors(cfg: FilterConfig, ss: seq<Tweet>, rand: nat -> real, k: nat)
    ensures multiset(Lucky(cfg, ss, rand, k)) <= multiset(Ids(ss))
    decreases |ss|
  {
    if ss != [] {
      var head := LuckyHead(cfg, ss, rand, k);
      var rest := Lucky(cfg, ss[1..], rand, k + 2);
      LuckyWithinSurvivors(cfg, ss[1..], rand, k + 2);
      IdsCons(ss);
      assert multiset(Lucky(cfg, ss, rand, k)) == multiset(head) + multiset(rest);
      assert multiset(Ids(ss)) == multiset([ss[0].idStr]) + multiset(Ids(ss[1..]));
    }
  }

  /** What the dice posts for the first survivor: nothing or its id. */
  function LuckyHead(cfg: FilterConfig, ss: seq<Tweet>, rand: nat -> real, k: nat): (r: seq<Bytes>)
    requires ss != []
    ensures Lucky(cfg, ss, rand, k) == r + Lucky(cfg, ss[1..], rand, k + 2)
    ensures multiset(r) <= multiset([ss[0].idStr])
  {
    if DiceRejects(Probability(cfg.dice, CategoryOf(ss[0])), rand(k + 1)) then [] else [ss[0].idStr]
  }

  lemma IdsCons(ts: seq<Tweet>)
    requires ts != []
    ensures Ids(ts) == [ts[0].idStr] + Ids(ts[1..])
  {
  }

  /** Every tweet whose prepared form passes the screen is a survivor. */
  lemma {:induction false} SurvivorsComplete(cfg: FilterConfig, ts: seq<Tweet>, i: int)
    requires 0 <= i < |ts| && Screen(cfg, Prepared(ts[i])) == Accept
    ensures Prepared(ts[i]) in Survivors(cfg, ts)
    decreases |ts|
  {
    if i > 0 {
      SurvivorsComplete(cfg, ts[1..], i - 1);
      assert ts[1..][i - 1] == ts[i];
    }
  }

  /** With every probability at least 1.0 and draws in [0, 1], the dice
      rejects nothing: every survivor is posted. */
  lemma {:induction false} LuckyAllCertain(cfg: FilterConfig, ss: seq<Tweet>, rand: nat -> real, k: nat)
    requires AllCertain(cfg.dice)
    requires forall n: nat :: 0.0 <= rand(n) <= 1.0
    ensures Lucky(cfg, ss, rand, k) == Ids(ss)
    decreases |ss|
  {
    if ss != [] {
      var c := CategoryOf(ss[0]);
      assert Probability(cfg.dice, c).Some? && Probability(cfg.dice, c).value >= 1.0;
      assert rand(k + 1) <= 1.0;
      LuckyAllCertain(cfg, ss[1..], rand, k + 2);
      assert Ids(ss) == [ss[0].idStr] + Ids(ss[1..]);
    }
  }

  /** Each survivor is the prepared form of an input tweet that passed the
      screen, so it carries that tweet's id. */
  lemma {:induction false} SurvivorOrigin(cfg: FilterConfig, ts: seq<Tweet>, x: Bytes)
    requires x in Ids(Survivors(cfg, ts))
    ensures exists j :: 0 <= j < |ts| && ts[j].idStr == x && Screen(cfg, Prepared(ts[j])) == Accept
    decreases |ts|
  {
    var ss := Survivors(cfg, ts);
    if Screen(cfg, Prepared(ts[0])) == Accept {
      assert ss == [Prepared(ts[0])] + Survivors(cfg, ts[1..]);
      assert Ids(ss) == [ts[0].idStr] + Ids(Survivors(cfg, ts[1..]));
      if x == ts[0].idStr {
        assert 0 < |ts| && ts[0].idStr == x && Screen(cfg, Prepared(ts[0])) == Accept;
      } else {
        SurvivorOrigin(cfg, ts[1..], x);
        var j :| 0 <= j < |ts[1..]| && ts[1..][j].idStr == x && Screen(cfg, Prepared(ts[1..][j])) == Accept;
        assert ts[j + 1] == ts[1..][j];
      }
    } else {
      SurvivorOrigin(cfg, ts[1..], x);
      var j :| 0 <= j < |ts[1..]| && ts[1..][j].idStr == x && Screen(cfg, Prepared(ts[1..][j])) == Accept;
      assert ts[j + 1] == ts[1..][j];
    }
  }

  /** Only tweets that pass the text, username and block stages are posted:
      with unique ids, the id of a tweet the screen rejects (a blocked
      author, say) is never posted. */
  lemma PostedOnlyIfScreened(cfg: FilterConfig, ts: seq<Tweet>, rand: nat -> real, k: nat, i: int)
    requires Distinct(Ids(ts))
    requires 0 <= i < |ts| && Screen(cfg, Prepared(ts[i])).Reject?
    ensures ts[i].idStr !in Retweets(cfg, ts, rand, k).posted
  {
    var ss := Survivors(cfg, ts);
    RetweetsFactor(cfg, ts, rand, k);
    LuckyFromSurvivors(cfg, ss, rand, k);
    forall x | x in Retweets(cfg, ts, rand, k).posted
      ensures x != ts[i].idStr
    {
      SurvivorOrigin(cfg, ts, x);
      var j :| 0 <= j < |ts| && ts[j].idStr == x && Screen(cfg, Prepared(ts[j])) == Accept;
      assert j != i;
      assert Ids(ts)[j] != Ids(ts)[i];
    }
  }

  /** With every probability certain and draws in [0, 1], the run posts
      exactly the survivors' ids, in search order. */
  lemma AllCertainPostsSurvivors(cfg: FilterConfig, ts: seq<Tweet>, rand: nat -> real, k: nat)
    requires AllCertain(cfg.dice)
    requires forall n: nat :: 0.0 <= rand(n) <= 1.0
    ensures Retweets(cfg, ts, rand, k).posted == Ids(Survivors(cfg, ts))
  {
    RetweetsFactor(cfg, ts, rand, k);
    LuckyAllCertain(cfg, Survivors(cfg, ts), rand, k);
  }

  lemma DistinctTail(s: seq<Bytes>)
    requires |s| > 0 && Distinct(s)
    ensures Distinct(s[1..]) && s[0] !in s[1..]
  {
    forall b | 0 <= b < |s[1..]|
      ensures s[1..][b] != s[0]
    {
      assert s[1..][b] == s[b + 1];
    }
  }

  lemma DistinctCons(x: Bytes, s: seq<Bytes>)
    requires Distinct(s) && x !in s
    ensures Distinct([x] + s)
  {
    var r := [x] + s;
    forall a, b | 0 <= a < b < |r|
      ensures r[a] != r[b]
    {
      assert r[b] == s[b - 1];
      if a > 0 {
        assert r[a] == s[a - 1];
      }
    }
  }

  /** The dice keeps distinct survivor ids distinct. */
  lemma {:induction false} LuckyDistinct(cfg: FilterConfig, ss: seq<Tweet>, rand: nat -> real, k: nat)
    requires Distinct(Ids(ss))
    ensures Distinct(Lucky(cfg, ss, rand, k))
    decreases |ss|
  {
    if ss != [] {
      var ids := Ids(ss);
      assert ids[1..] == Ids(ss[1..]);
      DistinctTail(ids);
      LuckyDistinct(cfg, ss[1..], rand, k + 2);
      LuckyFromSurvivors(cfg, ss[1..], rand, k + 2);
      var rest := Lucky(cfg, ss[1..], rand, k + 2);
      if !DiceRejects(Probability(cfg.dice, CategoryOf(ss[0])), rand(k + 1)) {
        assert ss[0].idStr !in rest;
        DistinctCons(ss[0].idStr, rest);
      } else {
        assert Lucky(cfg, ss, rand, k) == rest;
      }
    }
  }

  /** Screening keeps distinct ids distinct. */
  lemma {:induction false} SurvivorsDistinct(cfg: FilterConfig, ts: seq<Tweet>)
    requires Distinct(Ids(ts))
    ensures Distinct(Ids(Survivors(cfg, ts)))
    decreases |ts|
  {
    if ts != [] {
      var ids := Ids(ts);
      assert ids[1..] == Ids(ts[1..]);
      DistinctTail(ids);
      SurvivorsDistinct(cfg, ts[1..]);
      if Screen(cfg, Prepared(ts[0])) == Accept {
        var rest := Survivors(cfg, ts[1..]);
        assert Ids(Survivors(cfg, ts)) == [ts[0].idStr] + Ids(rest);
        if ts[0].idStr in Ids(rest) {
          SurvivorOrigin(cfg, ts[1..], ts[0].idStr);
        }
        DistinctCons(ts[0].idStr, Ids(rest));
      }
    }
  }

  /** With unique tweet ids, no id is posted twice. */
  lemma PostedOnce(cfg: FilterConfig, ts: seq<Tweet>, rand: nat -> real, k: nat)
    requires Distinct(Ids(ts))
    ensures Distinct(Retweets(cfg, ts, rand, k).posted)
  {
    RetweetsFactor(cfg, ts, rand, k);
    SurvivorsDistinct(cfg, ts);
    LuckyDistinct(cfg, Survivors(cfg, ts), rand, k);
  }

  /** One loop turn on such a media tweet posts its id. */
  lemma MediaEffect(cfg: FilterConfig, t: Tweet, rand: nat -> real, k: nat)
    requires |t.media| > 0 && Screen(cfg, Prepared(t)) == Accept
    requires Probability(cfg.dice, Media) == Some(1.0) && 0.0 <= rand(k + 1) <= 1.0
    ensures TweetEffect(cfg, t, rand, k) == Batch([t.idStr], k + 2)
  {
  }

  /** A tweet with a media entity that passes the screen, with media
      probability 1.0 and draws in [0, 1], is retweeted wherever it sits
      in the search results. */
  lemma {:induction false} MediaCertainPosted(cfg: FilterConfig, ts: seq<Tweet>, rand: nat -> real, k: nat, i: int)
    requires 0 <= i < |ts| && |ts[i].media| > 0 && Screen(cfg, Prepared(ts[i])) == Accept
    requires Probability(cfg.dice, Media) == Some(1.0)
    requires forall n: nat :: 0.0 <= rand(n) <= 1.0
    ensures ts[i].idStr in Retweets(cfg, ts, rand, k).posted
    decreases |ts|
  {
    RetweetsUnfold(cfg, ts, rand, k);
    var f := TweetEffect(cfg, ts[0], rand, k);
    if i == 0 {
      MediaEffect(cfg, ts[0], rand, k);
    } else {
      var rest := ts[1..];
      assert rest[i - 1] == ts[i];
      MediaCertainPosted(cfg, rest, rand, f.draws, i - 1);
      assert Retweets(cfg, ts, rand, k).posted == f.posted + Retweets(cfg, rest, rand, f.draws).posted;
    }
  }

  /** A distinct-id sequence holds each of its elements exactly once. */
  lemma {:induction false} DistinctOnce(s: seq<Bytes>, x: Bytes)
    requires Distinct(s) && x in s
    ensures multiset(s)[x] == 1
    decreases |s|
  {
    DistinctTail(s);
    assert s == [s[0]] + s[1..];
    if s[0] != x {
      DistinctOnce(s[1..], x);
    }
  }

  /** With unique ids, such a media tweet triggers exactly one repost. */
  lemma MediaCertainPostedOnce(cfg: FilterConfig, ts: seq<Tweet>, rand: nat -> real, k: nat, i: int)
    requires Distinct(Ids(ts))
    requires 0 <= i < |ts| && |ts[i].media| > 0 && Screen(cfg, Prepared(ts[i])) == Accept
    requires Probability(cfg.dice, Media) == Some(1.0)
    requires forall n: nat :: 0.0 <= rand(n) <= 1.0
    ensures multiset(Retweets(cfg, ts, rand, k).posted)[ts[i].idStr] == 1
  {
    MediaCertainPosted(cfg, ts, rand, k, i);
    PostedOnce(cfg, ts, rand, k);
    DistinctOnce(Retweets(cfg, ts, rand, k).posted, ts[i].idStr);
  }
}
