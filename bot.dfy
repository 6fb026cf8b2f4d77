/** The TwitterBot class: the constructor assembles the configuration, and
    run() goes identity, rate limits, block list, search, retweets, halting
    at the first stage that fails. */
module Bot {
  import opened Php
  import opened Tweets
  import opened UrlExpander
  import opened Filters
  import opened Settings
  import opened Steps
  import opened RetweetLoop

  /** What the bot reaches outside its own object: the last-search file on
      disk, the retweets posted through the API, and the mt_rand() stream,
      whose k-th value divided by mt_getrandmax() is rand(k). */
  class Host {
    var lastSearch: Option<SearchRecord>
    var retweeted: seq<Bytes>
    var randCalls: nat
    const rand: nat -> real

    constructor (stored: Option<SearchRecord>, rand: nat -> real)
      ensures lastSearch == stored && retweeted == [] && randCalls == 0 && this.rand == rand
    {
      lastSearch := stored;
      retweeted := [];
      randCalls := 0;
      this.rand := rand;
    }

    /** mt_rand() / mt_getrandmax() */
    method Draw() returns (v: real)
      modifies this`randCalls
      ensures v == rand(old(randCalls)) && randCalls == old(randCalls) + 1
    {
      v := rand(randCalls);
      randCalls := randCalls + 1;
    }

    /** post('statuses/retweet/' . id) */
    method Post(id: Bytes)
      modifies this`retweeted
      ensures retweeted == old(retweeted) + [id]
    {
      retweeted := retweeted + [id];
    }

    /** file_put_contents of the last-search file. */
    method Store(r: SearchRecord)
      modifies this`lastSearch
      ensures lastSearch == Some(r)
    {
      lastSearch := Some(r);
    }
  }

  /** The configuration part of the bot, as one value. */
  datatype BotConfig = BotConfig(
    username: Bytes,
    searchString: Bytes,
    searchMax: int,
    minRateLimit: int,
    searchFilters: seq<Bytes>,
    usernameFilters: seq<Bytes>,
    dice: map<string, real>)

  /** What one run leaves behind: the halt reason, the search call made (if
      any), the bot's block list and tweets, the last-search file, the ids
      posted and the number of draws taken. */
  datatype RunResult = RunResult(
    reason: HaltReason,
    request: Option<SearchRequest>,
    blocked: seq<int>,
    tweets: seq<Tweet>,
    lastSearch: Option<SearchRecord>,
    posted: seq<Bytes>,
    randCalls: nat)

  /** run() as a function of the configuration, the state before the run
      and the remote responses. doRetweets's own empty check never fires
      here: the search only continues with at least one status. */
  function RunSpec(c: BotConfig, blocked0: seq<int>, tweets0: seq<Tweet>, last0: Option<SearchRecord>,
                   k0: nat, rand: nat -> real, remote: Remote, now: Bytes): (r: RunResult)
    ensures r.request.None? ==>
              r.lastSearch == last0 && r.tweets == tweets0 && r.posted == [] && r.randCalls == k0
    ensures r.request.Some? ==> r.request == Some(SearchRequestFor(c.searchString, c.searchMax, last0))
    ensures r.reason == Done ==> r.request.Some? && r.tweets != []
    ensures r.posted != [] ==> r.reason == Done
    ensures k0 <= r.randCalls <= k0 + 2 * |r.tweets|
  {
    var untouched := RunResult(Done, None, blocked0, tweets0, last0, [], k0);
    var identity := CheckIdentity(c.username, remote.identity);
    var gate := RateGate(c.minRateLimit, remote.rateStatus);
    if identity.Halt? then untouched.(reason := identity.reason)
    else if gate.Halt? then untouched.(reason := gate.reason)
    else if !BlockListUsable(remote.blockIds) then untouched.(reason := NoBlockedUsers)
    else
      var blocked := remote.blockIds.value;
      if IsEmptyString(c.searchString) then untouched.(reason := NoSearchString, blocked := blocked)
      else
        var req := SearchRequestFor(c.searchString, c.searchMax, last0);
        var resp := remote.search(req);
        var last := CursorAfter(last0, resp, now);
        var verdict := SearchVerdict(resp);
        if verdict.Halt? then RunResult(verdict.reason, Some(req), blocked, tweets0, last, [], k0)
        else
          var cfg := FilterConfig(c.searchFilters, c.usernameFilters, blocked, c.dice);
          var b := Retweets(cfg, resp.statuses, rand, k0);
          RunResult(Done, Some(req), blocked, resp.statuses, last, b.posted, b.draws)
  }

  /** A run that passes the identity check but not the rate gate halts
      with the gate's reason, issues no search and changes nothing. */
  lemma QuotaHaltBeforeSearch(c: BotConfig, blocked0: seq<int>, tweets0: seq<Tweet>, last0: Option<SearchRecord>,
                              k0: nat, rand: nat -> real, remote: Remote, now: Bytes)
    requires CheckIdentity(c.username, remote.identity).Continue?
    requires RateGate(c.minRateLimit, remote.rateStatus).Halt?
    ensures var r := RunSpec(c, blocked0, tweets0, last0, k0, rand, remote, now);
            r.reason == RateGate(c.minRateLimit, remote.rateStatus).reason && r.request == None &&
            r.lastSearch == last0 && r.posted == [] && r.randCalls == k0 && r.blocked == blocked0 &&
            r.tweets == tweets0
  {
  }

  /** Two searches remaining against a floor of five: the run halts at the
      rate gate, on the search endpoint, before any search call. */
  lemma LowQuotaScenario(c: BotConfig, blocked0: seq<int>, tweets0: seq<Tweet>, last0: Option<SearchRecord>,
                         k0: nat, rand: nat -> real, remote: Remote, now: Bytes, limit: int, reset: int)
    requires CheckIdentity(c.username, remote.identity).Continue?
    requires c.minRateLimit == 5 && remote.rateStatus.search == Some(Quota(2, limit, reset))
    ensures var r := RunSpec(c, blocked0, tweets0, last0, k0, rand, remote, now);
            r.reason == QuotaLow(SearchTweets, Some(Quota(2, limit, reset))) && r.request == None && r.posted == []
  {
  }

  /** An empty block list halts the run before the search. */
  lemma EmptyBlockListHalts(c: BotConfig, blocked0: seq<int>, tweets0: seq<Tweet>, last0: Option<SearchRecord>,
                            k0: nat, rand: nat -> real, remote: Remote, now: Bytes)
    requires CheckIdentity(c.username, remote.identity).Continue?
    requires RateGate(c.minRateLimit, remote.rateStatus).Continue?
    requires remote.blockIds == Some([])
    ensures var r := RunSpec(c, blocked0, tweets0, last0, k0, rand, remote, now);
            r.reason == NoBlockedUsers && r.request == None && r.lastSearch == last0 && r.posted == []
  {
  }

  /** Once the search call returns metadata the cursor holds its max id,
      whether the result is empty (the run then halts with nothing posted)
      or not; a call without metadata halts and leaves the cursor alone. */
  lemma CursorAfterSearch(c: BotConfig, blocked0: seq<int>, tweets0: seq<Tweet>, last0: Option<SearchRecord>,
                          k0: nat, rand: nat -> real, remote: Remote, now: Bytes)
    requires CheckIdentity(c.username, remote.identity).Continue?
    requires RateGate(c.minRateLimit, remote.rateStatus).Continue?
    requires BlockListUsable(remote.blockIds) && !IsEmptyString(c.searchString)
    ensures var req := SearchRequestFor(c.searchString, c.searchMax, last0);
            var resp := remote.search(req);
            var r := RunSpec(c, blocked0, tweets0, last0, k0, rand, remote, now);
            r.request == Some(req) &&
            (resp.NoMetadata? ==> r.reason == SearchFailed && r.lastSearch == last0) &&
            (resp.Results? ==> r.lastSearch == Some(SearchRecord(resp.maxIdStr, now))) &&
            (resp.Results? && resp.statuses == [] ==> r.reason == NoResults && r.posted == [])
  {
  }

  /** Whatever the dice says, a run that reaches the retweets posts only
      ids of fetched tweets that pass the text, username and block stages,
      at most one per such tweet, and takes two draws per such tweet. */
  lemma RunPostsOnlySurvivors(c: BotConfig, blocked0: seq<int>, tweets0: seq<Tweet>, last0: Option<SearchRecord>,
                              k0: nat, rand: nat -> real, remote: Remote, now: Bytes)
    requires CheckIdentity(c.username, remote.identity).Continue?
    requires RateGate(c.minRateLimit, remote.rateStatus).Continue?
    requires BlockListUsable(remote.blockIds) && !IsEmptyString(c.searchString)
    requires SearchVerdict(remote.search(SearchRequestFor(c.searchString, c.searchMax, last0))).Continue?
    ensures var resp := remote.search(SearchRequestFor(c.searchString, c.searchMax, last0));
            var r := RunSpec(c, blocked0, tweets0, last0, k0, rand, remote, now);
            var ss := Survivors(FilterConfig(c.searchFilters, c.usernameFilters, remote.blockIds.value, c.dice), resp.statuses);
            r.reason == Done && r.tweets == resp.statuses && r.blocked == remote.blockIds.value &&
            |r.posted| <= |ss| && (forall x :: x in r.posted ==> x in Ids(ss)) &&
            multiset(r.posted) <= multiset(Ids(ss)) &&
            r.randCalls == k0 + 2 * |ss|
  {
    var resp := remote.search(SearchRequestFor(c.searchString, c.searchMax, last0));
    var cfg := FilterConfig(c.searchFilters, c.usernameFilters, remote.blockIds.value, c.dice);
    var b := Retweets(cfg, resp.statuses, rand, k0);
    assert RunSpec(c, blocked0, tweets0, last0, k0, rand, remote, now).posted == b.posted;
    RetweetsFactor(cfg, resp.statuses, rand, k0);
    LuckyFromSurvivors(cfg, Survivors(cfg, resp.statuses), rand, k0);
    LuckyWithinSurvivors(cfg, Survivors(cfg, resp.statuses), rand, k0);
  }

  class TwitterBot {
    var blockedUsers: seq<int>
    var searchFilters: seq<Bytes>
    var usernameFilters: seq<Bytes>
    var diceValues: map<string, real>
    var username: Bytes
    var searchString: Bytes
    var searchMax: int
    var minRateLimit: int
    var settingsFile: Bytes
    var lastSearchFile: Bytes
    var tweets: seq<Tweet>

    /** __construct: defaults for empty arguments, the hard-coded text
        filters followed by the settings filters, and the settings' username
        filters and probability table when present. */
    constructor (args: Args, settings: SettingsFile)
      ensures username == StringOr(args.username, [])
      ensures searchString == StringOr(args.searchString, [])
      ensures searchMax == IntOr(args.searchMax, DEFAULT_SEARCH_MAX)
      ensures minRateLimit == IntOr(args.minRateLimit, DEFAULT_MIN_RATE_LIMIT)
      ensures settingsFile == StringOr(args.settingsFile, DefaultSettingsFile())
      ensures lastSearchFile == StringOr(args.lastSearchFile, DefaultLastSearchFile())
      ensures searchFilters == MergedFilters(settings)
      ensures usernameFilters == settings.userFilters
      ensures diceValues == DiceValues(settings)
      ensures blockedUsers == [] && tweets == []
      ensures minRateLimit != 0
    {
      searchFilters := HardcodedFilters();
      diceValues := DefaultDice();
      username := StringOr(args.username, []);
      searchString := StringOr(args.searchString, []);
      searchMax := IntOr(args.searchMax, DEFAULT_SEARCH_MAX);
      minRateLimit := IntOr(args.minRateLimit, DEFAULT_MIN_RATE_LIMIT);
      settingsFile := StringOr(args.settingsFile, DefaultSettingsFile());
      lastSearchFile := StringOr(args.lastSearchFile, DefaultLastSearchFile());
      usernameFilters := [];
      blockedUsers := [];
      tweets := [];
      new;
      if |settings.filters| > 0 {
        searchFilters := searchFilters + settings.filters;
      }
      if |settings.userFilters| > 0 {
        usernameFilters := settings.userFilters;
      }
      if |settings.dice| > 0 {
        diceValues := settings.dice;
      }
    }

    function Config(): BotConfig
      reads this
    {
      BotConfig(username, searchString, searchMax, minRateLimit, searchFilters, usernameFilters, diceValues)
    }

    function FilterSettings(): FilterConfig
      reads this
    {
      FilterConfig(searchFilters, usernameFilters, blockedUsers, diceValues)
    }

    /** getBlockedUsers: the id list replaces the block list, or the run
        halts when it is missing or empty. */
    method GetBlockedUsers(ids: Option<seq<int>>) returns (s: Step)
      modifies this`blockedUsers
      ensures s.Continue? <==> BlockListUsable(ids)
      ensures s.Continue? ==> blockedUsers == ids.value
      ensures s.Halt? ==> s.reason == NoBlockedUsers && blockedUsers == old(blockedUsers)
    {
      if ids.None? || |ids.value| == 0 {
        return Halt(NoBlockedUsers);
      }
      blockedUsers := ids.value;
      return Continue;
    }

    /** doSearch: since_id from the stored cursor, one search call, the
        cursor rewritten as soon as metadata is back, then the halt on an
        empty result. */
    method DoSearch(host: Host, search: SearchRequest -> SearchResponse, now: Bytes)
      returns (s: Step, request: Option<SearchRequest>)
      modifies host`lastSearch, this`tweets
      ensures IsEmptyString(searchString) ==>
                s == Halt(NoSearchString) && request == None &&
                host.lastSearch == old(host.lastSearch) && tweets == old(tweets)
      ensures !IsEmptyString(searchString) ==>
                request == Some(SearchRequestFor(searchString, searchMax, old(host.lastSearch))) &&
                s == SearchVerdict(search(request.value)) &&
                host.lastSearch == CursorAfter(old(host.lastSearch), search(request.value), now) &&
                tweets == (if s.Continue? then search(request.value).statuses else old(tweets))
    {
      if IsEmptyString(searchString) {
        return Halt(NoSearchString), None;
      }
      var since := SinceId(host.lastSearch);
      var req := SearchRequest(searchString, "mixed", searchMax, since);
      request := Some(req);
      var resp := search(req);
      if resp.NoMetadata? {
        return Halt(SearchFailed), request;
      }
      host.Store(SearchRecord(resp.maxIdStr, now));
      if |resp.statuses| == 0 {
        return Halt(NoResults), request;
      }
      tweets := resp.statuses;
      s := Continue;
    }

    /** applyFilters: true when no text filter occurs in the lowered text. */
    method ApplyFilters(t: Tweet) returns (pass: bool)
      ensures pass <==> !TextRejected(searchFilters, t)
    {
      var i := 0;
      while i < |searchFilters|
        invariant 0 <= i <= |searchFilters|
        invariant forall j :: 0 <= j < i ==> !Contains(ToLower(t.text), searchFilters[j])
      {
        if Contains(ToLower(t.text), searchFilters[i]) {
          return false;
        }
        i := i + 1;
      }
      return true;
    }

    /** applyUsernameFilters: true when no username filter occurs in the
        lowered screen name. */
    method ApplyUsernameFilters(t: Tweet) returns (pass: bool)
      ensures pass <==> !UsernameRejected(usernameFilters, t)
    {
      var i := 0;
      while i < |usernameFilters|
        invariant 0 <= i <= |usernameFilters|
        invariant forall j :: 0 <= j < i ==> !Contains(ToLower(t.user.screenName), usernameFilters[j])
      {
        if Contains(ToLower(t.user.screenName), usernameFilters[i]) {
          return false;
        }
        i := i + 1;
      }
      return true;
    }

    /** isBlocked: despite its name, FALSE when the author is blocked and
        TRUE otherwise. */
    method IsBlocked(t: Tweet) returns (notBlocked: bool)
      ensures notBlocked <==> !AuthorBlocked(blockedUsers, t)
    {
      var i := 0;
      while i < |blockedUsers|
        invariant 0 <= i <= |blockedUsers|
        invariant forall j :: 0 <= j < i ==> blockedUsers[j] != t.user.id
      {
        if t.user.id == blockedUsers[i] {
          return false;
        }
        i := i + 1;
      }
      return true;
    }

    /** rollDie: two draws are taken and only the second is compared with
        the category's probability. */
    method RollDie(t: Tweet, host: Host) returns (pass: bool)
      modifies host`randCalls
      ensures host.randCalls == old(host.randCalls) + 2
      ensures pass <==> !DiceRejects(Probability(diceValues, CategoryOf(t)), host.rand(old(host.randCalls) + 1))
    {
      var p := Probability(diceValues, CategoryOf(t));
      var unused := host.Draw();
      var draw := host.Draw();
      pass := !DiceRejects(p, draw);
    }

    /** filterTweet: the four stages in order, stopping at the first that
        fails, so the dice is rolled only for a tweet the others accept. */
    method FilterTweet(t: Tweet, host: Host) returns (accept: bool)
      modifies host`randCalls
      ensures accept <==> Decide(FilterSettings(), t, host.rand(old(host.randCalls) + 1)) == Accept
      ensures host.randCalls == old(host.randCalls) + (if Screen(FilterSettings(), t) == Accept then 2 else 0)
    {
      var pass := ApplyFilters(t);
      if !pass {
        return false;
      }
      pass := ApplyUsernameFilters(t);
      if !pass {
        return false;
      }
      pass := IsBlocked(t);
      if !pass {
        return false;
      }
      pass := RollDie(t, host);
      if !pass {
        return false;
      }
      return true;
    }

    /** One pass of the doRetweets loop body: expand, filter, post. */
    method RetweetOne(t: Tweet, host: Host)
      modifies host`retweeted, host`randCalls
      ensures var b := TweetEffect(FilterSettings(), t, host.rand, old(host.randCalls));
              host.retweeted == old(host.retweeted) + b.posted && host.randCalls == b.draws
    {
      var e := ExpandUrls(t, true, false);
      var ok := FilterTweet(e, host);
      if ok {
        host.Post(e.idStr);
      }
    }

    /** doRetweets: halt when there is nothing to retweet, otherwise expand,
        filter and post each tweet in search order. */
    method DoRetweets(host: Host) returns (s: Step)
      modifies host`retweeted, host`randCalls
      ensures |tweets| == 0 ==>
                s == Halt(NothingToRetweet) && host.retweeted == old(host.retweeted) &&
                host.randCalls == old(host.randCalls)
      ensures |tweets| > 0 ==>
                var b := Retweets(FilterSettings(), tweets, host.rand, old(host.randCalls));
                s == Continue && host.retweeted == old(host.retweeted) + b.posted && host.randCalls == b.draws
    {
      if |tweets| == 0 {
        return Halt(NothingToRetweet);
      }
      ghost var cfg := FilterSettings();
      ghost var step := Effect(cfg, host.rand);
      assert tweets[0..] == tweets;
      ghost var goal := Fold(step, tweets, host.randCalls);
      var i := 0;
      while i < |tweets|
        invariant 0 <= i <= |tweets|
        invariant FilterSettings() == cfg
        invariant host.retweeted + Fold(step, tweets[i..], host.randCalls).posted == old(host.retweeted) + goal.posted
        invariant Fold(step, tweets[i..], host.randCalls).draws == goal.draws
      {
        LoopStep(step, tweets, i, host.randCalls, host.retweeted, old(host.retweeted) + goal.posted);
        RetweetOne(tweets[i], host);
        i := i + 1;
      }
      return Continue;
    }

    /** run(): the stages in order; the first halt ends the run, and a run
        that gets through the retweets ends with halt(). */
    method Run(host: Host, remote: Remote, now: Bytes) returns (reason: HaltReason, request: Option<SearchRequest>)
      modifies this`blockedUsers, this`tweets, host`lastSearch, host`retweeted, host`randCalls
      ensures var r := RunSpec(Config(), old(blockedUsers), old(tweets), old(host.lastSearch),
                               old(host.randCalls), host.rand, remote, now);
              reason == r.reason && request == r.request && blockedUsers == r.blocked &&
              tweets == r.tweets && host.lastSearch == r.lastSearch &&
              host.retweeted == old(host.retweeted) + r.posted && host.randCalls == r.randCalls
    {
      request := None;
      var s := CheckIdentity(username, remote.identity);
      if s.Halt? {
        return s.reason, request;
      }
      s := RateGate(minRateLimit, remote.rateStatus);
      if s.Halt? {
        return s.reason, request;
      }
      s := GetBlockedUsers(remote.blockIds);
      if s.Halt? {
        return s.reason, request;
      }
      s, request := DoSearch(host, remote.search, now);
      if s.Halt? {
        return s.reason, request;
      }
      s := DoRetweets(host);
      reason := match s
        case Halt(r) => r
        case Continue => Done;
    }
  }
}
