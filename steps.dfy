/** The run's stages before filtering, as functions of the bot's settings
    and of the remote responses: identity, rate limits, block list and the
    search with its cursor. Each either continues or halts with a reason. */
module Steps {
  import opened Php
  import opened Tweets

  /** One rate-limit reading: remaining calls, limit and reset time. */
  datatype Quota = Quota(remaining: int, limit: int, reset: int)

  /** The readings for /search/tweets and /blocks/ids; None when the call
      failed or the entry is missing, so that PHP reads the field as null. */
  datatype RateStatus = RateStatus(search: Option<Quota>, blocks: Option<Quota>)

  datatype Endpoint = SearchTweets | BlocksIds

  /** Why the run stopped; Done is the final halt() after the retweets. */
  datatype HaltReason =
    | NoUsername
    | IdentityCallFailed
    | QuotaLow(endpoint: Endpoint, reading: Option<Quota>)
    | NoBlockedUsers
    | NoSearchString
    | SearchFailed
    | NoResults
    | NothingToRetweet
    | Done

  datatype Step = Continue | Halt(reason: HaltReason)

  /** getIdentity. screenName is the verify_credentials response: None when
      it is not an object, Some(name) when it is an object with that screen
      name. Line 106 assigns the configured name to the screen name instead
      of comparing them, and the assigned name is never falsy there, so any
      object response lets the run continue. */
  function CheckIdentity(username: Bytes, screenName: Option<Bytes>): (s: Step)
    ensures s.Continue? <==> !IsEmptyString(username) && screenName.Some?
    ensures IsEmptyString(username) ==> s == Halt(NoUsername)
    ensures !IsEmptyString(username) && screenName.None? ==> s == Halt(IdentityCallFailed)
  {
    if IsEmptyString(username) then Halt(NoUsername)
    else if screenName.None? then Halt(IdentityCallFailed)
    else Continue
  }

  /** remaining < floor. For a missing reading PHP compares null with the
      floor as booleans, which holds exactly when the floor is not 0. */
  predicate Below(reading: Option<Quota>, floor: int)
    ensures reading.None? && floor >= 0 ==> (Below(reading, floor) <==> 0 < floor)
  {
    match reading
    case Some(q) => q.remaining < floor
    case None => floor != 0
  }

  /** getRateLimitStatus: the search endpoint is checked first, then the
      block-list endpoint. */
  function RateGate(floor: int, status: RateStatus): (s: Step)
    ensures s.Continue? <==> !Below(status.search, floor) && !Below(status.blocks, floor)
    ensures Below(status.search, floor) ==> s == Halt(QuotaLow(SearchTweets, status.search))
    ensures !Below(status.search, floor) && Below(status.blocks, floor) ==>
              s == Halt(QuotaLow(BlocksIds, status.blocks))
  {
    if Below(status.search, floor) then Halt(QuotaLow(SearchTweets, status.search))
    else if Below(status.blocks, floor) then Halt(QuotaLow(BlocksIds, status.blocks))
    else Continue
  }

  /** With both readings present the gate is two comparisons; with a
      non-zero floor a failed call always halts. */
  lemma RateGateReadings(floor: int, status: RateStatus)
    ensures status.search.Some? && status.blocks.Some? ==>
              (RateGate(floor, status).Continue? <==>
                 status.search.value.remaining >= floor && status.blocks.value.remaining >= floor)
    ensures floor != 0 && status.search.None? ==> RateGate(floor, status).Halt?
  {
  }

  /** getBlockedUsers halts unless the call returned a non-empty id list. */
  predicate BlockListUsable(ids: Option<seq<int>>)
  {
    ids.Some? && |ids.value| > 0
  }

  /** The content of the last-search file. */
  datatype SearchRecord = SearchRecord(maxId: Bytes, timestamp: Bytes)

  /** The parameters of the search/tweets call; sinceId None is FALSE. */
  datatype SearchRequest = SearchRequest(query: Bytes, resultType: string, count: int, sinceId: Option<Bytes>)

  /** A search response: NoMetadata when search_metadata is missing. */
  datatype SearchResponse = NoMetadata | Results(maxIdStr: Bytes, statuses: seq<Tweet>)

  /** since_id: the stored max_id when the file was read and its max_id is
      not empty in PHP's sense, FALSE otherwise. */
  function SinceId(last: Option<SearchRecord>): (r: Option<Bytes>)
    ensures r.Some? <==> last.Some? && !IsEmptyString(last.value.maxId)
    ensures r.Some? ==> r.value == last.value.maxId
  {
    if last.Some? && !IsEmptyString(last.value.maxId) then Some(last.value.maxId) else None
  }

  function SearchRequestFor(query: Bytes, count: int, last: Option<SearchRecord>): SearchRequest
  {
    SearchRequest(query, "mixed", count, SinceId(last))
  }

  /** The last-search file after the call: rewritten with the response's
      max_id_str as soon as metadata came back, whether or not there are
      statuses; untouched otherwise. */
  function CursorAfter(last: Option<SearchRecord>, resp: SearchResponse, now: Bytes): (r: Option<SearchRecord>)
    ensures resp.NoMetadata? ==> r == last
    ensures resp.Results? ==> r == Some(SearchRecord(resp.maxIdStr, now))
  {
    match resp
    case NoMetadata => last
    case Results(m, _) => Some(SearchRecord(m, now))
  }

  /** What doSearch does after the call. */
  function SearchVerdict(resp: SearchResponse): (s: Step)
    ensures s.Continue? <==> resp.Results? && |resp.statuses| > 0
    ensures resp.NoMetadata? ==> s == Halt(SearchFailed)
    ensures resp.Results? && |resp.statuses| == 0 ==> s == Halt(NoResults)
  {
    match resp
    case NoMetadata => Halt(SearchFailed)
    case Results(_, st) => if |st| == 0 then Halt(NoResults) else Continue
  }

  /** The cursor chains runs together: after a search that returned
      metadata, the next run asks for tweets since that response's max id
      (unless PHP considers it empty), even when it had no statuses. */
  lemma CursorChains(last: Option<SearchRecord>, resp: SearchResponse, now: Bytes, query: Bytes, count: int)
    requires resp.Results?
    ensures SearchRequestFor(query, count, CursorAfter(last, resp, now)).sinceId ==
              if IsEmptyString(resp.maxIdStr) then None else Some(resp.maxIdStr)
  {
  }

  /** The remote side of one run: the responses of verify_credentials
      (None when the response is not an object), rate_limit_status and
      blocks/ids, and search/tweets as a function of the request. */
  datatype Remote = Remote(
    identity: Option<Bytes>,
    rateStatus: RateStatus,
    blockIds: Option<seq<int>>,
    search: SearchRequest -> SearchResponse)
}
