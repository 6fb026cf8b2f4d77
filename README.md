# TwitterBot in Dafny

A model of the `TwitterBot` class of a PHP retweet bot (`bot.php`), with
proofs about it. The bot runs once per invocation and goes through five
stages:

1. It checks its identity.
2. It reads the rate limits of the search and block-list endpoints and halts below a floor.
3. It fetches the ids of the users it has blocked.
4. It searches for tweets since the last search's maximum id, and stores
   the new cursor in a file.
5. It retweets every result that passes its filters. For each tweet it
   expands short links in the text, then applies four filters in order:
   - the text filters, matched against the lowered text;
   - the username filters, matched against the lowered screen name;
   - the block list;
   - a die roll whose probability depends on the tweet's category (media, urls, mentions or base).

The first stage that fails ends the run; a run that gets through all five
ends with the final halt.

The model follows the PHP code as written, including its quirks:

- `strpos('instagram.com/p/', text)` and `strpos('@', text)` have their
  arguments swapped. The tweet text is the needle and the literal is the
  haystack.
- Only the tweet text is lowered, never the filters, so a filter holding an
  ASCII capital letter never rejects anything (`UpperNeverMatches`).
- `rollDie` draws two random numbers and compares only the second.
- The identity check assigns the configured username instead of comparing
  it, so any credentials response that is an object lets the run continue.
- `isBlocked` returns FALSE for a blocked author and TRUE otherwise,
  despite its name.

Strings are PHP byte strings (`seq<Byte>`). `strpos`, `strtolower` (ASCII
only) and `str_replace` follow PHP 8: an empty needle occurs at offset 0,
and an empty search string leaves the subject as it is. The five hard-coded
filters are the exact bytes the UTF-8 source file holds:

- `"@`, i.e. bytes 34 and 64;
- the single byte 147 from `chr(147)`, followed by `@`;
- the control character U+0093, encoded as 194 147, followed by `@`;
- `â`, U+0080 and U+009C (a curly quote encoded as UTF-8 twice, the second time read as Latin-1), followed by `@`;
- the curly quote U+201C, followed by `@`.

None of them is the bare `"@"`.

Modules, one per file:

- `Php` (`php.dfy`): bytes, `Option`, `empty()` on strings, `strpos`,
  `strtolower` and `str_replace`.
- `Tweets` (`tweets.dfy`): the tweet, user and entity records.
- `UrlExpander` (`expand.dfy`): `expandUrls`.
- `Filters` (`filters.dfy`): the four filter stages as functions.
  - `Screen` covers the three stages that need no draw.
  - `Decide` covers all four.
- `Settings` (`settings.dfy`): the constructor's argument defaults and the
  merge of the settings file.
- `Steps` (`steps.dfy`): the identity, rate-limit, block-list and search
  stages as functions of the remote responses.
- `RetweetLoop` (`retweets.dfy`): what the `doRetweets` loop posts, as a
  function of the tweets and the random stream.
- `Bot` (`bot.dfy`):
  - `Host` holds the outside state the bot changes: the last-search file,
    the retweets posted, and the position in the `mt_rand()` stream.
  - `TwitterBot` has the source's fields and methods.
  - `RunSpec` is the whole run as a function, with lemmas about run
    scenarios.

`mt_rand() / mt_getrandmax()` is a stream `rand: nat -> real`, so the k-th
call returns `rand(k)`. `Host.randCalls` counts how many draws have been
taken.

Properties of the code as written:

- **`expandUrls` is not idempotent in general.** Expanding again changes
  nothing once no entity's short link is left in the text
  (`ExpansionSettles`). A link whose expansion contains the short link
  grows again on a second pass (`ReexpansionGrows`).
- **The mentions test holds only for the text `"@"`.** Because the
  arguments are swapped, `strpos('@', text) === 0` holds only for the empty
  text and for `"@"`. The empty text is classed as media before that test
  is reached, so only a tweet without entities whose whole text is `"@"`
  is in the mentions category. The hard-coded filters let that text
  through (`BareAtPassesHardcoded`), so unless a settings filter catches it,
  such a tweet is rolled with the mentions probability
  (`BareAtRolledAsMention`).
- **Every text that occurs inside `"instagram.com/p/"` is classed as media.**
  This includes the empty text, `"a"`, `"gram"` and `"/"`
  (`InstagramTextIsMedia`, `EmptyTextIsMedia`).
- **Every hard-coded filter ends in `"@"`.** So a text the hard-coded filters
  reject contains `"@"`, and a text without `"@"` is rejected at the text
  stage only by a settings filter (`TextStageNeedsAt`). The converse does
  not hold.

## Model

| member | source | states |
|---|---|---|
| Php.StrPos | bot.php:254 | strpos returns the first offset where the needle occurs; FALSE (None) exactly when it occurs nowhere |
| Php.ToLower | bot.php:254 | strtolower keeps the length and leaves no ASCII capital letter in the result |
| Php.ToLowerIdempotent | bot.php:254 | lowering a lowered string changes nothing |
| Php.ToLowerFixesLower | bot.php:254 | a string without ASCII capitals is returned unchanged |
| Php.LowerKeepsNonLetter | bot.php:254 | for a byte that is not a letter, containment is the same before and after strtolower |
| Php.UpperNeverMatches | bot.php:254 | a filter holding an ASCII capital letter never occurs in the lowered text, so it never rejects |
| Php.StrReplace | bot.php:331 | str_replace: an empty search leaves the subject as it is; replacing a string by itself changes nothing; a replacement of the search's length keeps the length |
| Php.ReplaceScan | bot.php:336 | the left-to-right, non-overlapping scan for a non-empty search: replacing by the search itself is the identity, and an equal-length replacement keeps the length |
| Php.StrReplaceAbsent | bot.php:331 | str_replace leaves a subject without an occurrence of the search string unchanged |
| Php.ReplaceWhole | bot.php:331 | str_replace on a subject equal to a non-empty search string gives the replacement |
| UrlExpander.ExpandedText | bot.php:325-341 | the text expandUrls leaves: a text without "http://t.co", or a tweet with no entities to expand, is left as it is |
| UrlExpander.ExpandUrls | bot.php:325-341 | only the text changes: it becomes the url replacements and then (if enabled) the photo replacements applied in order; a text without "http://t.co" is returned untouched |
| UrlExpander.ApplyRewritesAbsent | bot.php:330-332 | replacements whose sources do not occur in the text leave it unchanged |
| UrlExpander.ExpansionSettles | bot.php:325-341 | expanding again is a no-op once no url entity's short link remains in the expanded text |
| UrlExpander.ReexpansionGrows | bot.php:325-341 | a link whose expansion extends it grows again on the second pass, so expansion is not idempotent in general |
| Filters.CategoryOf | bot.php:293-308 | the category by precedence: media when there is a media entity or the text occurs in "instagram.com/p/"; then urls when there is a url entity; then mentions when strpos('@', text) is 0; base otherwise (each as an if-and-only-if) |
| Filters.Screen | bot.php:225-241 | accept exactly when no text filter, no username filter and no blocked id matches; never a dice rejection |
| Filters.Decide | bot.php:225-248 | filterTweet's verdict: accept exactly when all four stages pass; rejected at a stage exactly when every earlier stage passed and that one failed |
| Filters.ScreenDecidesAlone | bot.php:225-245 | a rejection before the dice is the same for every draw |
| Filters.BlockedAlwaysRejected | bot.php:237-240 | a blocked author is always rejected before the dice, and at the block stage when the text and username stages pass |
| Filters.MediaBeatsUrls | bot.php:295-303 | a tweet with a media entity is in the media category even when it has url entities |
| Filters.InstagramTextIsMedia | bot.php:295-296 | with the swapped arguments, a text occurring anywhere inside "instagram.com/p/" puts the tweet in the media category |
| Filters.EmptyTextIsMedia | bot.php:295-296 | the empty text and the text "a" are both classed as media |
| Filters.MentionTestMeaning | bot.php:305 | strpos('@', text) === 0 holds exactly for the empty text and for "@" |
| Filters.AtNotInstagram | bot.php:296 | the text "@" does not pass the instagram test |
| Filters.MentionsMeansBareAt | bot.php:295-308 | the mentions category holds exactly for a tweet without entities whose text is "@" |
| Filters.MentionsNeverRolled | bot.php:305-307 | when the settings add "@" to the text filters, every tweet in the mentions category is rejected at the text stage, so the mentions probability is never used |
| Filters.CertainNeverRejects | bot.php:310-315 | probability 1.0 or more never rejects a draw in [0, 1] |
| Filters.Probability | bot.php:293-307 | the probability is the table's value for the category's key, and absent (null) exactly when the key is missing |
| Filters.DiceRejects | bot.php:310-312 | the dice rejects when the draw exceeds the probability; against a missing key (null) a non-negative draw is rejected exactly when it is above 0 |
| Filters.ZeroRejectsAllButZero | bot.php:310-315 | probability 0.0 rejects every draw but 0; a missing key (null) behaves the same way |
| Settings.StringOr | bot.php:48-53 | an argument empty in PHP's sense (missing, "" or "0") becomes the default; otherwise it is kept |
| Settings.IntOr | bot.php:50-51 | a missing or zero integer argument becomes the default; otherwise it is kept; with a non-zero default the result is non-zero |
| Settings.HardcodedFilters | bot.php:31-37 | there are five hard-coded text filters, each at least two bytes long and ending in "@", so none is the bare "@" |
| Settings.MergedFilters | bot.php:58-61 | the text filters are the hard-coded ones followed by the settings filters |
| Settings.DefaultDice | bot.php:40-45 | every category has a default probability in [0, 1], and media's is 1.0 |
| Settings.DiceValues | bot.php:68-71 | a non-empty settings table replaces the defaults wholesale; an empty one keeps the defaults |
| Settings.MergedKeepsAll | bot.php:58-61 | every hard-coded filter and every settings filter is among the merged text filters |
| Settings.MergedLayout | bot.php:58-61 | the merged list has the five hard-coded filters first, in order, and then the settings filters, in order |
| Settings.HardcodedEndsInAt | bot.php:31-37 | every hard-coded filter has "@" at its last offset |
| Settings.HardcodedImpliesAt | bot.php:31-37 | a text containing a hard-coded filter contains "@" |
| Settings.MergedRejectionSource | bot.php:251-261 | a rejection by the merged list comes from a hard-coded filter or from a settings filter |
| Settings.MergedRejectionCovers | bot.php:251-261 | a hard-coded or a settings filter in the lowered text makes the merged list reject |
| Settings.TextStageReduces | bot.php:251-261 | the text stage rejects exactly the texts that the hard-coded filters or the settings filters reject |
| Settings.TextStageNeedsAt | bot.php:251-261 | a text the hard-coded filters reject contains "@", and so a text without "@" is rejected only by a settings filter |
| Settings.BareAtPassesHardcoded | bot.php:31-37 | the text "@" contains "@" but passes every hard-coded filter, so the converse of the previous row fails |
| Settings.BareAtRolledAsMention | bot.php:305-315 | with no settings filters, a tweet whose whole text is "@" and has no entities passes the text stage, is in the mentions category, and is accepted exactly when the dice on the mentions probability lets it through, if the username and block stages pass |
| Settings.EmptyFilterRejectsAll | bot.php:58-61 | an empty settings filter makes the text stage reject every tweet |
| Steps.CheckIdentity | bot.php:95-114 | an empty username halts; with one set, the run continues exactly when the credentials response is an object (None stands for any other response), whatever screen name it holds |
| Steps.Below | bot.php:124-135 | a reading is low when remaining is below the floor; a missing reading (null) against a non-negative floor is low exactly when the floor is above 0 |
| Steps.RateGate | bot.php:116-147 | search is checked before blocks; the run continues exactly when neither reading is below the floor; otherwise it halts naming the first endpoint that is low |
| Steps.RateGateReadings | bot.php:124-135 | with both readings present the gate is two comparisons with the floor; with a non-zero floor a missing search reading halts |
| Steps.SinceId | bot.php:177 | since_id is the stored max_id exactly when the file was read and max_id is not empty; otherwise FALSE |
| Steps.CursorAfter | bot.php:180-189 | a response without metadata leaves the cursor alone; a response with metadata overwrites it with its max_id_str and the time |
| Steps.SearchVerdict | bot.php:180-193 | the search continues exactly when metadata and at least one status came back; otherwise it halts with the matching reason |
| Steps.CursorChains | bot.php:171-189 | after a response with metadata, the next run's since_id is that response's max id, unless that max id is empty in PHP's sense ("" or "0"), even when there were no statuses |
| RetweetLoop.Survivors | bot.php:204-240 | the expanded tweets that pass the three stages before the dice: never more than the tweets, and every one accepted by the screen |
| RetweetLoop.SurvivorsComplete | bot.php:204-240 | every fetched tweet whose expanded form passes the three stages before the dice is among the survivors |
| RetweetLoop.TweetEffect | bot.php:204-221 | one loop turn posts nothing or the tweet's own id, posting it exactly when filterTweet accepts the expanded tweet on the second of its draws; it takes two draws when the screen accepts and none otherwise |
| RetweetLoop.Retweets | bot.php:204-221 | the loop over the tweets posts at most one id per tweet, each a fetched id, and takes between none and two draws per tweet |
| RetweetLoop.RetweetsFactor | bot.php:198-222 | the loop posts what the dice lets through among the survivors, and takes exactly two draws per survivor |
| RetweetLoop.LoopStep | bot.php:204-221 | one turn of the loop: handling tweet i keeps the posted ids plus the rest's posts equal to the whole loop's posts |
| RetweetLoop.LuckyFromSurvivors | bot.php:242-245 | the dice posts no more ids than there are survivors, and each one is a survivor's id |
| RetweetLoop.LuckyWithinSurvivors | bot.php:242-245 | as a multiset, the ids the dice posts are within the survivors' ids, so each id is posted at most as often as survivors carry it |
| RetweetLoop.LuckyAllCertain | bot.php:310-317 | with every probability at least 1.0 and draws in [0, 1], the dice posts every survivor |
| RetweetLoop.SurvivorOrigin | bot.php:204-212 | every survivor's id is the id of a fetched tweet that passes the screen after expansion |
| RetweetLoop.PostedOnlyIfScreened | bot.php:204-221 | with distinct ids, a tweet rejected before the dice is never retweeted |
| RetweetLoop.AllCertainPostsSurvivors | bot.php:204-221 | with certain probabilities the loop retweets exactly the survivors, in search order |
| RetweetLoop.LuckyDistinct | bot.php:242-245 | the dice over survivors with distinct ids posts distinct ids |
| RetweetLoop.SurvivorsDistinct | bot.php:204-212 | filtering keeps distinct ids distinct |
| RetweetLoop.PostedOnce | bot.php:204-221 | with distinct ids no tweet is retweeted twice |
| RetweetLoop.MediaCertainPosted | bot.php:204-221 | at any position in the search results, a media tweet that passes the screen, with media probability 1.0 and draws in [0, 1], is retweeted |
| RetweetLoop.MediaCertainPostedOnce | bot.php:295-317 | with unique ids, such a media tweet is retweeted exactly once |
| Bot.Host.Draw | bot.php:311-312 | one mt_rand() call returns the next value of the stream and advances it by one |
| Bot.Host.Post | bot.php:220 | a retweet appends the id to the ids posted |
| Bot.Host.Store | bot.php:189 | writing the last-search file replaces its content |
| Bot.RunSpec | bot.php:74-196 | run() as a value: without a search call nothing but the halt reason and block list changes; a search call is the one built from the cursor before the run; only a run ending Done posts, and it has tweets; at most two draws are taken per tweet |
| Bot.QuotaHaltBeforeSearch | bot.php:116-147 | a run stopped by the rate gate halts with the gate's reason, makes no search and changes nothing: cursor, block list, tweets, posts and draws stay as they were |
| Bot.LowQuotaScenario | bot.php:124-129 | two searches remaining against a floor of 5 halts at the search endpoint before any search |
| Bot.EmptyBlockListHalts | bot.php:150-160 | an empty block list halts the run before the search, with the cursor untouched |
| Bot.CursorAfterSearch | bot.php:162-196 | once the search is made the cursor follows the response's metadata; an empty result halts with nothing posted; a failed search keeps the old cursor |
| Bot.RunPostsOnlySurvivors | bot.php:198-222 | a run that reaches the retweets ends Done, posts no more ids than survivors, each a survivor's id and, as a multiset, within the survivors' ids, and takes two draws per survivor |
| Bot.TwitterBot.constructor | bot.php:25-72 | every argument is defaulted when empty; the text filters are the hard-coded ones followed by the settings filters, the username filters and the probability table come from the settings; so the floor is non-zero |
| Bot.TwitterBot.GetBlockedUsers | bot.php:150-160 | the id list becomes the block list exactly when it is present and non-empty; otherwise the run halts and the list is unchanged |
| Bot.TwitterBot.DoSearch | bot.php:162-196 | an empty search string halts with no call; otherwise one call with since_id from the stored cursor, the cursor rewritten when metadata comes back, and the statuses kept only when there are some |
| Bot.TwitterBot.ApplyFilters | bot.php:251-261 | passes exactly when no text filter occurs in the lowered text |
| Bot.TwitterBot.ApplyUsernameFilters | bot.php:264-274 | passes exactly when no username filter occurs in the lowered screen name |
| Bot.TwitterBot.IsBlocked | bot.php:277-287 | returns true exactly when the author's id is not in the block list |
| Bot.TwitterBot.RollDie | bot.php:290-318 | takes two draws and passes exactly when the second does not exceed the category's probability |
| Bot.TwitterBot.FilterTweet | bot.php:225-248 | accepts exactly when the filter decision on the second new draw is accept, and takes draws only for a tweet the first three stages accept |
| Bot.TwitterBot.RetweetOne | bot.php:204-221 | one loop body: posts the id exactly when the expanded tweet is accepted, and advances the stream as filtering does |
| Bot.TwitterBot.DoRetweets | bot.php:198-222 | no tweets halts with nothing done; otherwise the ids posted and the draws taken are those of Retweets over the tweets |
| Bot.TwitterBot.Run | bot.php:74-93 | the halt reason, search call, block list, tweets, cursor, ids posted and draws taken are those of RunSpec on the same inputs |

## Left out

- The TwitterOAuth transport and its HTTP calls. Each call's response
  becomes a value (`Remote`): the credentials and rate-limit responses,
  the block ids, and the search as a function of its request.
- The API error messages are not modelled (the texts in `errors[0]->message`).
- Reading and decoding the settings file and the last-search file:
  - The decoded content is an input. A settings file that is missing or
    undecodable is the empty `SettingsFile`, because `empty()` treats it
    the same way.
  - A missing or undecodable last-search file is `None`.
  - JSON encoding of the stored cursor is not modelled.
- Output is not modelled: `echo`, `printf`, `sprintf` and the halt messages.
  Each `die` becomes a `HaltReason`. The undefined `$this->aUsername` in
  the "not allowed" message sits in a branch that cannot be reached.
- `date()` is not modelled. The timestamp the last-search file stores is
  the parameter `now`.
- The randomness of `mt_rand()` is not modelled. Its results divided by
  `mt_getrandmax()` are the stream `rand`.
- Floating point is not modelled: probabilities and draws are reals.
  Arguments are typed (strings and integers) rather than loosely typed PHP
  values, so PHP's comparisons between a string and a number are not modelled.
- `Bot.TwitterBot.DoRetweets`: PHP objects are handles, so `expandUrls`
  also rewrites the text of the tweet objects stored in `aTweets`. The model
  leaves `tweets` as the search returned them. Nothing reads them
  afterwards.
- The constructor's creation of the TwitterOAuth client and its host
  setting are outside the model, because they belong to the transport.
- `oo/core/retweetbot.php`, the object-oriented rewrite, is not part of this
  model.
