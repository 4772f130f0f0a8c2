# hashbot digest pipeline, modelled in Dafny

A model of the daily toot digest built by `bot15.js`. The bot picks the hashtag of the weekday. It pages through that tag's Mastodon timeline back to the start of the day. It scores each toot (0.4·favourites + 0.3·boosts + 0.3·followers, one decimal). It ranks the toots by score, drops denylisted authors and toots not of today, and composes a digest of the five best toots with a weekly usage total. Before posting it checks that the text is a non-blank string.

Modules, one file each:

- `Wrappers` (`wrappers.dfy`): Option and Result.
- `JsValues` (`js_values.dfy`): the JavaScript value semantics the bot relies on. This covers truthiness, `${n}` for numbers, `parseInt` and `String.prototype.trim`.
- `Sequences` (`sequences.dfy`): `Array.prototype.filter` as `Keep`, `Array.prototype.map` as `Map`, order-preserving sublists, and where a piece stands in a text.
- `Toots` (`toots.dfy`): the toot records, `calculateRelevance`, `sortTootsByRelevance`, `removeIgnoredToots`, `filterTootsByDate`, and the crash the code has when the scorer returns null.
- `Fetch` (`fetch.dfy`): the `fetchToots` pagination loop, run against a timeline endpoint passed in as a function.
- `Usage` (`usage.dfy`): the usage history and the `calculateSumOfUses` loop.
- `Digest` (`digest.dfy`): `generateTootLink` and `generateTootText`.
- `Publish` (`publish.dfy`): what `createToot` checks before its single request, and the request it sends.
- `Pipeline` (`pipeline.dfy`): the hashtag table and `main` up to the prompt (lines 253-260).

Modelling choices:

- Scores are whole numbers of tenths: 4·favourites + 3·boosts + 3·followers. `ScoreIsRoundedWeightedSum` shows that this equals `Math.round(10 · weighted sum)` in exact arithmetic.
- Timestamps are integers (seconds). The calendar day of a timestamp is a function parameter `dayOf`. The fetch cutoff (`todayTimestamp`) is a parameter.
- The timeline endpoint is a function from the `max_id` sent (none on the first request) to a response. The response is an array whose entries may be null, a non-array, or a rejected request.
- The usage history is a parameter of `GenerateTootText`. Its `uses` and `accounts` fields are strings, as the server sends them.

Points where the code behaves differently from what a reader might expect, and which the model follows:

- A toot without an account makes the run throw, although the warning at line 34 says the toot is being ignored. See Findings.
- A missing `followers_count` is printed as `undefined` (lines 140, 147 and 168). The `unknown` fallback of lines 161-162 applies only to the history's `accounts` and `uses`.
- `createToot(null)` throws at line 211, where it reads `tootText.length` for a log line. The `typeof` check at line 213 is never reached for null.
- Usage counts arrive as strings and are read with `parseInt`. A count that does not start with a digit makes the weekly total `NaN`.

## Model

| member | source | states |
|---|---|---|
| `JsValues.NatToString` | bot15.js:160 | the text of a count is a non-empty string of decimal digits with no leading zero |
| `JsValues.ParseInt` | bot15.js:190 | `parseInt` gives NaN exactly when the string does not start with a digit |
| `JsValues.ParseIntOfNatToString` | bot15.js:190 | `parseInt` reads back exactly the count that `${n}` wrote |
| `JsValues.NatToStringInjective` | bot15.js:160 | distinct counts are never printed alike |
| `JsValues.Trim` | bot15.js:217 | `trim` returns the slice of the input left after cutting off only whitespace at both ends; the slice neither starts nor ends with whitespace |
| `JsValues.TrimEmptyIffAllWhitespace` | bot15.js:217 | `s.trim() === ''` holds exactly when every character of `s` is whitespace |
| `Sequences.KeepCounts` | bot15.js:205 | `filter` keeps every element that satisfies the predicate, as often as it occurs, and no other element |
| `Sequences.KeepMembership` | bot15.js:116 | an element is in the filtered list exactly when it is in the input and satisfies the predicate |
| `Sequences.KeepIsSubsequence` | bot15.js:205 | the filtered list is an order-preserving sublist of the input |
| `Sequences.KeepIdempotent` | bot15.js:205 | filtering twice with the same predicate gives the result of filtering once |
| `Sequences.KeepCommutes` | bot15.js:258-259 | two filters give the same result in either order |
| `Sequences.KeepAllPass` | bot15.js:205 | filtering a list whose every element passes returns the list unchanged |
| `Toots.ScoreIsRoundedWeightedSum` | bot15.js:39-42 | `Math.round(10·(0.4f + 0.3b + 0.3n))` in exact arithmetic is the integer tenths score 4f + 3b + 3n |
| `Toots.CalculateRelevance` | bot15.js:32-55 | null exactly when the toot, its account or its account id is missing; otherwise the input toot with a score equal to 4·favourites + 3·boosts + 3·(followers or 0) tenths |
| `Toots.InsertByScore` | bot15.js:200 | inserting a toot adds exactly that toot to the list |
| `Toots.InsertByScoreRanks` | bot15.js:200 | inserting into a list ranked by score keeps it ranked |
| `Toots.SortByScore` | bot15.js:198-201 | the sort returns a permutation of its input of the same length, ordered by non-increasing score |
| `Toots.InsertByScoreKeepsTies` | bot15.js:200 | an inserted toot goes before the existing toots of equal score |
| `Toots.SortByScoreIsStable` | bot15.js:200 | among toots of equal score the sort keeps the input order |
| `Toots.ScoredTootsIsFilter` | bot15.js:199 | scoring then skipping nulls is, with the scores taken off, exactly the filter of the toots that have an account id, in input order |
| `Toots.ScoredTootsKeepOrder` | bot15.js:199 | the scored toots are an order-preserving sublist of the input, and each toot with an account id appears exactly as often as in the input |
| `Toots.ScoredTootsAllScoreable` | bot15.js:199 | when every toot has an account id, scoring keeps every toot, in order, each with its own score |
| `Toots.ScoredTootsFromInput` | bot15.js:199 | every scored toot is an input toot with that toot's score added |
| `Toots.ScoredTootsComplete` | bot15.js:199 | every input toot with an account id appears scored |
| `Toots.SortTootsByRelevance` | bot15.js:198-201 | the ranking is a permutation of the scored toots, ordered by non-increasing score, and no longer than the input |
| `Toots.RemoveIgnoredToots` | bot15.js:204-206 | the result is an order-preserving sublist holding every toot whose author is not in `ignoredAccounts`, and no other toot |
| `Toots.FilterTootsByDate` | bot15.js:115-117 | the result is an order-preserving sublist holding every toot whose calendar day is the target day, and no other toot |
| `Toots.RemoveIgnoredTootsIdempotent` | bot15.js:204-206 | removing denylisted authors twice gives the result of removing them once |
| `Toots.FilterTootsByDateIdempotent` | bot15.js:115-117 | filtering by date twice gives the result of filtering once |
| `Toots.FiltersCommute` | bot15.js:258-259 | the denylist filter and the date filter give the same result in either order |
| `Toots.KeepPreservesRanking` | bot15.js:258-259 | filtering a list ranked by score leaves it ranked |
| `Toots.RankAsWritten` | bot15.js:198-206 | as written (the plain `map` of `calculateRelevance`, sorted, then the denylist filter), the ranking throws exactly when some toot has no account id |
| `Toots.AccountlessTootCrashesRanking` | bot15.js:198-206 | one toot without an account makes the code as written throw; the corrected ranking skips that toot |
| `Toots.RankAsWrittenAgrees` | bot15.js:198-206 | whenever the code as written does not throw, it gives the corrected result and keeps every toot |
| `Fetch.QualifyingIsFilter` | bot15.js:86 | the toots kept from a page are `filter` over its entries with the null and cutoff test, in page order |
| `Fetch.QualifyingInPageOrder` | bot15.js:86 | the kept toots are an order-preserving sublist of the page, each qualifying entry kept exactly as often as it occurs |
| `Fetch.QualifyingLast` | bot15.js:86-89 | the last kept toot, whose id becomes the cursor, is the last entry of the page that passes the filter: no later entry qualifies |
| `Fetch.QualifyingMembers` | bot15.js:86 | a toot is kept from a page exactly when it is a non-null entry of the page created at or after the cutoff |
| `Fetch.NextRequestCarriesLastId` | bot15.js:76-78 | with `MaxIdParam` and `Cursor` (line 89): after a page, the next request carries the id of the page's last qualifying toot, and no `max_id` when the page kept no toot or that id is empty |
| `Fetch.TraceStep` | bot15.js:76-89 | each next request follows a full page and carries the id of that page's last kept toot; its toots are appended after those already collected |
| `Fetch.TraceShape` | bot15.js:71-89 | a request sequence of the loop starts with a request without `max_id`, and every request but the last brought a full page |
| `Fetch.Advance` | bot15.js:76-89 | after a full page, the loop state (requests sent, toots collected, `maxId`) is again that of a valid request sequence, with `maxId` the id of the page's last kept toot |
| `Fetch.FetchToots` | bot15.js:64-105 | the first request has no `max_id`, and each later one follows a full page and carries that page's last id. The result is the concatenation, in request order, of every page's toots at or after the cutoff. The loop stops at the first page with fewer than 40 such toots, at a non-array response (keeping what it has), or at a rejected request (returning nothing) |
| `Fetch.CollectedAfterCutoff` | bot15.js:86 | every fetched toot was created at or after the cutoff |
| `Fetch.CollectedFromFullTrace` | bot15.js:92-94 | when every request of a sequence brought a full page, the sequence collected at least 40 toots per request |
| `Fetch.CollectedAtLeastFullPages` | bot15.js:92-94 | n requests collect at least 40·(n−1) toots |
| `Usage.CalculateSumOfUses` | bot15.js:181-195 | the loop computes `SumOfUses` (the fold `UsesTotal` over the history): it returns 0 for a missing history; otherwise it adds `parseInt(uses)` over the non-null entries with a truthy `uses`, in order |
| `Usage.UsesTotalAppend` | bot15.js:188-192 | the total of two stretches of history is the sum of their totals |
| `Usage.UsesTotalNaN` | bot15.js:190 | the total is NaN exactly when some counted entry's `uses` does not start with a digit |
| `Usage.UncountedEntriesAddNothing` | bot15.js:189 | null entries and entries without `uses` leave the total unchanged |
| `Usage.UsesTotalOfWrittenCounts` | bot15.js:188-192 | a history whose counts were written as decimal strings totals the sum of those counts |
| `Digest.TootLinkParts` | bot15.js:131 | `generateTootLink` (`TootLink`): the permalink is `https://ursal.zone/web/statuses/` followed by exactly the status id |
| `Digest.TootLinkInjective` | bot15.js:131 | distinct statuses get distinct permalinks |
| `Digest.ParseScoreText` | bot15.js:171 | the score printed in a block reads back as the score itself |
| `Digest.ScoreTextInjective` | bot15.js:171 | distinct scores are printed differently |
| `Digest.Shown` | bot15.js:136 | the digest shows min(5, n) toots |
| `Digest.GenerateTootText` | bot15.js:133-178 | null exactly when the hashtag is empty or the toot list is missing or empty |
| `Digest.DigestOpensWithTitle` | bot15.js:158-160 | a non-null digest opens with `Tag do dia: #<hashtag>` and then the weekly usage line |
| `Digest.OrUnknown` | bot15.js:161-162 | with its `'unknown'` fallback, a usage field never prints as an empty string |
| `Digest.DigestShowsTodayUsage` | bot15.js:161-162 | right after the title and the weekly line (part of `Header`), the digest reads `Participantes: ` with today's `accounts` and `Posts hoje: ` with today's `uses`, each `unknown` when absent or empty |
| `Digest.MissingHistoryShowsUnknown` | bot15.js:161-162 | with no history entry for today, the digest reads `Participantes: unknown` and `Posts hoje: unknown` |
| `Digest.PostBlockLayout` | bot15.js:166-173 | each post block (`PostBlock`) opens with `Publicado por <username>` and ends with the permalink line |
| `Digest.DigestUsesOnlyFirstFive` | bot15.js:136 | toots after the fifth do not change the digest |
| `Digest.DigestShowsPost` | bot15.js:164-173 | the block of the i-th toot, for each i below min(5, n), stands right after the header and the blocks of the toots before it |
| `Digest.DigestEndsWithLastLink` | bot15.js:172 | a digest ends with the permalink line of the last toot it shows |
| `Digest.DigestNotBlank` | bot15.js:159 | a non-null digest is never blank |
| `Sequences.Map` | bot15.js:139 | `map` returns one result per element, the i-th being the function applied to the i-th element |
| `Publish.CreateToot` | bot15.js:209-219 | null throws at the `.length` read; a non-string throws; a text that trims to nothing throws, all before any request. Any other text yields one public, non-sensitive `pt` status carrying exactly that text |
| `Publish.BlankTextsRefused` | bot15.js:217-219 | `""`, `"   "` and `" \n\t"` are refused before any request |
| `Pipeline.HashtagOfDay` | bot15.js:16-24 | each weekday has a non-empty hashtag, different from every other weekday's |
| `Pipeline.TodaysTootsSpec` | bot15.js:256-259 | today's list (`TodaysToots`) is ranked. It holds exactly the scored toots whose author is not denylisted and whose day is today |
| `Pipeline.DailyDigest` | bot15.js:253-260 | the day's digest is null exactly when no toot is left after ranking and filtering |
| `Pipeline.DigestShowsBestRanked` | bot15.js:256-260 | no toot left out of the digest scores higher than a toot shown |
| `Pipeline.DigestAcceptedForPosting` | bot15.js:253-275 | a digest, when there is one, passes `createToot`'s checks; with no digest, answering yes throws before any request |

## Findings

| source | as written | input that shows it | evidently intended | confidence | as-written member | corrected member |
|---|---|---|---|---|---|---|
| bot15.js:198-206 | `calculateRelevance` returns null for a toot without an account id, and the null stays in the list. The comparator at line 200 (two or more toots) or the username read at line 205 (one toot) reads a property of null, and the run throws | a fetched toot whose `account` is missing, e.g. `Toot("1", 0, 0, 0, None)` | skip such toots; the warning at line 34 says the toot is being ignored | high; not executed | `Toots.RankAsWritten` (with `Toots.AccountlessTootCrashesRanking`) | `Toots.SortTootsByRelevance` |

The rest of the model (`Pipeline.TodaysToots`, the digest) uses the corrected ranking.

## Left out

- Mastodon client and every network call: the timeline endpoint is a function parameter, and the usage history is a value parameter. Posting itself and the check of its response (lines 221-245) are left out, because they depend on the server.
- `dotenv` configuration and environment variables: these are process configuration.
- `moment-timezone`: `todayTimestamp` is a parameter, and the calendar day of a timestamp is the parameter `dayOf`. `new Date().getDay()` and `toISOString` in `main` become the parameters `weekday` and `today`.
- JavaScript numbers are doubles: counts, scores and the weekly total are exact only below 2^53. The model uses unbounded integers.
- Floating point: scores are whole tenths. Printing them assumes JavaScript prints `k / 10` in its shortest decimal form.
- `async` and `Promise.all`: they are modelled as sequential `map`, because nothing runs concurrently in the data flow.
- The readline prompt, `main`'s wiring after the digest (lines 262-276), the final `main()` call, and all `console` logging.
- `sortTootsByRelevance` is declared twice; the definition at line 198 shadows the one at line 58. Both behave the same and are modelled once.
- FetchToots: the source loop has no bound. The model takes a page budget `maxPages` and reports `PageBudget` when the budget runs out, so a server that sends full pages forever is not modelled.
- FetchToots: the `progress` counter is left out, because it is only logged and always equals `toots.length`.
- FetchToots: when a request is rejected the source rethrows; the model returns no toots and `Failed`.
- CalculateRelevance: the `try`/`catch` is left out, because with numeric counts nothing in it can throw.
- ParseInt: leading whitespace, signs and `0x` prefixes are not modelled, because the server sends plain decimal strings.
- GenerateTootText: the destructuring defaults for a missing account, count or score are left out. In the model a scored toot always has an account, counts and a score.
- GenerateTootText: the source fetches the history twice, once for the first entry and once for the sum. The model reads both from one history value.
- GenerateTootText: strings are sequences of Unicode code points, not UTF-16 units. No modelled behaviour depends on string lengths.
- RankAsWritten: for a one-toot list the source throws in `removeIgnoredToots` instead of in the sort. Both are modelled as the same failure.
