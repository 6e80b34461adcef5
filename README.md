# Disaster Preparedness Hub: a verified model of the poll and chat core

The repository holds two separate versions of one classroom widget. Students log in, vote for the social
media platforms they find most useful in a disaster, see the ranked results and chat. This project models
both versions side by side. It does not reconcile them.

- **The single-file version** (`app.js`) has eight platforms with string ids. It keeps the current
  user's votes in a `Map` (`state.votes`) and stores one shared list of `{platformId, userId, timestamp}`
  records under `dph_votes`. Counts, totals, unique voters and rounded percentages come from that list. A
  ranked results list comes from a stable descending sort. The chat log rejects empty, anonymous and
  over-long messages, and relative times are shown as "Just now", "Nm ago", "Nh ago" or "Nd ago". Modules
  `AppLedger` (values and tallies) and `App` (the page state as a class `Hub`).
- **The multi-file version** (`config.js`, `js/*.js`, `ui.js`) has six platforms with numeric ids 1..6. It
  keeps a set `userVotes` of the current user's votes and a counter per platform in `allVotes`. It also
  has a ranking and statistics, a chat log stored under `disasterPrep_messages` with three welcome
  messages on a first visit, login with name-length checks, guest login, logout, and the formatting
  helpers of `ui.js`. Modules `Config` (catalog, limits, the state class `AppState`), `Voting`, `Chat`,
  `Auth` and `Ui`.
- **Shared modules** model what both versions use the same way:
  - `JsText`: `trim`, `indexOf` and integer `toString`.
  - `Markup`: `escapeHtml` and the URL-linking `replace`. Both versions carry the same code. The model
    keeps it as written and beside it a corrected twin that quote-escapes the `href` value.
  - `Ranking`: `Array.prototype.sort`, which is stable, with a descending comparator.
  - `Common`: `Option` and `Slot`. A `Slot` is a storage key that is absent, holds malformed JSON, or
    holds a value.

Storage is a set of fields on the state objects. Clocks, generated ids, `confirm()` answers and
`navigator` values are parameters.

Two source defects are recorded under "## Findings". For each, the model keeps the code as written next
to a corrected version: `App.Hub.LoginUserAsWritten` beside `App.Hub.LoginUser`, and
`Markup.FormatMessageContent` (anchors built by `Markup.Anchor`) beside `Markup.SafeFormatMessageContent`
(anchors built by `Markup.SafeAnchor`). The page state `App.Hub` logs in through the corrected
`loginUser`; the linking properties of `Markup` are proved for both anchors.

## Model

| member | source | states |
|---|---|---|
| `AppLedger.CatalogIdsDistinct` | app.js:8-17 | no two catalog platforms share an id |
| `AppLedger.VoteCount` | app.js:281-284 | the number of stored records for a platform; at most the list length, and zero exactly when no record names that platform |
| `AppLedger.UserIds` | app.js:318-322 | the set of user ids holds exactly the ids that occur in some stored record |
| `AppLedger.UniqueVoters` | app.js:318-322 | a non-empty list has at least one voter |
| `AppLedger.UniqueVotersAtMostTotal` | app.js:314-322 | the number of distinct voters never exceeds the number of stored records |
| `AppLedger.OccurrencesDistinct` | app.js:8-17 | an id occurs once in a list of distinct ids if it is in the list, otherwise not at all |
| `AppLedger.SumCountsCons` | app.js:281-284 | adding one record to the list raises the summed per-platform counts by the occurrences of its platform |
| `AppLedger.CountsSumToTotal` | app.js:281-284 | when every record names a catalog platform, the per-platform counts add up to the total |
| `AppLedger.Percentage` | app.js:309-312 | 0 when the total is 0; otherwise `Math.round(count / total * 100)` as the integer r with r - 1/2 <= 100·count/total < r + 1/2 |
| `AppLedger.PercentageBounds` | app.js:309-312 | a count within the total gives a percentage of at most 100, and exactly 100 when count == total > 0 |
| `AppLedger.TallyRounding` | app.js:375-381 | every result's percentage is its count's share of the total rounded to the nearest integer: 2·p·total <= 200·count + total < 2·p·total + 2·total |
| `AppLedger.SumVotesTally` | app.js:375-381 | the results' counts from position k on are the counts of the catalog ids from k on |
| `AppLedger.TallyCountsAddUp` | app.js:375-381 | when every record names a catalog platform, the results' counts add up to `getTotalVotes` |
| `AppLedger.PercentageSumBounds` | app.js:309-312 | summing the per-result rounding bounds over a list of results bounds the sum of their percentages |
| `AppLedger.RoundedSumBounds` | app.js:309-312 | n shares of a whole, each rounded to the nearest integer, add up to more than 100 - n/2 and at most 100 + n/2 |
| `AppLedger.TallyPercentagesAddUp` | app.js:375-381 | with at least one vote, all for catalog platforms, the shown percentages add up to more than 100 - 8/2 and at most 100 + 8/2 |
| `AppLedger.Results` | app.js:375-386 | one result per catalog platform |
| `AppLedger.ResultsRanked` | app.js:375-386 | the results keep every catalog entry, sorted by non-increasing count, with ties in catalog order; every percentage is at most 100 |
| `AppLedger.KeysIndex` | app.js:28 | the platforms of the vote map are exactly those that some entry names |
| `AppLedger.Lookup` | app.js:264 | `Map.has` / `Map.get`: none exactly when the key is missing, otherwise an entry with that key |
| `AppLedger.RemoveKey` | app.js:265 | `Map.delete`: the key goes, every other key stays, and every other lookup is unchanged |
| `AppLedger.RemoveKeyDistinct` | app.js:265 | deleting from a map with distinct keys leaves distinct keys |
| `AppLedger.SetKey` | app.js:268-271 | `Map.set`: the key is present with the new value and every other lookup is unchanged |
| `AppLedger.SetKeyAppends` | app.js:268-271 | setting a new key appends the entry at the end, as a `Map` keeps insertion order |
| `AppLedger.SetKeyDistinct` | app.js:268-271 | setting a key keeps the keys distinct |
| `AppLedger.Toggled` | app.js:264-273 | a present platform is removed and an absent one added; every other platform's entry is unchanged |
| `AppLedger.ToggledOwned` | app.js:268-271 | toggling with the current user's record keeps every entry the user's |
| `AppLedger.RemoveKeyOwned` | app.js:265 | removing a key keeps every entry the user's |
| `AppLedger.ToggleTwiceFromAbsent` | app.js:264-273 | toggling an absent platform twice restores the map exactly |
| `AppLedger.RemoveAppended` | app.js:265-271 | deleting the entry just appended restores the map |
| `AppLedger.ToggleTwiceFromPresent` | app.js:264-273 | toggling a present platform twice restores the key set and every other entry; the platform comes back with the new timestamp |
| `AppLedger.LoadedVotes` | app.js:507-516 | loading records into the map adds exactly their platforms and keeps keys distinct |
| `AppLedger.LoadedVotesStep` | app.js:511-514 | one more iteration of the loop sets one more record into the map |
| `AppLedger.LoadedVotesOwned` | app.js:507-516 | loading the user's own records keeps every entry the user's |
| `AppLedger.SetKeyOwned` | app.js:511-514 | setting the user's record keeps every entry the user's |
| `AppLedger.LoadedVotesFromEmpty` | app.js:507-516 | loading records with distinct platforms into an empty map gives those records in order |
| `AppLedger.Mine` | app.js:509 | the filter keeps only the user's records |
| `AppLedger.Others` | app.js:295 | the filter keeps only other users' records |
| `AppLedger.FiltersAppend` | app.js:295 | both filters distribute over concatenation |
| `AppLedger.FiltersOwned` | app.js:295-304 | a map holding only the user's entries is all "mine" and nothing "others" |
| `AppLedger.OthersIdempotent` | app.js:295 | filtering out a user twice is filtering once, and leaves none of that user's records |
| `AppLedger.SavedVotes` | app.js:291-307 | the saved list's other-user records are the old ones followed by the map's, and its records of the user are exactly the map's |
| `AppLedger.SavedVotesSplit` | app.js:291-307 | after saving, the other users' records are exactly the old ones in their order, and the user's records are exactly the map's entries |
| `AppLedger.SavedVoteCount` | app.js:281-307 | after saving, a platform's count is the other users' count plus one if the user's map holds it |
| `AppLedger.VoteCountAppend` | app.js:281-284 | counts add over concatenated lists |
| `AppLedger.VoteCountDistinct` | app.js:281-284 | a map with distinct keys counts each of its platforms once |
| `AppLedger.PairCountAppend` | app.js:291-307 | per user and platform, counts add over concatenated lists |
| `AppLedger.PairCountOthers` | app.js:295 | filtering out a user zeroes that user's counts and keeps everyone else's |
| `AppLedger.PairCountOwned` | app.js:298-304 | the user's map contributes one record per platform it holds |
| `AppLedger.SaveKeepsOnePerPair` | app.js:291-307 | saving a map of the user's own entries keeps at most one stored record per user and platform |
| `AppLedger.StaleEntrySavedTwice` | app.js:144-163 | as written, a map left over from the previous user is saved under the next user, so one vote is stored and counted twice |
| `AppLedger.FreshEntriesSavedOnce` | app.js:144-154 | corrected: the same two votes are stored once each, and every user and platform pair occurs once |
| `AppLedger.MineOthersPartition` | app.js:295 | the user's and the other users' records together are the stored list, as multisets |
| `AppLedger.MinePairCounts` | app.js:509 | a platform's count among the user's records is the user's count for it |
| `AppLedger.OnePerPairMineDistinct` | app.js:507-516 | with one record per user and platform, the user's records have distinct platforms |
| `AppLedger.CountTwo` | app.js:281-284 | two records for one platform count at least 2 |
| `AppLedger.LoadThenSave` | app.js:291-307 | loading a user's votes and saving them again leaves the stored list the same multiset |
| `App.Hub.constructor` | app.js:26-31 | the page starts logged out, with an empty map and log, over the given storage |
| `App.Hub.LoadStoredData` | app.js:495-528 | a stored user is restored; that user's records are loaded into the map; the stored log replaces the log, a malformed one empties it, a missing one keeps it |
| `App.Hub.LoadUserVotes` | app.js:507-516 | the loop sets one entry per stored record of the user, giving `LoadedVotes` |
| `App.Hub.HandleLogin` | app.js:106-131 | an empty trimmed name, then an empty section, is refused with nothing changed; otherwise the trimmed name is logged in and stored, with that user's stored votes loaded (corrected `loginUser`) |
| `App.Hub.LoginAsGuest` | app.js:133-142 | logs in user "Guest", section "Guest", not CoMSAI, through the corrected `loginUser`: the map is replaced by Guest's stored votes |
| `App.Hub.LoginUserAsWritten` | app.js:144-154 | as written: sets and stores the user and leaves the vote map alone |
| `App.Hub.LoginUser` | app.js:144-154 | corrected: sets and stores the user and replaces the map by that user's stored votes, so the map belongs to the user |
| `App.Hub.Logout` | app.js:156-163 | a confirmed logout clears and unstores the user; a declined one changes nothing; accepted from any state with distinct map keys, including a map left over from the previous user |
| `App.Hub.ToggleVote` | app.js:258-279 | with no user nothing changes; otherwise the map is toggled, the toast tells which way and the stored list is re-saved; the map keeps distinct keys from any state, and the map belonging to the user and one record per user and platform are kept when they held before |
| `App.Hub.SaveVotes` | app.js:291-307 | the loop drops the user's stored records and appends one per map entry, giving `SavedVotes` |
| `App.Hub.SendMessage` | app.js:448-476 | empty trimmed input, then no user, then more than 200 characters is refused with nothing changed; otherwise exactly one message with the trimmed content is appended and the log stored |
| `App.Hub.SaveMessages` | app.js:487-489 | the stored log becomes the current log |
| `App.StaleVotesAfterRelogin` | app.js:144-163 | as written, on the page: Ana votes facebook, logs out, Ben logs in, votes twitter and logs out; the stored list holds Ana's facebook record twice and facebook counts 2 |
| `App.FreshVotesAfterRelogin` | app.js:144-154 | the same steps with the corrected `loginUser` store each vote once |
| `App.LoadedUserMap` | app.js:507-516 | the map loaded from the user's own records has distinct keys and only the user's entries |
| `App.ToggledValid` | app.js:264-273 | a toggle with the user's record keeps keys distinct and entries the user's |
| `App.FormatTime` | app.js:543-559 | "Just now" exactly under one minute, future times included; minutes below one hour, hours below one day, days below seven days, each a whole amount of at least 1 rounded down; the calendar date from seven days on |
| `App.LabelText` | app.js:550-558 | a text is shown for every label except the calendar date |
| `App.LabelTextReadsBack` | app.js:550-556 | the label text is the amount's digits, which read back as the amount, then the unit letter `m`, `h` or `d`, then " ago" |
| `Config.CatalogIds` | config.js:11-18 | the catalog has six platforms with ids 1 to 6 in order |
| `Config.PlatformIds` | config.js:11-18 | the i-th id is the id of the i-th catalog platform, which is i + 1 |
| `Config.IdSet` | config.js:11-18 | an id is in the set exactly when some catalog platform has it, and those ids are 1 to 6 |
| `Config.CatalogIdsDistinct` | config.js:11-18 | catalog ids are pairwise distinct |
| `Config.GetPlatformById` | config.js:76-78 | the first catalog entry with that id, or none exactly when no entry has it |
| `Config.FindFrom` | config.js:76-78 | the `find` scan from position k: the first match at or after k, or none exactly when there is none |
| `Config.GetPlatformName` | config.js:81-84 | that platform's name for ids 1..6, "Unknown" otherwise |
| `Config.AppState.constructor` | config.js:56-63 | the state starts logged out with no votes, counters, users or messages |
| `Config.InitializeVotes` | config.js:66-73 | every catalog counter becomes 0 and other keys are untouched; from a fresh state the counters agree with the votes |
| `Voting.SumOverBump` | js/voting.js:44-51 | moving one counter moves a sum over distinct ids by the same amount when the id is among them |
| `Voting.Total` | js/voting.js:63 | counters that are never negative give a total that is not negative |
| `Voting.SumOverNonNegative` | js/voting.js:63 | a sum of counters that are never negative is not negative |
| `Voting.TotalBump` | js/voting.js:44-51 | raising or lowering a catalog counter by d changes the displayed total by d |
| `Voting.SumOverZero` | config.js:66-73 | zero counters sum to zero |
| `Voting.InitialTotal` | config.js:66-73 | after `initializeVotes` the total is 0 |
| `Voting.Elems` | js/voting.js:63 | the set of ids in a list |
| `Voting.SumOverAtLeast` | js/voting.js:63 | non-negative counters sum to at least the number of voted ids, when each voted id counts at least 1 |
| `Voting.TotalAtLeastUserVotes` | js/voting.js:63-66 | while the counters agree with the votes, the total is at least the user's own vote count |
| `Voting.CountersNonNegative` | js/voting.js:41-53 | agreeing counters are non-negative along the catalog |
| `Voting.CatalogCovers` | config.js:11-18 | every voted id is a catalog id |
| `Voting.ToggleVote` | js/voting.js:36-57 | checked and not voted adds the vote and raises that counter by 1; unchecked and voted removes it and lowers the counter by 1; otherwise nothing changes; no other counter changes; the counters keep agreeing with the votes; the toast follows the checkbox |
| `Voting.ToggleKeepsAgreement` | js/voting.js:41-53 | both changes keep every counter non-negative and every voted counter at least 1 |
| `Voting.RankedPlatforms` | js/voting.js:102 | the ranking lists as many platforms as the catalog |
| `Voting.RankedPlatformsOrder` | js/voting.js:102 | the ranking is a permutation of the catalog by non-increasing counter, with ties in catalog order |
| `Voting.TopIndex` | js/voting.js:134-136 | the `reduce` ends on a maximal counter, the first such in catalog order |
| `Voting.GetVotingStats` | js/voting.js:132-149 | the total is the counter sum; the participant and own-vote counts are the set sizes; the top platform is the first with a maximal counter; one entry per catalog platform in catalog order |
| `Chat.WelcomeMessages` | js/chat.js:91-119 | three system messages with user id "system", stamped exactly 120000 ms before now, 60000 ms before now and now; the first two from "🤖 System" with the activation and public-chat notices, the third from "💡 Tip" with the sharing tip |
| `Chat.LoadedLog` | js/chat.js:83-128 | the log after loading is the stored list, the welcome messages, or empty; empty when storage is unavailable |
| `Chat.StoredAfterLoad` | js/chat.js:83-128 | after a load, a reload shows the same log, whatever welcome messages it would generate: a first visit stores its welcome messages |
| `Chat.LoadInitialMessages` | js/chat.js:83-133 | a stored log is used, a first visit seeds and stores the welcome messages, and a parse or storage error leaves an empty log |
| `Chat.SaveMessagesToStorage` | js/chat.js:138-145 | stores the log when storage works; otherwise storage is unchanged |
| `Chat.SendMessage` | js/chat.js:8-48 | empty trimmed input is ignored, and over 200 characters is refused, both with nothing changed; otherwise exactly one message of the current user with the trimmed content is appended and stored, earlier messages unchanged |
| `Chat.ClearChat` | js/chat.js:176-194 | declined changes nothing; confirmed empties the log and removes the storage key |
| `Auth.CheckLogin` | js/auth.js:25-40 | refused when the name or section is empty, then when the name is shorter than 2, then when longer than 50; lengths 2 to 50 are accepted |
| `Auth.Login` | js/auth.js:16-62 | a refused login changes nothing; a successful one sets the user with the trimmed name, adds the name to `allUsers`, and reloads the chat log |
| `Auth.EnterApp` | js/auth.js:43-58 | the accepted user becomes the current user, the name joins `allUsers`, and the chat log is reloaded as `loadInitialMessages` leaves it |
| `Auth.LoginAsGuest` | js/auth.js:67-81 | sets "Guest User", section "Guest", not CoMSAI, and adds "Guest User" to `allUsers` |
| `Auth.Logout` | js/auth.js:86-95 | a confirmed logout clears the user and the user's votes, leaving counters and users alone; declined changes nothing; the counters keep agreeing |
| `Auth.UserBadge` | js/auth.js:138-146 | "✓ CoMSai Student" exactly for CoMSAI users whatever the section, else "Guest Mode" for section "Guest", else "CS Student" |
| `Auth.SectionLabel` | js/auth.js:133-135 | shows "Guest Mode" for section "Guest" and the section itself otherwise |
| `JsText.TrimStart` | app.js:452 | removes exactly the leading white space |
| `JsText.TrimEnd` | app.js:452 | removes exactly the trailing white space |
| `JsText.Trim` | app.js:452 | the result sits inside the input with only white space around it and starts and ends with a non-space |
| `JsText.TrimEmptyIff` | app.js:454 | trimming gives the empty string exactly when the input is all white space |
| `JsText.Decimal` | ui.js:145 | `toString` of a natural number: non-empty digits without a leading zero |
| `JsText.ParseDecimalOfDecimal` | ui.js:145 | the printed digits read back as the number |
| `JsText.DecimalLength` | ui.js:145 | a number has at most k digits exactly when it is below 10^k |
| `JsText.IndexOfFrom` | ui.js:229-232 | `indexOf` from a position: the first occurrence at or after it, or -1 when none |
| `JsText.IndexOf` | ui.js:229-232 | -1 exactly when the word occurs nowhere, otherwise an occurrence |
| `Markup.EscapeHtml` | js/chat.js:199-203 | the escaped text is at least as long and contains no `<` or `>` |
| `Markup.UnescapeHead` | js/chat.js:199-203 | one escaped character reads back as itself |
| `Markup.UnescapeEscape` | js/chat.js:199-203 | escaping loses nothing: reading the references back gives the text |
| `Markup.EscapePrefix` | js/chat.js:199-203 | a `&`-free word at the start of the escaped text starts the text |
| `Markup.EscapeOccurrence` | js/chat.js:150-160 | escaping never creates an `http://` or `https://` |
| `Markup.SchemeLength` | js/chat.js:154 | the scheme at the start is 8, 7 or 0 characters |
| `Markup.RunEnd` | js/chat.js:154 | the longest run of non-white-space from a position |
| `Markup.Anchor` | app.js:538-540 | as written: the anchor starts `<a href="` and is longer than twice the URL it wraps |
| `Markup.SafeAnchor` | app.js:538-540 | corrected: the anchor starts `<a href="` and is longer than twice the URL it wraps |
| `Markup.LinkMarkup` | app.js:538-540 | the markup for one match is longer than twice the match |
| `Markup.QuoteEscape` | app.js:538-540 | no `"` is left in the escaped value |
| `Markup.UpToQuote` | app.js:538-540 | the longest quote-free prefix, stopped by a quote or the end |
| `Markup.UpToQuoteOf` | app.js:538-540 | a quote-free value followed by a quote reads back as that value |
| `Markup.EscapeIdentity` | app.js:530-534 | text without `&`, `<`, `>` or no-break space is escaped unchanged |
| `Markup.HrefValueOfAnchor` | app.js:538-540 | as written, the `href` of an anchor ends at the URL's first quote |
| `Markup.QuotedUrlIsOneMatch` | app.js:536-541 | the sample message escapes to itself and is one whole URL match |
| `Markup.WholeUrlRendersAsOneAnchor` | js/chat.js:150-160 | a message that escapes to itself and is one whole URL match renders as the single anchor around it |
| `Markup.QuoteEndsHrefEarly` | js/chat.js:150-160 | as written, the sample message renders as one anchor whose `href` ends after `http://x`, so the rest becomes attributes |
| `Markup.SafeQuotedUrlKeepsHref` | js/chat.js:150-160 | corrected, the sample message renders as one anchor whose `href` is the whole quote-escaped URL |
| `Markup.SafeHrefIsWholeUrl` | app.js:538-540 | corrected: the `href` value is the whole quote-escaped URL |
| `Markup.UrlFreeTail` | js/chat.js:154-158 | a URL-free text stays URL-free without its first character |
| `Markup.LinkifyUrls` | app.js:536-541 | linking never shortens the text, with either anchor |
| `Markup.LinkifyUrlFree` | js/chat.js:154-158 | text with no URL comes back unchanged, as written and corrected |
| `Markup.LinkifyLength` | js/chat.js:154-158 | linking lengthens the text when there is a URL, as written and corrected |
| `Markup.LinkifyIdentityIff` | js/chat.js:154-158 | the text is unchanged exactly when no position starts a URL, as written and corrected |
| `Markup.EscapeKeepsUrlFree` | js/chat.js:150-160 | escaped text with no scheme in it has no URL |
| `Markup.FormatMessageContent` | js/chat.js:150-160 | as written: the rendered message is never shorter than the message |
| `Markup.SafeFormatMessageContent` | js/chat.js:150-160 | corrected: the rendered message is never shorter than the message |
| `Markup.FormatWithoutScheme` | js/chat.js:150-160 | content naming no `http://` or `https://` renders as just its escaped text, as written and corrected |
| `Markup.NoLtOnlyAnchorTags` | js/chat.js:150-160 | text without `<` contains no tag |
| `Markup.OnlyAnchorTagsAppend` | js/chat.js:150-160 | joining two pieces whose tags are all anchor tags gives no other tag |
| `Markup.QuoteEscapeNoLt` | app.js:538-540 | quote-escaping adds no `<` |
| `Markup.LinkMarkupTags` | app.js:538-540 | an anchor around a URL without `<` has no tag but its opening `<a href="` and closing `</a>` |
| `Markup.LinkifyTags` | js/chat.js:154-158 | linking text without `<` adds only anchor tags, as written and corrected |
| `Markup.RenderedTagsAreAnchors` | js/chat.js:150-160 | every `<` of a rendered message, as written or corrected, opens or closes an inserted anchor: a typed tag is shown as text |
| `Ranking.Insert` | app.js:383 | inserting gives one more element: the old elements and the inserted one, each as often as before |
| `Ranking.SortDesc` | app.js:383 | the sort keeps the length |
| `Ranking.InsertSorted` | app.js:383 | inserting into a list sorted by non-increasing key keeps it sorted |
| `Ranking.SortDescSorted` | app.js:383 | the sorted list is a permutation by non-increasing key |
| `Ranking.WithKeyAppend` | app.js:383 | the entries with one key distribute over concatenation |
| `Ranking.WithKeyCons` | app.js:383 | the entries with one key of a list with a head |
| `Ranking.InsertStable` | app.js:383 | the inserted element goes before the entries with an equal key, which come later in the input |
| `Ranking.SortDescStable` | app.js:383 | the sort is stable: entries with equal keys keep their input order |
| `Ui.StripCommasAppend` | ui.js:145 | deleting commas distributes over concatenation |
| `Ui.StripCommasDigits` | ui.js:145 | a digit string has no comma to delete |
| `Ui.GroupedAppend` | ui.js:145 | a grouped string, a comma and three digits is grouped |
| `Ui.StripCommaJoin` | ui.js:145 | the joining comma is the only one removed |
| `Ui.Group` | ui.js:145 | a non-empty digit string gains one comma per full group of three digits after the first, and keeps its first digit |
| `Ui.GroupShape` | ui.js:145 | grouping a digit string puts a comma before every three digits from the right, not at the start, and loses no digit |
| `Ui.FormatNumberDigits` | ui.js:144-146 | without its commas the result is the number's digits, with the minus sign kept for negatives; every comma is followed by three digits; numbers below 1000 are unchanged |
| `Ui.FormatNumber` | ui.js:144-146 | the result is non-empty and starts with `-` exactly for negative numbers |
| `Ui.GetUserColor` | ui.js:180-187 | success exactly for CoMSAI users, which wins over the section; secondary for section "Guest"; primary otherwise |
| `Ui.GetBrowserInfo` | ui.js:225-239 | the first of Firefox, Chrome, Safari, Edge that the user agent mentions, "Unknown" when none; platform and language passed through |

## Left out

- DOM rendering, toasts, screen changes, navigation, keyboard shortcuts, alerts, the `animateValue` timer
  and `updateStatElement`. They are presentation only.
- `js/welcome.js` is not part of this model. It is animation and random particles.
- `localStorage` and JSON. Storage is a field per key holding a value, nothing, or a malformed value. A
  value that parses to something other than the expected shape is not modelled. `getAllVotes` in
  `app.js:286-289` does not guard `JSON.parse`, and the model does not give it a parse-failure path.
- Clocks, locale time strings and generated ids are parameters. The `toLocaleDateString` branch of
  `formatTime` is the label `CalendarDate`, and its text is not modelled.
- `App.FormatTime` takes the elapsed milliseconds as an integer. It does not model `new Date` parsing or
  an invalid timestamp, which gives `NaN`.
- Floating-point percentages of the multi-file version (`toFixed(1)` and bar widths) are left out, and
  only counts are modelled. `AppLedger.Percentage` is the exact rational rounding of `Math.round`. It
  does not model floating-point error in `voteCount / total * 100`.
- Lengths are counted in code points. JavaScript counts UTF-16 code units, so a message or name with
  characters outside the Basic Multilingual Plane is longer in the source than here.
- `Ui.FormatNumberDigits` covers integers only. `toString` of non-integers and of numbers from 1e21 on
  (exponent notation) is not modelled.
- `Voting.Total` sums the counters of the catalog ids. The source sums every value of `allVotes`. The two
  agree while the counter keys are exactly the catalog ids, which `initializeVotes` establishes and the
  model keeps.
- `Chat.SendMessage` and `Auth.Logout` require a logged-in user where the source reads
  `APP_STATE.currentUser.name` unchecked, which throws `TypeError` without one. That path is not
  modelled.
- `App.Hub.LoginAsGuest` calls the corrected `loginUser`, as `App.Hub.HandleLogin` does. The source's
  `loginAsGuest` goes through the as-written `loginUser` and so keeps `state.votes`. That path is the
  first finding, shown by `App.StaleVotesAfterRelogin`.
- `Chat.SendMessage` gives a sent message `isSystemMessage` false. In the source the property is absent.
- `Auth.Login`, `Auth.LoginAsGuest` and `Auth.EnterApp` take the welcome messages as a ghost parameter
  fixed by their precondition. The log that `showApp` loads is stated through it.
- `exportResults` and `downloadFile` are file downloads through the DOM. Several tabs writing the same
  storage are concurrency, out of scope.

## Findings

| source | as written | input that shows it | evidently intended | confidence | as-written member | corrected member |
|---|---|---|---|---|---|---|
| app.js:144-163 | `loginUser` sets the new user but keeps `state.votes`, and `logout` does not clear it, so the next `saveVotes` stores the previous user's entries under the new user's save | "Ana" votes facebook and logs out; "Ben" logs in and votes twitter: the stored list holds Ana's facebook record twice and facebook counts 2 | the map is replaced by the new user's stored votes at login | not executed | `App.Hub.LoginUserAsWritten`, `App.StaleVotesAfterRelogin`, `AppLedger.StaleEntrySavedTwice` | `App.Hub.LoginUser`, `App.FreshVotesAfterRelogin`, `AppLedger.SaveKeepsOnePerPair` |
| app.js:536-541, js/chat.js:150-160 | `escapeHtml` leaves `"` alone and the link callback puts the URL inside `href="…"`, so a quote in a URL ends the attribute | the message `http://x"onclick="alert(1)` becomes an anchor whose `href` is `http://x` and which gets an `onclick` attribute | the URL is quote-escaped inside the attribute value | not executed | `Markup.FormatMessageContent`, `Markup.QuoteEndsHrefEarly` | `Markup.SafeFormatMessageContent`, `Markup.SafeQuotedUrlKeepsHref` |
