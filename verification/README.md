# grow100x core, modelled in Dafny

grow100x is a dashboard for an X (Twitter) account. Its figures come from one of two sources:

- an analytics CSV export;
- the X API's tweet list.

Either source is turned into the same views:

- per-day impressions and engagement charts;
- the top posts;
- a per-hook performance rollup, where the "hook" is the opening style a post is classified by;
- a fixed set of insight cards.

Around these the app keeps a feedback log per skill, tracks a monetisation goal, and handles the
CSV file list. It also holds the PKCE values of its OAuth login.

This project models that logic as pure Dafny functions and proves what the code promises about it.

| module | models |
|---|---|
| `Wrappers` | `Option` and `Result` |
| `Text` | `trim`, `toLowerCase` (ASCII), `includes`, `startsWith`/`endsWith`, `toString` and `parseInt(s, 10)` |
| `Lists` | `filter`, the stable numeric-comparator `sort` (both directions), `slice`, `reverse`, sums |
| `Dates` | the date library and wall clock as a `Clock` record of functions; `formatRelativeDate` |
| `Helpers` | `src/utils/helpers.js`: hook classifier, engagement rate, trend, truncation, number tier, colour tables |
| `Series` | the `byDate` grouping shared by the CSV and API transforms, and the API's fixed day window |
| `HookRollup` | the per-hook rollup shared by `calculateCSVHookPerformance` and `calculateHookPerformance` |
| `Posts` | content type by length, and the filter-sort-slice ranking of the top posts |
| `CsvText` | `parseCSVLine` and `parseCSV` |
| `CsvAnalytics` | `transformCSVToAnalytics`, `transformCSVToTopPosts`, `calculateCSVHookPerformance`, `mergeCSVData`, `recalculateFromTweets` |
| `XApi` | the pure transforms of `src/services/xApi.js` |
| `Pkce` | `src/utils/pkce.js`: base64url encoding, session-store handling, state check |
| `Feedback` | `src/hooks/useFeedback.js` |
| `Insights` | `src/data/insights.js` |
| `Dashboard` | `src/hooks/useAnalytics.js` |
| `Monetization` | `src/components/MonetizationTracker.jsx` |
| `CsvUpload` | `src/components/CSVUpload.jsx` |

Conventions:

- **Dates.** A day is an integer key, and ascending integer order stands for the `yyyy-MM-dd`
  `localeCompare` order. Parsing a timestamp, formatting it and reading the clock are fields of a
  `Clock` value passed in by the caller.
- **Bytes.** Random bytes are parameters.
- **Stores.** `sessionStorage` is a `map<string, string>`.
- **Thrown exceptions** are `Err` results.

Three behaviours worth knowing about:

- "3 years ago" is a Data/Numbers hook: the number rule ("3 years") is tried before the story
  rule ("years ago") (`Helpers.ExampleYearsAgoIsData`).
- A CSV data line whose field count differs from the header's is dropped
  (`CsvText.DataRowsSnoc`).
- `clearFeedback` does not bring back the original figures once a default skill was rated
  after a load with nothing stored. The shallow copy `{ ...insights }` shares each skill object
  with the module-level `defaultInsights`, and the rating changes that object in place
  (`Feedback.ClearKeepsRatingOfDefault`).

## Model

| member | source | states |
|---|---|---|
| Text.TrimIdempotent | src/utils/csvParser.js:13 | Trimming twice is trimming once. |
| Text.TrimSlice | src/utils/csvParser.js:51 | The trimmed text is a contiguous slice of the input. |
| Text.LowerIdempotent | src/utils/helpers.js:129 | Lower-casing is idempotent and leaves no ASCII capital. |
| Text.ContainsChar | src/utils/helpers.js:140 | A one-character `includes` holds exactly when that character occurs. |
| Text.ParseIntOfDecimal | src/utils/csvParser.js:71-79 | `parseInt` reads back the decimal text of any integer, and ignores a tail that does not start with a digit. |
| Text.ParseDigitsFirst | src/utils/csvParser.js:71-79 | For a text that starts with a digit, `parseInt` gives the value of the leading digit run. |
| Text.ParseMinusFirst | src/utils/csvParser.js:71-79 | For a minus sign followed by a digit, `parseInt` gives the negated value of the digit run. |
| Lists.FilterAppend | src/utils/csvParser.js:83 | Filtering distributes over concatenation, so survivors keep their input order. |
| Lists.FilterEmpty | src/utils/csvParser.js:83-87 | The filter is empty exactly when no element passes. |
| Lists.SortByFacts | src/utils/csvParser.js:90 | The ascending sort orders by key and is a permutation of its input. |
| Lists.SortStable | src/utils/csvParser.js:90 | Within one key class, the sorted list keeps the input order. |
| Lists.SortDownFacts | src/utils/csvParser.js:156 | The highest-first sort orders by key descending, is a permutation, and is stable per key class. |
| Lists.SumOfSortDownBy | src/utils/csvParser.js:210 | Sorting highest first leaves any sum over the list unchanged. |
| Lists.SliceTo | src/utils/csvParser.js:157 | `slice(0, end)` is the prefix of length `min(end, n)` for `end >= 0`, and all but the last `-end` elements (or nothing) for a negative `end`. |
| Lists.SliceFrom | src/hooks/useFeedback.js:101 | `slice(start)` is the suffix after the first `start` elements for `start >= 0`, and the last `min(-start, n)` elements for a negative `start`. |
| Lists.SliceSplit | src/hooks/useFeedback.js:101 | `slice(0, k)` followed by `slice(k)` gives the whole list back, for every `k`, negative ones included. |
| Lists.SliceFromEnd | src/hooks/useFeedback.js:101 | For `0 < k <= n`, `slice(-k)` is exactly the last `k` elements. |
| Lists.Reverse | src/hooks/useFeedback.js:101 | The reversal holds the same elements in mirrored positions. |
| Dates.RelativeDate | src/utils/csvParser.js:255-265 | 0 days is Today and 1 is Yesterday. Fewer than 7 days is that many days ago. From 7 to 29 days it is one to four weeks ago, rounded down. From 30 days the absolute date is shown. |
| Helpers.HookLabelRoundTrip | src/utils/helpers.js:128-148 | Each hook's label reads back as that hook: the six labels are distinct. |
| Helpers.DetectHookType | src/utils/helpers.js:128-148 | Each of the six hooks is returned exactly when its rule matches the lower-cased text and none of the rules tried before it does, in the order Contrarian, Data/Numbers, FOMO, Question, Story, Bold Statement. |
| Helpers.DetectIgnoresCase | src/utils/helpers.js:129 | The classifier's answer does not change when the input is lower-cased first. |
| Helpers.NumberCueIsPattern | src/utils/helpers.js:134 | The number rule used by the model agrees with the regular expression `\d+%` / `\d+k` / `\d+ (days\|weeks\|hours\|years)`. |
| Helpers.NoDigitNoNumber | src/utils/helpers.js:134 | A text without digits never matches the number rule. |
| Helpers.ExampleContrarian | src/utils/helpers.js:131-133 | A "hot take" opening is classified Contrarian. |
| Helpers.ExampleDataNumbers | src/utils/helpers.js:134-136 | An opening with a percentage is classified Data/Numbers. |
| Helpers.ExampleFomo | src/utils/helpers.js:137-139 | A "sleeping on" opening is classified FOMO. |
| Helpers.ExampleQuestion | src/utils/helpers.js:140-142 | An opening with a question mark and no earlier cue is classified Question. |
| Helpers.ExampleStory | src/utils/helpers.js:143-145 | An "in 2021" opening is classified Story. |
| Helpers.ExampleBoldStatement | src/utils/helpers.js:147 | An opening without any cue falls through to Bold Statement. |
| Helpers.ExampleYearsAgoIsData | src/utils/helpers.js:134-145 | "3 years ago" matches the story rule, yet the number rule comes first, so it is Data/Numbers. |
| Helpers.EngagementRate | src/utils/helpers.js:16-19 | The rate times the impressions is 100 times likes + retweets + replies; with no impressions the rate is 0. |
| Helpers.EngagementRateBounds | src/utils/helpers.js:16-19 | With non-negative counts the rate is non-negative. It is at most 100 exactly when the interactions do not exceed the impressions. |
| Helpers.GetTrend | src/utils/helpers.js:22-29 | A zero previous value gives neutral 0. Otherwise the percentage is the relative change in absolute value, and the direction follows the sign of change over previous. |
| Helpers.TrendOfPositive | src/utils/helpers.js:22-29 | For a positive previous value the trend is up, down or neutral exactly when the value grew, shrank or stayed. |
| Helpers.Truncate | src/utils/helpers.js:122-125 | A fitting text is returned unchanged. A longer one becomes a prefix of at most `maxLength` characters followed by "...". |
| Helpers.TruncateFits | src/utils/helpers.js:122-125 | The result fits `maxLength + 3`, so truncating it again at that width changes nothing. |
| Helpers.NumberTier | src/utils/helpers.js:4-8 | M from one million, K from one thousand, the plain number below. |
| Helpers.NumberTierMonotone | src/utils/helpers.js:4-8 | A larger number never gets a smaller suffix. |
| Helpers.TypeColors | src/utils/helpers.js:35-63 | A known insight type gets its palette; any other type gets the 'insight' palette. |
| Helpers.PriorityColors | src/utils/helpers.js:66-73 | A known priority gets its colours; any other priority gets the 'low' colours. |
| Series.GroupHas | src/utils/csvParser.js:94-130 | The grouped series has a day exactly when some parsed timestamp falls on that day. |
| Series.GroupSum | src/utils/csvParser.js:94-130 | A day's bucket holds the sums over the posts of that day. |
| Series.GroupTotal | src/utils/csvParser.js:94-130 | The buckets together add up to the counts of every post whose timestamp parses; each such post is counted once. |
| Series.GroupDays | src/utils/csvParser.js:126 | The grouped days are strictly ascending, and each is a day some post falls on. |
| Series.Window | src/services/xApi.js:260-271 | The window holds `days` zero buckets for consecutive days ending today, oldest first. |
| Series.FillSum | src/services/xApi.js:274-286 | A window bucket ends with the sums over the posts of its day; posts of days outside the window change nothing. |
| HookRollup.AccumulateFind | src/utils/csvParser.js:183-198 | A hook has an accumulator exactly when some post has that hook, and it holds those posts' count and their sums of impressions and engagement. |
| HookRollup.RoundDiv | src/utils/csvParser.js:204 | `Math.round(total / posts)` is the nearest integer, with halves rounded up. |
| HookRollup.EngagementPercent | src/utils/csvParser.js:205-207 | With impressions, the percentage times the impressions is 100 times the engagement; without them it is 0. |
| HookRollup.Rollup | src/utils/csvParser.js:180-211 | The rows are sorted by average impressions, highest first, and form a permutation of the averaged groups. Rows with equal averages keep their order of first appearance, as the stable sort does. |
| HookRollup.RollupDistinct | src/utils/csvParser.js:180-211 | No hook has two rows. |
| HookRollup.RollupRow | src/utils/csvParser.js:180-211 | Each row is one hook's group: its post count, the rounded mean of its impressions, and its engagement percentage. |
| HookRollup.RollupComplete | src/utils/csvParser.js:180-211 | Every hook that some post has gets a row. |
| HookRollup.RollupPosts | src/utils/csvParser.js:180-211 | The rows' post counts add up to the number of posts. |
| Posts.LengthType | src/utils/csvParser.js:244-250 | Long-form exactly when the text is longer than 200 characters; a CSV row is never a thread. |
| Posts.Rank | src/services/xApi.js:320-325 | Only positive-key items taken from the input, sorted highest first, at most `limit` of them. |
| Posts.RankLength | src/services/xApi.js:320-325 | The ranking keeps all positive items when there are at most `limit` of them, otherwise exactly `limit`. |
| Posts.RankIsTop | src/services/xApi.js:320-325 | A positive item left out has a key no greater than that of any item kept. |
| Posts.RankedKept | src/utils/csvParser.js:155-156 | Sorting the kept items brings in nothing new and keeps only positive keys. |
| CsvText.ParseLine | src/utils/csvParser.js:40-60 | Every line, even an empty one, gives at least one field. |
| CsvText.ScanAppend | src/utils/csvParser.js:43-56 | Reading a concatenation is reading its halves in turn. |
| CsvText.ParseLineCount | src/utils/csvParser.js:40-60 | A line has one field more than it has commas outside quoted spans. |
| CsvText.ParseLineClean | src/utils/csvParser.js:40-60 | No field keeps a quote character, and every field is trimmed. |
| CsvText.ParseJoin | src/utils/csvParser.js:40-60 | Trimmed fields without quotes, written quoted and comma-separated, read back as themselves, commas inside them included. |
| CsvText.SplitSpec | src/utils/csvParser.js:13 | `split` yields one piece more than there are separators, no piece holds a separator, and joining the pieces gives the text back. |
| CsvText.NoSeparatorOnePiece | src/utils/csvParser.js:13 | A text without a line break is one piece. |
| CsvText.Collapse | src/utils/csvParser.js:28 | The result holds no white space, and every character in it is an underscore or comes from the input. |
| CsvText.CollapseSpaceRun | src/utils/csvParser.js:28 | A run of white space alone becomes exactly one underscore. |
| CsvText.CollapseAppend | src/utils/csvParser.js:28 | Collapsing a concatenation collapses each part when the cut does not fall inside a run of white space. With the two rows around it, this fixes the result for every text. |
| CsvText.NormalizeIdempotent | src/utils/csvParser.js:28 | A normalised header name is its own normal form. |
| CsvText.BuildRowLast | src/utils/csvParser.js:26-29 | The row maps a name to the cell of the last column that carries that name. |
| CsvText.DataRowsSnoc | src/utils/csvParser.js:22-32 | A data line with a mismatched field count adds no row; a matching one adds its row after the earlier rows. |
| CsvText.DataRowsFitting | src/utils/csvParser.js:22-32 | The rows are the lines with the header's field count, one row each and in order: a filter followed by a map. |
| CsvText.DataRowsKeys | src/utils/csvParser.js:22-32 | Every row's keys are exactly the normalised header names. |
| CsvText.ParseCsv | src/utils/csvParser.js:12-35 | The error carries the "empty or invalid" message. On success row `k` is built from the `k`-th data line whose field count equals the header's, and every row's keys are exactly the normalised header names. |
| CsvText.ParseCsvError | src/utils/csvParser.js:14-16 | The error occurs exactly when the trimmed text has no line break. |
| CsvAnalytics.Pick | src/utils/csvParser.js:67-80 | `a \|\| b \|\| fallback` yields the fallback or a present, non-empty cell of one of the aliases. |
| CsvAnalytics.PickFirst | src/utils/csvParser.js:67-80 | The first alias with a non-empty cell wins. |
| CsvAnalytics.PickNone | src/utils/csvParser.js:67-80 | With every alias absent or empty, the fallback is used. |
| CsvAnalytics.CountAbsent | src/utils/csvParser.js:71-79 | A count whose aliases are all absent reads as 0. |
| CsvAnalytics.NormalizeMissing | src/utils/csvParser.js:71 | A row without impressions or views has 0 impressions. |
| CsvAnalytics.Transform | src/utils/csvParser.js:65-148 | The only error is the "no valid tweet data" one. On success the records are a permutation of the rows that have both text and time, and when every such time parses they are in chronological order. The charts are those `Recalculate` builds from the records, so RecalculateSeries, RecalculateSums and RecalculateDays describe them. |
| CsvAnalytics.TimedSorted | src/utils/csvParser.js:90 | Sorting by the instant a consistent comparator uses gives chronological order once every time parses. |
| CsvAnalytics.TransformFails | src/utils/csvParser.js:83-87 | The transform fails exactly when no row has both a text and a time. |
| CsvAnalytics.TransformKeepsValid | src/utils/csvParser.js:83-90 | Every returned record is valid and is the normalisation of some row. |
| CsvAnalytics.Recalculate | src/utils/csvParser.js:292-349 | The tweets are returned as they were given. |
| CsvAnalytics.RecalculateSeries | src/utils/csvParser.js:295-342 | The two series are aligned, the days strictly ascend, and followers are 0. |
| CsvAnalytics.RecalculateSums | src/utils/csvParser.js:295-342 | Each point holds the sums over the tweets of its day. |
| CsvAnalytics.RecalculateDays | src/utils/csvParser.js:295-342 | A day has a point exactly when some tweet's time parses to that day. |
| CsvAnalytics.Card | src/utils/csvParser.js:158-174 | A card is long-form exactly for texts over 200 characters. Its date is Unknown exactly when the time does not parse. Its hook is the classifier's. |
| CsvAnalytics.TopPosts | src/utils/csvParser.js:153-175 | At most `limit` cards of positive-impression tweets, highest first, one card per ranked tweet. |
| CsvAnalytics.HookPerformance | src/utils/csvParser.js:180-211 | The rollup rows are sorted by average impressions, highest first. |
| CsvAnalytics.HookPerformanceCounts | src/utils/csvParser.js:180-211 | One row per hook, and the post counts add up to the number of tweets. |
| CsvAnalytics.Merged | src/utils/csvParser.js:270-277 | The merged list starts with every existing tweet. |
| CsvAnalytics.Merge | src/utils/csvParser.js:270-287 | The only error is the "no valid tweet data" one. Otherwise the raw tweets are exactly the merged list, unsorted, and the charts are those `Recalculate` builds from it, so RecalculateSeries, RecalculateSums and RecalculateDays describe them. |
| CsvAnalytics.MergeFails | src/utils/csvParser.js:270-287 | The merge fails exactly when no tweet of the merged list has both a text and a time. |
| CsvAnalytics.MergedTail | src/utils/csvParser.js:272-276 | After the existing tweets come the new tweets with unseen ids, in order. |
| CsvAnalytics.MergeKeepsBatch | src/utils/csvParser.js:272-276 | Repeats within one upload are kept when their ids are new. |
| XApi.CountsOf | src/services/xApi.js:277-283 | A tweet without metrics contributes nothing. |
| XApi.Transform | src/services/xApi.js:254-315 | It fails exactly when some `created_at` does not parse. Otherwise both series have `days` points for consecutive days ending today, each carrying `followers`. |
| XApi.TransformSums | src/services/xApi.js:274-314 | Each day of the window holds the sums over that day's tweets. |
| XApi.ContentTypeOf | src/services/xApi.js:388-400 | A thread exactly when some reference is a reply; otherwise long-form exactly for texts over 200 characters. |
| XApi.Card | src/services/xApi.js:326-342 | A card carries the tweet's id and impressions, the classifier's hook and the content type. |
| XApi.TopPosts | src/services/xApi.js:320-343 | It fails exactly when a ranked tweet's date does not parse. Otherwise it gives at most `limit` cards with positive impressions, highest first, one per ranked tweet. |
| XApi.HookPerformance | src/services/xApi.js:348-383 | The rows are sorted by average impressions, highest first. |
| XApi.HookPerformanceCounts | src/services/xApi.js:348-383 | One row per hook, and the post counts add up to the number of tweets. |
| Pkce.StdBase64 | src/utils/pkce.js:42-48 | `btoa` output has four characters per started 3-byte group. |
| Pkce.UrlChars | src/utils/pkce.js:44-46 | The result holds no `+` and no `/`, and every other character stays where it is. |
| Pkce.UrlCharsTwoPasses | src/utils/pkce.js:44-46 | The two global `replace` calls in sequence give the same text as the one-pass character mapping. |
| Pkce.StripPadding | src/utils/pkce.js:47 | The trailing run of `=` is removed, and only that run. |
| Pkce.Encode | src/utils/pkce.js:42-48 | The URL-safe encoding has `ceil(4n/3)` characters, all from the URL-safe alphabet. |
| Pkce.EncodeAsWritten | src/utils/pkce.js:42-48 | The source's replace-and-strip pipeline is the unpadded URL-safe base64 of section 5 of RFC 4648. |
| Pkce.DecodeEncode | src/utils/pkce.js:42-48 | Decoding the encoding gives the bytes back, so no two byte strings share an encoding. |
| Pkce.VerifierLength | src/utils/pkce.js:10-14 | 32 random bytes give a 43-character URL-safe verifier, within the 43–128 characters section 4.1 of RFC 7636 allows. |
| Pkce.StateLength | src/utils/pkce.js:31-35 | 16 random bytes give a 22-character URL-safe state. |
| Pkce.StorePkce | src/utils/pkce.js:53-56 | Both keys hold the stored values, and every other key is unchanged. |
| Pkce.RetrievePkce | src/utils/pkce.js:61-70 | It returns what the two keys held and removes both, leaving every other key. |
| Pkce.VerifyState | src/utils/pkce.js:75-78 | True exactly when the stored state strictly equals the received one, a missing value included. |
| Pkce.StoreRetrieve | src/utils/pkce.js:53-70 | Store then retrieve gives back exactly the stored pair and leaves neither key set. |
| Pkce.StoreVerify | src/utils/pkce.js:53-78 | After storing, a received state verifies exactly when it is the stored one. |
| Pkce.RetrieveClearsState | src/utils/pkce.js:61-78 | After retrieval, only a missing state verifies. |
| Feedback.Find | src/hooks/useFeedback.js:79-81 | A skill is found exactly when it has an entry, and what is found is the stats of its first entry. |
| Feedback.Put | src/hooks/useFeedback.js:50-52 | Assigning a skill's stats changes only that skill's lookup and keeps skills distinct. |
| Feedback.Dedup | src/hooks/useFeedback.js:60 | `new Set` keeps the same elements, without repeats, ordered by where each first occurs. |
| Feedback.DedupDistinct | src/hooks/useFeedback.js:60 | A list without repeats comes back unchanged. |
| Feedback.SkillStatsOf | src/hooks/useFeedback.js:79-81 | A known skill gets the stats stored in its entry; an unknown skill gets zero counts and empty lists. |
| Feedback.AddFeedback | src/hooks/useFeedback.js:33-76 | The log grows by exactly the record `addFeedback` builds and returns: the given id, skill, category, rating, comment and timestamp, with the output cut to 500 characters. Only the rated skill's stats change, by the rating rule. While the default entries are shared, a default skill's change shows in `defaultInsights` too, and the sharing invariant is kept. |
| Feedback.Load | src/hooks/useFeedback.js:29-30 | With nothing stored the insights are the `defaultInsights` object itself, shared; stored insights are used unshared. |
| Feedback.StoredLeavesDefaults | src/hooks/useFeedback.js:30-73 | Ratings on insights read back from storage never change `defaultInsights`. |
| Feedback.RateCounters | src/hooks/useFeedback.js:54-57 | 'positive' adds a like; any other rating adds a dislike. |
| Feedback.RateImprovements | src/hooks/useFeedback.js:58-62 | A dislike with a comment puts it first among at most five distinct improvements from the comment and the old list, in first-occurrence order. An old improvement is dropped only when five are kept. |
| Feedback.RateNewImprovement | src/hooks/useFeedback.js:58-62 | For a repeat-free list and a new comment, the result is the comment followed by the old list, cut to five. |
| Feedback.RateCategories | src/hooks/useFeedback.js:65-70 | A held category changes nothing. A new one is appended while fewer than three are held, and dropped once three are. |
| Feedback.Satisfaction | src/hooks/useFeedback.js:94 | Likes over likes + dislikes, a value in [0, 1], or 0 with no ratings. |
| Feedback.AllStats | src/hooks/useFeedback.js:84-97 | The totals are sums over all skills, and the feedback count is the log length. The satisfaction rate lies in [0, 1]: it is likes/(likes + dislikes), and 0 when there are no ratings. |
| Feedback.AddFeedbackTotals | src/hooks/useFeedback.js:33-97 | Each feedback adds one record and exactly one like or one dislike to the totals. |
| Feedback.RecentFeedback | src/hooks/useFeedback.js:100-102 | Never more records than the log holds. |
| Feedback.RecentNewestFirst | src/hooks/useFeedback.js:100-102 | For a positive limit: the last `limit` records, or all of them, newest first. |
| Feedback.RecentZero | src/hooks/useFeedback.js:100-102 | A limit of 0 returns the whole log reversed, because `slice(-0)` is `slice(0)`. |
| Feedback.ClearFeedback | src/hooks/useFeedback.js:105-110 | It empties the log and sets the insights to `defaultInsights` as it currently stands, shared again. |
| Feedback.ClearedStats | src/hooks/useFeedback.js:7-26 | While the defaults keep their original values, a clear gives no feedback, 85 likes, 10 dislikes, 6 improvements, satisfaction 85/95, and nothing recent. |
| Feedback.ClearKeepsRatingOfDefault | src/hooks/useFeedback.js:49-55 | Clear, like `viralX`, clear again: `viralX` shows 46 likes and the total is 86, not the original 45 and 85. |
| Insights.Outcomes | src/data/insights.js:111-155 | Seven rule outcomes; rule `k` can only give a reason of slot `k`. |
| Insights.PushedHas | src/data/insights.js:111-155 | A reason is reported exactly when some rule gave it. |
| Insights.AnalyzeMessages | src/data/insights.js:111-155 | A reason's sentence is returned exactly when the analysis reports that reason. |
| Insights.ReasonOfMessage | src/data/insights.js:111-155 | Each sentence determines its reason. |
| Insights.MessageInjective | src/data/insights.js:111-155 | No two reasons share a sentence. |
| Insights.AnalyzeOrder | src/data/insights.js:111-155 | Reasons come in rule order: at most seven, with at most one about the hook. |
| Insights.AnalyzeHas | src/data/insights.js:111-155 | A reason is given exactly when the rule of its slot gives it. |
| Insights.AnalyzeHookRule | src/data/insights.js:115-121 | Only Contrarian, Data/Numbers and FOMO hooks give a hook reason, each its own. |
| Insights.AnalyzeTimeRule | src/data/insights.js:124-128 | An 8 or a 9 anywhere in the post time gives the morning reason and never the evening one. The evening reason needs "7 PM" or "8 PM". |
| Insights.EightPmIsMorning | src/data/insights.js:124-128 | "8 PM" contains an 8, so an 8 PM post gets the morning reason. |
| Insights.AnalyzeLaterRules | src/data/insights.js:131-152 | The thread, bookmark-ratio, reply, topic and call-to-action reasons each appear exactly under their own test. |
| Insights.TopicIgnoresCase | src/data/insights.js:145-147 | The topic rule does not depend on case. |
| Insights.Round | src/data/insights.js:179-180 | `Math.round` is within half a unit, with halves rounded up. |
| Insights.Predict | src/data/insights.js:158-196 | Unknown hook and type give 24500 to 45500 impressions; a hook without a rate gets 3.5. |
| Insights.PredictRange | src/data/insights.js:158-196 | The low end is positive and never above the high end. |
| Insights.PredictMonotone | src/data/insights.js:158-196 | For a fixed content type, a hook with a larger base figure never gets a lower range. |
| Insights.BoldStatementRate | src/data/insights.js:158-196 | "Bold Statement" has a base figure but no rate, so it gets the default 3.5. |
| Insights.BestIndex | src/data/insights.js:8-10 | `reduce` with `>` ends on a maximum of average impressions, the last one among ties. |
| Insights.BestIndexUnique | src/data/insights.js:8-10 | Those two properties pick exactly one index. |
| Insights.GenerateInsights | src/data/insights.js:4-108 | It raises exactly on an empty hook list. Otherwise it gives eight cards: the hook card, then the seven fixed ones. The hook card is `hook-superpower`, kind `success`, priority `high`; its title and its "Generate more … content" action name the hook at `BestIndex`, which has the highest average and is the last of equal ones. |
| Dashboard.DaysFor | src/hooks/useAnalytics.js:48 | '7d' gives 7, '30d' gives 30, and anything else gives 90. |
| Dashboard.Connect | src/hooks/useAnalytics.js:17-26 | It leaves the dashboard connected and not loading. The charts, insights, top posts, hook figures, account card and range are all unchanged. |
| Dashboard.Disconnect | src/hooks/useAnalytics.js:29-37 | Disconnected, with every derived value cleared; the loading flag and the range are kept. |
| Dashboard.Fetch | src/hooks/useAnalytics.js:40-57 | Nothing happens while disconnected. Otherwise the figures are stored and the insights regenerated; with no hook figures the insights are kept and loading stays set. |
| Dashboard.RefreshInsights | src/hooks/useAnalytics.js:60-64 | Without figures nothing happens. With them only the insights change, and it raises exactly when there are no hook figures. |
| Dashboard.RefreshAfterFetch | src/hooks/useAnalytics.js:40-64 | A refresh right after a successful fetch changes nothing. |
| Dashboard.DisconnectedIsInert | src/hooks/useAnalytics.js:29-64 | After a disconnect, a fetch and a refresh are both no-ops. |
| Dashboard.SummaryMetrics | src/hooks/useAnalytics.js:74-81 | Present exactly when there are figures: the series sums and the latest follower count. |
| Dashboard.DisconnectClearsSummary | src/hooks/useAnalytics.js:29-81 | After a disconnect there is no summary, and disconnecting again changes nothing. |
| Dashboard.SummaryOfCharts | src/hooks/useAnalytics.js:74-81 | For charts built from day entries, the summary totals equal the entries' totals. |
| Monetization.CeilDiv | src/components/MonetizationTracker.jsx:13 | `Math.ceil(a / b)` is the least `r` with `r * b >= a`. |
| Monetization.DailyNeeded | src/components/MonetizationTracker.jsx:13 | The least daily count that closes the gap, where the day count is at least 1. |
| Monetization.Progress | src/components/MonetizationTracker.jsx:11 | Percent of goal; undefined exactly for a zero goal. |
| Monetization.Track | src/components/MonetizationTracker.jsx:11-76 | `remaining + current = goal`. The progress is `100·current/goal`, and undefined exactly for a zero goal. The daily count is the least one that closes the remaining gap over `max(daysLeft, 1)` days, as `Math.ceil` gives. There are six milestones, and week `k` is done exactly when `12·current >= k·goal`. |
| Monetization.MilestonesMonotone | src/components/MonetizationTracker.jsx:74-76 | With a non-negative goal, a completed milestone completes every earlier one. |
| Monetization.PastDeadline | src/components/MonetizationTracker.jsx:13 | From the deadline on, the whole gap is due in one day. |
| Monetization.GoalReached | src/components/MonetizationTracker.jsx:11-76 | Once the goal is reached, nothing more is needed per day and every milestone is done. |
| CsvUpload.AddFiles | src/components/CSVUpload.jsx:43-53 | New-name files are appended in order, and the error is set exactly when some incoming name was already listed. |
| CsvUpload.AddFilesTail | src/components/CSVUpload.jsx:46-52 | The appended files are the incoming ones filtered by name, in order. |
| CsvUpload.AddFresh | src/components/CSVUpload.jsx:43-53 | New names are all added, repeats within the batch included, with no error. |
| CsvUpload.Drop | src/components/CSVUpload.jsx:21-35 | With no `.csv` name among the dropped files, the list stays and the CSV-only error is set. Otherwise the result is `addFiles` of exactly the `.csv` files, in their order, so its list and its error are as AddFiles states. |
| CsvUpload.RemoveFile | src/components/CSVUpload.jsx:55-57 | It removes exactly the file at `index` and keeps the rest in order; an index outside the list changes nothing. |
| CsvUpload.RemoveAfterAdd | src/components/CSVUpload.jsx:43-57 | Removing the one file just added restores the list. |
| CsvUpload.ProcessFiles | src/components/CSVUpload.jsx:59-78 | An empty list is refused with its error; otherwise every file is handed on, in order. |
| CsvUpload.SizeUnitOf | src/components/CSVUpload.jsx:215-219 | B below 1024, KB below 1024², MB above. |
| CsvUpload.SizeUnitMonotone | src/components/CSVUpload.jsx:215-219 | A larger file never gets a smaller unit. |

## Left out

- OAuth, the network and token handling in `src/services/xApi.js` are not modelled. This covers `initiateOAuth`, `handleOAuthCallback`, the token functions, `fetchUserProfile` and `fetchUserTweets`: they are I/O.
- `generateCodeChallenge` is left out. It is a SHA-256 digest through Web Crypto, a foreign call.
- Randomness is outside the model: the bytes of `generateCodeVerifier` and `generateState` are parameters.
- Browser storage is a map. `sessionStorage` is a `map<string, string>`, and `localStorage` (`storage` in helpers.js) is left out.
- Dates and the clock are parameters. `parseISO`, `format`, `parseDate`, `new Date(...)` and `daysUntil` come from the `Clock` parameter, a record of functions. Date parsing rules are not modelled.
- Number formatting is exact arithmetic. `toFixed` text, `formatPercent` and the averaged `avgEngagement` strings use exact numbers instead, so no rounding to a digit count is modelled.
- Floating point is modelled as exact comparison:
  - the bookmark ratio is `10·bookmarks > 3·likes`;
  - the milestone test is `12·current >= week·goal`;
  - prediction figures are `real`.
- CsvAnalytics.Transform: requires every count cell to parse as a number. A `NaN` from `parseInt` is not carried through the sums.
- CsvAnalytics.Transform: promises no order when a valid record's time does not parse. The comparator then returns `NaN`, which leaves the engine's order unspecified; the model sorts such a record as if its instant were 0.
- CsvAnalytics.Normalize: the `engagementRate` column (`parseFloat`) is not kept.
- Text.ToLower: covers ASCII letters only; Unicode case mapping is not modelled. Lengths are counted in characters, not UTF-16 code units.
- JavaScript `||` on a missing table key is modelled as map membership. Prototype keys such as "constructor" are not modelled.
- Insights.GenerateInsights: the description, metric and icon strings of the cards are not modelled. The cards are compared by id, kind, title, action and priority.
- Feedback.AddFeedback: the old state's skill object is changed in place too, which the model does not show, since that state is no longer read. The generated id and timestamp are parameters, and the `localStorage` writes are not modelled.
- `onTrack` in `MonetizationTracker.jsx` is not modelled. It divides by `90 - daysLeft`, which is zero on the first day.
- `useAnalytics.js` timers and mock data: `connect` and `fetchAnalytics` are modelled after their delays. The mock figures are parameters, and the `useEffect` that triggers a fetch is not modelled.
- `CSVUpload.jsx`: `readFileContent` (FileReader), the drag highlight state and `handleFileSelect` are not modelled separately. `handleFileSelect` is `AddFiles` on the picked files.
- Other helpers are left out: `cn` (clsx), `debounce` (timers) and `generateId` (clock and randomness).
- src/data/mockAnalytics.js is not part of this model.
