/** The pure transforms of `src/services/xApi.js` over tweets as the X API returns them:
    fixed-window daily bucketing (`transformTweetsToAnalytics`), top posts
    (`transformToTopPosts`), the hook rollup (`calculateHookPerformance`) and the content type
    (`detectContentType`). The reference day that the source reads from the wall clock is a
    parameter. */
module XApi {
  import opened Wrappers
  import opened Lists
  import opened Dates
  import opened Series
  import opened Helpers
  import opened HookRollup
  import opened Posts

  /** `public_metrics`; each count may be missing. */
  datatype Metrics = Metrics(
    impressionCount: Option<int>,
    likeCount: Option<int>,
    retweetCount: Option<int>,
    replyCount: Option<int>,
    bookmarkCount: Option<int>)

  /** One entry of `referenced_tweets`. */
  datatype Reference = Reference(kind: string, id: string)

  /** A tweet object; `public_metrics` and `referenced_tweets` may be missing. */
  datatype ApiTweet = ApiTweet(
    id: string,
    text: string,
    createdAt: string,
    metrics: Option<Metrics>,
    references: Option<seq<Reference>>)

  /** `(tweet.public_metrics || {}).field || 0` for a field selected by `get`. */
  function Field(t: ApiTweet, get: Metrics -> Option<int>): int {
    if t.metrics.Some? then get(t.metrics.value).GetOr(0) else 0
  }

  function GetImpressions(m: Metrics): Option<int> { m.impressionCount }
  function GetLikes(m: Metrics): Option<int> { m.likeCount }
  function GetRetweets(m: Metrics): Option<int> { m.retweetCount }
  function GetReplies(m: Metrics): Option<int> { m.replyCount }
  function GetBookmarks(m: Metrics): Option<int> { m.bookmarkCount }

  /** The impression count, 0 when missing: the sort key, and positive exactly when
      `public_metrics?.impression_count > 0`. */
  function Impressions(t: ApiTweet): int {
    Field(t, GetImpressions)
  }

  /** A tweet's counts; missing ones count as 0. */
  function CountsOf(t: ApiTweet): (b: Bucket)
    ensures t.metrics.None? ==> b == Zero
  {
    Bucket(Impressions(t), Field(t, GetLikes), Field(t, GetRetweets), Field(t, GetReplies), Field(t, GetBookmarks))
  }

  function Samples(ts: seq<ApiTweet>, clock: Clock): (r: seq<Sample>)
    ensures |r| == |ts|
    ensures forall i :: 0 <= i < |ts| ==> r[i] == Sample(clock.dayOf(ts[i].createdAt), CountsOf(ts[i]))
  {
    seq(|ts|, i requires 0 <= i < |ts| => Sample(clock.dayOf(ts[i].createdAt), CountsOf(ts[i])))
  }

  /** Some tweet's `created_at` does not parse, so formatting it throws. */
  predicate HasBadDate(ts: seq<ApiTweet>, clock: Clock) {
    exists i :: 0 <= i < |ts| && clock.dayOf(ts[i].createdAt).None?
  }

  const InvalidTime := "Invalid time value"

  /** `transformTweetsToAnalytics(tweets, userProfile, days)` with the reference day `today`:
      the `days` days ending on `today` start at zero, every tweet whose day falls in the window
      adds its counts, and every point of the impressions series carries `followers`. */
  function Transform(ts: seq<ApiTweet>, followers: int, days: int, today: Day, clock: Clock): (r: Result<Charts, string>)
    ensures r.Err? <==> HasBadDate(ts, clock)
    ensures r.Ok? ==> |r.value.impressionsData| == |r.value.engagementData| == (if days > 0 then days else 0)
    ensures r.Ok? ==> forall k :: 0 <= k < |r.value.impressionsData| ==>
      r.value.impressionsData[k].day == today - (days - 1) + k && r.value.impressionsData[k].followers == followers
  {
    if HasBadDate(ts, clock) then Err(InvalidTime)
    else Ok(ToCharts(Fill(Window(today, days), Samples(ts, clock)), followers))
  }

  lemma ZeroPlus(b: Bucket)
    ensures Plus(Zero, b) == b
  {
  }

  /** Each day of the window holds the sums over the tweets of that day; tweets of days outside
      the window add to nothing. */
  lemma TransformSums(ts: seq<ApiTweet>, followers: int, days: int, today: Day, clock: Clock, k: int)
    requires Transform(ts, followers, days, today, clock).Ok?
    requires 0 <= k < |Transform(ts, followers, days, today, clock).value.impressionsData|
    ensures var c := Transform(ts, followers, days, today, clock).value;
      var sum := SumOn(Samples(ts, clock), today - (days - 1) + k);
      && c.impressionsData[k].impressions == sum.impressions
      && c.engagementData[k].day == c.impressionsData[k].day
      && c.engagementData[k].likes == sum.likes
      && c.engagementData[k].retweets == sum.retweets
      && c.engagementData[k].replies == sum.replies
      && c.engagementData[k].bookmarks == sum.bookmarks
  {
    var w := Window(today, days);
    FillSum(w, Samples(ts, clock), k);
    ZeroPlus(SumOn(Samples(ts, clock), w[k].day));
  }

  // ---- detectContentType ----

  predicate IsReply(ref: Reference) {
    ref.kind == "replied_to"
  }

  /** `detectContentType(tweet)`: a reply in a thread is a thread whatever its length;
      otherwise the length rule decides. */
  function ContentTypeOf(t: ApiTweet): (r: ContentType)
    ensures r == Thread <==> t.references.Some? && exists i :: 0 <= i < |t.references.value| && IsReply(t.references.value[i])
    ensures r == LongForm <==> r != Thread && |t.text| > 200
  {
    if t.references.Some? && exists i :: 0 <= i < |t.references.value| && IsReply(t.references.value[i]) then Thread
    else LengthType(t.text)
  }

  // ---- transformToTopPosts ----

  /** One card; the date library is the clock's. */
  function Card(t: ApiTweet, clock: Clock): (p: TopPost)
    ensures p.impressions == Impressions(t) && p.id == t.id
    ensures p.hookType == DetectHookType(t.text) && p.contentType == ContentTypeOf(t)
  {
    TopPost(t.id, t.text, Impressions(t), Field(t, GetLikes), Field(t, GetRetweets),
      Field(t, GetReplies), Field(t, GetBookmarks),
      RelativeDate(clock.ageOf(t.createdAt), clock.longDate(t.createdAt)),
      DetectHookType(t.text),
      ContentTypeOf(t),
      clock.timeOfDay(t.createdAt))
  }

  /** `transformToTopPosts(tweets, limit)`; the source's default limit is 5. A selected tweet
      whose `created_at` does not parse makes the date formatting throw. */
  function TopPosts(ts: seq<ApiTweet>, limit: int, clock: Clock): (r: Result<seq<TopPost>, string>)
    ensures r.Err? <==> HasBadDate(Rank(ts, Impressions, limit), clock)
    ensures r.Ok? ==> |r.value| == |Rank(ts, Impressions, limit)|
    ensures r.Ok? ==> forall i :: 0 <= i < |r.value| ==> r.value[i] == Card(Rank(ts, Impressions, limit)[i], clock)
    ensures r.Ok? ==> forall i :: 0 <= i < |r.value| ==> r.value[i].impressions > 0
    ensures r.Ok? ==> forall i, j :: 0 <= i < j < |r.value| ==> r.value[i].impressions >= r.value[j].impressions
    ensures r.Ok? && limit >= 0 ==> |r.value| <= limit
  {
    var ranked := Rank(ts, Impressions, limit);
    if HasBadDate(ranked, clock) then Err(InvalidTime)
    else Ok(seq(|ranked|, i requires 0 <= i < |ranked| => Card(ranked[i], clock)))
  }

  // ---- calculateHookPerformance ----

  /** A tweet's hook sample: its hook, its impressions, and likes + retweets + replies. */
  function HookSampleOf(t: ApiTweet): HookSample {
    HookSample(DetectHookType(t.text), Impressions(t),
      Field(t, GetLikes) + Field(t, GetRetweets) + Field(t, GetReplies))
  }

  /** `calculateHookPerformance`. */
  function HookPerformance(ts: seq<ApiTweet>): (r: seq<HookStat>)
    ensures SortedDownBy(r, AvgImpressions)
  {
    Rollup(seq(|ts|, i requires 0 <= i < |ts| => HookSampleOf(ts[i])))
  }

  /** One row per hook, and the post counts add up to the number of tweets. */
  lemma HookPerformanceCounts(ts: seq<ApiTweet>)
    ensures forall i, j :: 0 <= i < j < |HookPerformance(ts)| ==> HookPerformance(ts)[i].hook != HookPerformance(ts)[j].hook
    ensures SumOf(HookPerformance(ts), StatPosts) == |ts|
  {
    var ss := seq(|ts|, i requires 0 <= i < |ts| => HookSampleOf(ts[i]));
    RollupDistinct(ss);
    RollupPosts(ss);
  }
}
