/** The dashboard state of `src/hooks/useAnalytics.js`: connecting, fetching the figures and
    regenerating the insights, the range selector, the summary figures derived from the
    current charts, and the reset on disconnect. The timers are left out: `Connect` and
    `Fetch` are the states once their delays have passed, and the generated mock figures are
    parameters. */
module Dashboard {
  import opened Wrappers
  import opened Lists
  import opened Series
  import opened HookRollup
  import opened Posts
  import opened Insights

  /** `timeRange === '7d' ? 7 : timeRange === '30d' ? 30 : 90`. */
  function DaysFor(timeRange: string): (days: int)
    ensures days == 7 <==> timeRange == "7d"
    ensures days == 30 <==> timeRange == "30d"
    ensures days == 90 <==> timeRange != "7d" && timeRange != "30d"
  {
    if timeRange == "7d" then 7 else if timeRange == "30d" then 30 else 90
  }

  /** The account card. */
  datatype AccountStats = AccountStats(username: string, displayName: string, followers: int, following: int)

  /** The hook's state. */
  datatype State = State(
    isConnected: bool,
    isLoading: bool,
    analytics: Option<Charts>,
    insights: seq<Insight>,
    topPosts: seq<TopPost>,
    hookPerformance: seq<HookStat>,
    accountStats: Option<AccountStats>,
    timeRange: string)

  /** `disconnect()`: the connected flag drops and every derived collection empties; the
      loading flag and the selected range stay. */
  function Disconnect(s: State): (r: State)
    ensures !r.isConnected && r.analytics.None? && r.accountStats.None?
    ensures r.insights == [] && r.topPosts == [] && r.hookPerformance == []
    ensures r.isLoading == s.isLoading && r.timeRange == s.timeRange
  {
    s.(isConnected := false, analytics := None, insights := [], topPosts := [],
       hookPerformance := [], accountStats := None)
  }

  /** `connect()` once its simulated delay has passed: connected and no longer loading. */
  function Connect(s: State): (r: State)
    ensures r.isConnected && !r.isLoading
    ensures r.analytics == s.analytics && r.insights == s.insights && r.timeRange == s.timeRange
    ensures r.topPosts == s.topPosts && r.hookPerformance == s.hookPerformance && r.accountStats == s.accountStats
  {
    s.(isConnected := true, isLoading := false)
  }

  /** `fetchAnalytics()` once its simulated delay has passed, with the generated figures as
      parameters: nothing happens while disconnected; otherwise the figures are stored and the
      insights regenerated from the hook figures. When that generation raises (no hook
      figures), the figures stay stored, the insights keep their old value and the loading
      flag stays set. */
  function Fetch(s: State, data: Charts, posts: seq<TopPost>, hooks: seq<HookStat>, account: AccountStats): (r: State)
    ensures !s.isConnected ==> r == s
    ensures s.isConnected ==> r.analytics == Some(data) && r.topPosts == posts && r.hookPerformance == hooks
    ensures s.isConnected ==> r.accountStats == Some(account) && r.isConnected && r.timeRange == s.timeRange
    ensures s.isConnected ==> (r.isLoading <==> |hooks| == 0)
    ensures s.isConnected && |hooks| == 0 ==> r.insights == s.insights
    ensures s.isConnected && |hooks| > 0 ==> Ok(r.insights) == GenerateInsights(hooks)
  {
    if !s.isConnected then s
    else
      var stored := s.(isLoading := true, analytics := Some(data), topPosts := posts,
        hookPerformance := hooks, accountStats := Some(account));
      match GenerateInsights(hooks)
      case Err(_) => stored
      case Ok(insights) => stored.(insights := insights, isLoading := false)
  }

  /** `refreshInsights()`: with figures present the insights are regenerated from the stored
      hook figures (raising when there are none); without figures nothing happens. */
  function RefreshInsights(s: State): (r: Result<State, string>)
    ensures s.analytics.None? ==> r == Ok(s)
    ensures s.analytics.Some? ==> (r.Err? <==> |s.hookPerformance| == 0)
    ensures r.Ok? ==> r.value.(insights := s.insights) == s
    ensures s.analytics.Some? && r.Ok? ==> Ok(r.value.insights) == GenerateInsights(s.hookPerformance)
  {
    if s.analytics.None? then Ok(s)
    else
      match GenerateInsights(s.hookPerformance)
      case Err(e) => Err(e)
      case Ok(insights) => Ok(s.(insights := insights))
  }

  /** Right after a successful fetch, a refresh changes nothing. */
  lemma RefreshAfterFetch(s: State, data: Charts, posts: seq<TopPost>, hooks: seq<HookStat>, account: AccountStats)
    requires s.isConnected && |hooks| > 0
    ensures RefreshInsights(Fetch(s, data, posts, hooks, account)) == Ok(Fetch(s, data, posts, hooks, account))
  {
    var r := Fetch(s, data, posts, hooks, account);
    assert r.analytics.Some? && r.hookPerformance == hooks;
  }

  /** After a disconnect a fetch is a no-op, and so is a refresh. */
  lemma DisconnectedIsInert(s: State, data: Charts, posts: seq<TopPost>, hooks: seq<HookStat>, account: AccountStats)
    ensures Fetch(Disconnect(s), data, posts, hooks, account) == Disconnect(s)
    ensures RefreshInsights(Disconnect(s)) == Ok(Disconnect(s))
  {
  }

  // ---- summaryMetrics ----

  /** The summary card figures. */
  datatype Summary = Summary(
    totalImpressions: int,
    totalLikes: int,
    totalRetweets: int,
    totalReplies: int,
    currentFollowers: int,
    avgEngagementRate: real)

  function PointImpressions(p: ImpressionPoint): int { p.impressions }
  function PointLikes(p: EngagementPoint): int { p.likes }
  function PointRetweets(p: EngagementPoint): int { p.retweets }
  function PointReplies(p: EngagementPoint): int { p.replies }

  /** `impressionsData[impressionsData.length - 1]?.followers || 0`. */
  function LastFollowers(points: seq<ImpressionPoint>): (r: int)
    ensures |points| == 0 ==> r == 0
    ensures |points| > 0 ==> r == points[|points| - 1].followers
  {
    if |points| == 0 then 0 else points[|points| - 1].followers
  }

  /** `summaryMetrics`: present exactly when the charts are, and then the series sums, the
      latest follower count, and the fixed engagement rate 4.2. */
  function SummaryMetrics(analytics: Option<Charts>): (r: Option<Summary>)
    ensures r.None? <==> analytics.None?
    ensures r.Some? ==> r.value.totalImpressions == SumOf(analytics.value.impressionsData, PointImpressions)
    ensures r.Some? ==> r.value.totalLikes == SumOf(analytics.value.engagementData, PointLikes)
    ensures r.Some? ==> r.value.totalRetweets == SumOf(analytics.value.engagementData, PointRetweets)
    ensures r.Some? ==> r.value.totalReplies == SumOf(analytics.value.engagementData, PointReplies)
    ensures r.Some? ==> r.value.currentFollowers == LastFollowers(analytics.value.impressionsData)
  {
    match analytics
    case None => None
    case Some(c) =>
      Some(Summary(
        SumOf(c.impressionsData, PointImpressions),
        SumOf(c.engagementData, PointLikes),
        SumOf(c.engagementData, PointRetweets),
        SumOf(c.engagementData, PointReplies),
        LastFollowers(c.impressionsData),
        4.2))
  }

  /** After a disconnect there is nothing to summarise. */
  lemma DisconnectClearsSummary(s: State)
    ensures SummaryMetrics(Disconnect(s).analytics).None?
    ensures Disconnect(Disconnect(s)) == Disconnect(s)
  {
  }

  /** The chart series of a list of day entries sum to the entries' total. */
  lemma {:induction false} ChartSums(es: seq<Entry>, followers: int)
    ensures var c := ToCharts(es, followers);
      && SumOf(c.impressionsData, PointImpressions) == Total(es).impressions
      && SumOf(c.engagementData, PointLikes) == Total(es).likes
      && SumOf(c.engagementData, PointRetweets) == Total(es).retweets
      && SumOf(c.engagementData, PointReplies) == Total(es).replies
  {
    if |es| > 0 {
      ChartSums(es[1..], followers);
      var c := ToCharts(es, followers);
      var t := ToCharts(es[1..], followers);
      assert c.impressionsData[1..] == t.impressionsData;
      assert c.engagementData[1..] == t.engagementData;
    }
  }

  /** For charts built from day entries (by the CSV or the API transform), the summary totals
      are the entries' total and the current follower count is the one every point carries,
      or 0 with no days. */
  lemma SummaryOfCharts(es: seq<Entry>, followers: int)
    ensures var r := SummaryMetrics(Some(ToCharts(es, followers)));
      && r.Some?
      && r.value.totalImpressions == Total(es).impressions
      && r.value.totalLikes == Total(es).likes
      && r.value.totalRetweets == Total(es).retweets
      && r.value.totalReplies == Total(es).replies
      && r.value.currentFollowers == (if |es| == 0 then 0 else followers)
  {
    ChartSums(es, followers);
  }
}
