/** The CSV ingestion path of `src/utils/csvParser.js`: parsed rows become tweet records
    through column aliases, invalid records are dropped, and the records are grouped per day
    (`transformCSVToAnalytics`, `recalculateFromTweets`), ranked (`transformCSVToTopPosts`),
    rolled up per hook (`calculateCSVHookPerformance`) and merged across uploads
    (`mergeCSVData`). */
module CsvAnalytics {
  import opened Wrappers
  import opened Text
  import opened Lists
  import opened Dates
  import opened Series
  import opened Helpers
  import opened HookRollup
  import opened Posts
  import opened CsvText

  /** One normalised export row. The `engagementRate` column, read with `parseFloat`, is not
      kept. */
  datatype Tweet = Tweet(
    id: string,
    text: string,
    time: string,
    impressions: int,
    engagements: int,
    retweets: int,
    replies: int,
    likes: int,
    bookmarks: int,
    urlClicks: int,
    profileClicks: int)

  /** `row.a || row.b || ...`: a column that is missing or empty counts as absent. */
  predicate Blank(row: Row, key: string) {
    key !in row || row[key] == ""
  }

  /** The first alias whose cell is present and non-empty, else `fallback`. */
  function Pick(row: Row, aliases: seq<string>, fallback: string): (r: string)
    ensures r == fallback || exists i :: 0 <= i < |aliases| && !Blank(row, aliases[i]) && r == row[aliases[i]]
  {
    if |aliases| == 0 then fallback
    else if !Blank(row, aliases[0]) then row[aliases[0]]
    else
      var r := Pick(row, aliases[1..], fallback);
      assert r != fallback ==> exists i :: 0 <= i < |aliases| && !Blank(row, aliases[i]) && r == row[aliases[i]] by {
        if r != fallback {
          var i :| 0 <= i < |aliases[1..]| && !Blank(row, aliases[1..][i]) && r == row[aliases[1..][i]];
          assert aliases[i + 1] == aliases[1..][i];
        }
      }
      r
  }

  /** An alias wins when every alias before it is absent. */
  lemma {:induction false} PickFirst(row: Row, aliases: seq<string>, fallback: string, i: int)
    requires 0 <= i < |aliases| && !Blank(row, aliases[i])
    requires forall j :: 0 <= j < i ==> Blank(row, aliases[j])
    ensures Pick(row, aliases, fallback) == row[aliases[i]]
  {
    if i > 0 {
      assert Blank(row, aliases[0]);
      PickFirst(row, aliases[1..], fallback, i - 1);
    }
  }

  /** With every alias absent the fallback is used. */
  lemma {:induction false} PickNone(row: Row, aliases: seq<string>, fallback: string)
    requires forall j :: 0 <= j < |aliases| ==> Blank(row, aliases[j])
    ensures Pick(row, aliases, fallback) == fallback
  {
    if |aliases| > 0 {
      assert Blank(row, aliases[0]);
      PickNone(row, aliases[1..], fallback);
    }
  }

  /** `parseInt(row.a || row.b || '0', 10)`. */
  function CountCell(row: Row, aliases: seq<string>): Option<int> {
    ParseInt(Pick(row, aliases, "0"))
  }

  /** A count whose aliases are all absent reads as 0. */
  lemma CountAbsent(row: Row, aliases: seq<string>)
    requires forall j :: 0 <= j < |aliases| ==> Blank(row, aliases[j])
    ensures CountCell(row, aliases) == Some(0)
  {
    PickNone(row, aliases, "0");
    ParseIntOfDecimal(0, "");
    assert Decimal(0) + "" == "0";
  }

  const ImpressionsAliases := ["impressions", "views"]
  const EngagementsAliases := ["engagements", "total_engagements"]
  const RetweetsAliases := ["retweets", "reposts"]
  const RepliesAliases := ["replies"]
  const LikesAliases := ["likes", "favorites"]
  const BookmarksAliases := ["bookmarks"]
  const UrlClicksAliases := ["url_clicks", "link_clicks"]
  const ProfileClicksAliases := ["user_profile_clicks", "profile_clicks"]

  /** The alias lists of the eight count columns, in the order of the record's fields. */
  const CountColumns: seq<seq<string>> := [ImpressionsAliases, EngagementsAliases, RetweetsAliases,
    RepliesAliases, LikesAliases, BookmarksAliases, UrlClicksAliases, ProfileClicksAliases]

  /** Every count column of the row reads as a number (the source would carry `NaN` on). */
  predicate Numeric(row: Row) {
    forall k :: 0 <= k < |CountColumns| ==> CountCell(row, CountColumns[k]).Some?
  }

  /** The value of count column `k`. */
  function CountOf(row: Row, k: int): int
    requires Numeric(row) && 0 <= k < |CountColumns|
  {
    CountCell(row, CountColumns[k]).value
  }

  /** The `csvData.map(row => ({ ... }))` normalisation of one row. */
  function Normalize(row: Row): (t: Tweet)
    requires Numeric(row)
  {
    Tweet(
      Pick(row, ["tweet_id", "id"], ""),
      Pick(row, ["tweet_text", "text", "tweet"], ""),
      Pick(row, ["time", "date", "created_at"], ""),
      CountOf(row, 0), CountOf(row, 1), CountOf(row, 2), CountOf(row, 3),
      CountOf(row, 4), CountOf(row, 5), CountOf(row, 6), CountOf(row, 7))
  }

  /** A count column whose aliases are all missing or empty reads as 0. */
  lemma NormalizeMissing(row: Row)
    requires Numeric(row)
    requires forall j :: 0 <= j < |ImpressionsAliases| ==> Blank(row, ImpressionsAliases[j])
    ensures Normalize(row).impressions == 0
  {
    CountAbsent(row, ImpressionsAliases);
  }

  /** `row.text && row.time`. */
  predicate Valid(t: Tweet) {
    t.text != "" && t.time != ""
  }

  /** The result of both `transformCSVToAnalytics` and `recalculateFromTweets`. */
  datatype Analytics = Analytics(charts: Charts, rawTweets: seq<Tweet>)

  /** A tweet's contribution to its day's bucket. */
  function SampleOf(t: Tweet, clock: Clock): Sample {
    Sample(clock.dayOf(t.time), Bucket(t.impressions, t.likes, t.retweets, t.replies, t.bookmarks))
  }

  function Samples(ts: seq<Tweet>, clock: Clock): (r: seq<Sample>)
    ensures |r| == |ts| && forall i :: 0 <= i < |ts| ==> r[i] == SampleOf(ts[i], clock)
  {
    seq(|ts|, i requires 0 <= i < |ts| => SampleOf(ts[i], clock))
  }

  /** `recalculateFromTweets`: the tweets grouped per day, ascending, with followers 0; the
      tweets themselves are returned as they came. */
  function Recalculate(ts: seq<Tweet>, clock: Clock): (r: Analytics)
    ensures r.rawTweets == ts
  {
    Analytics(ToCharts(Group(Samples(ts, clock)), 0), ts)
  }

  /** The sort key of `new Date(a.time) - new Date(b.time)`. For a time that does not parse
      the comparator returns NaN and the engine's order is not specified; the model puts such
      a record where the instant 0 would go. */
  function Instant(clock: Clock): Tweet -> int {
    (t: Tweet) => clock.instantOf(t.time).GetOr(0)
  }

  /** Every record's time parses to an instant, so the comparator is consistent. */
  predicate AllTimed(ts: seq<Tweet>, clock: Clock) {
    forall i :: 0 <= i < |ts| ==> clock.instantOf(ts[i].time).Some?
  }

  /** Every time parses, and the instants never decrease. */
  predicate Chronological(ts: seq<Tweet>, clock: Clock) {
    && AllTimed(ts, clock)
    && forall i, j :: 0 <= i < j < |ts| ==> clock.instantOf(ts[i].time).value <= clock.instantOf(ts[j].time).value
  }

  /** Sorting records whose times all parse puts them in chronological order. */
  lemma TimedSorted(valid: seq<Tweet>, sorted: seq<Tweet>, clock: Clock)
    requires multiset(sorted) == multiset(valid) && SortedBy(sorted, Instant(clock))
    ensures AllTimed(valid, clock) ==> Chronological(sorted, clock)
  {
    if AllTimed(valid, clock) {
      forall i | 0 <= i < |sorted| ensures clock.instantOf(sorted[i].time).Some? {
        assert sorted[i] in multiset(valid);
        var k :| 0 <= k < |valid| && valid[k] == sorted[i];
      }
    }
  }

  /** Every row normalised. */
  function NormalizeAll(rows: seq<Row>): (r: seq<Tweet>)
    requires forall i :: 0 <= i < |rows| ==> Numeric(rows[i])
    ensures |r| == |rows| && forall i :: 0 <= i < |rows| ==> r[i] == Normalize(rows[i])
  {
    seq(|rows|, i requires 0 <= i < |rows| => Normalize(rows[i]))
  }

  const NoValidTweets := "No valid tweet data found in CSV. Please check the file format."

  /** `transformCSVToAnalytics`: normalise, keep the valid records, fail when none remain,
      sort them by time and group them. The day buckets carry `engagements` and the tweet
      lists too, which the output does not show. */
  function Transform(rows: seq<Row>, clock: Clock): (r: Result<Analytics, string>)
    requires forall i :: 0 <= i < |rows| ==> Numeric(rows[i])
    ensures r.Err? ==> r.error == NoValidTweets
    ensures r.Ok? ==> multiset(r.value.rawTweets) == multiset(Filter(NormalizeAll(rows), Valid))
    ensures r.Ok? && AllTimed(Filter(NormalizeAll(rows), Valid), clock) ==> Chronological(r.value.rawTweets, clock)
    ensures r.Ok? ==> r.value == Recalculate(r.value.rawTweets, clock)
  {
    var valid := Filter(NormalizeAll(rows), Valid);
    if |valid| == 0 then Err(NoValidTweets)
    else
      var sorted := SortBy(valid, Instant(clock));
      SortByFacts(valid, Instant(clock));
      TimedSorted(valid, sorted, clock);
      Ok(Recalculate(sorted, clock))
  }

  /** The transform's two outcomes, unfolded once. */
  lemma TransformCases(rows: seq<Row>, clock: Clock)
    requires forall i :: 0 <= i < |rows| ==> Numeric(rows[i])
    ensures var valid := Filter(NormalizeAll(rows), Valid);
      && (Transform(rows, clock).Err? <==> |valid| == 0)
      && (Transform(rows, clock).Ok? ==> Transform(rows, clock).value.rawTweets == SortBy(valid, Instant(clock)))
  {
  }

  /** The transform fails exactly when no row has both a text and a time. */
  lemma TransformFails(rows: seq<Row>, clock: Clock)
    requires forall i :: 0 <= i < |rows| ==> Numeric(rows[i])
    ensures Transform(rows, clock).Err? <==> forall i :: 0 <= i < |rows| ==> !Valid(Normalize(rows[i]))
  {
    var ts := NormalizeAll(rows);
    TransformCases(rows, clock);
    FilterEmpty(ts, Valid);
  }

  /** Every returned record is valid and came from a row. */
  lemma {:induction false} TransformKeepsValid(rows: seq<Row>, clock: Clock, t: Tweet)
    requires forall i :: 0 <= i < |rows| ==> Numeric(rows[i])
    requires Transform(rows, clock).Ok? && t in Transform(rows, clock).value.rawTweets
    ensures Valid(t) && exists i :: 0 <= i < |rows| && Normalize(rows[i]) == t
  {
    var ts := NormalizeAll(rows);
    var valid := Filter(ts, Valid);
    TransformCases(rows, clock);
    SortedMember(valid, Instant(clock), t);
    FromRow(rows, t);
  }

  /** Sorting brings in nothing new. */
  lemma SortedMember(s: seq<Tweet>, key: Tweet -> int, t: Tweet)
    requires t in SortBy(s, key)
    ensures t in s
  {
    SortByFacts(s, key);
    assert t in multiset(SortBy(s, key));
  }

  lemma FromRow(rows: seq<Row>, t: Tweet)
    requires forall i :: 0 <= i < |rows| ==> Numeric(rows[i])
    requires t in Filter(NormalizeAll(rows), Valid)
    ensures Valid(t) && exists i :: 0 <= i < |rows| && Normalize(rows[i]) == t
  {
    var ts := NormalizeAll(rows);
    assert t in ts;
    var i :| 0 <= i < |ts| && ts[i] == t;
  }

  /** The per-day series of a tweet list: ascending days, one point per day, both series aligned,
      and each point holding the sums over the tweets that fall on its day. */
  lemma RecalculateSeries(ts: seq<Tweet>, clock: Clock, i: int)
    requires 0 <= i < |Recalculate(ts, clock).charts.impressionsData|
    ensures var c := Recalculate(ts, clock).charts;
      && |c.engagementData| == |c.impressionsData|
      && c.engagementData[i].day == c.impressionsData[i].day
      && (i + 1 < |c.impressionsData| ==> c.impressionsData[i].day < c.impressionsData[i + 1].day)
      && c.impressionsData[i].followers == 0
  {
  }

  /** Each point's counts are the sums over the tweets of its day. */
  lemma RecalculateSums(ts: seq<Tweet>, clock: Clock, i: int)
    requires 0 <= i < |Recalculate(ts, clock).charts.impressionsData|
    ensures var c := Recalculate(ts, clock).charts;
      var sum := SumOn(Samples(ts, clock), c.impressionsData[i].day);
      && c.impressionsData[i].impressions == sum.impressions
      && c.engagementData[i].likes == sum.likes
      && c.engagementData[i].retweets == sum.retweets
      && c.engagementData[i].replies == sum.replies
      && c.engagementData[i].bookmarks == sum.bookmarks
  {
    var es := Group(Samples(ts, clock));
    LookupAt(es, i);
    GroupSum(Samples(ts, clock), es[i].day);
  }

  /** A day has a point exactly when some tweet's time falls on it; tweets whose time does not
      parse add to no point (they still appear in `rawTweets`). */
  lemma RecalculateDays(ts: seq<Tweet>, clock: Clock, d: Day)
    ensures (exists i :: 0 <= i < |Recalculate(ts, clock).charts.impressionsData| &&
               Recalculate(ts, clock).charts.impressionsData[i].day == d)
        <==> exists k :: 0 <= k < |ts| && clock.dayOf(ts[k].time) == Some(d)
  {
    var ss := Samples(ts, clock);
    var es := Group(ss);
    var c := Recalculate(ts, clock).charts;
    LookupInDays(es, d);
    GroupHas(ss, d);
    if exists k :: 0 <= k < |ts| && clock.dayOf(ts[k].time) == Some(d) {
      var k :| 0 <= k < |ts| && clock.dayOf(ts[k].time) == Some(d);
      assert ss[k].day == Some(d);
      var j :| 0 <= j < |es| && DaysOf(es)[j] == d;
      assert c.impressionsData[j].day == d;
    }
    if exists i :: 0 <= i < |c.impressionsData| && c.impressionsData[i].day == d {
      var i :| 0 <= i < |c.impressionsData| && c.impressionsData[i].day == d;
      assert DaysOf(es)[i] == d;
      var k :| 0 <= k < |ss| && ss[k].day == Some(d);
      assert clock.dayOf(ts[k].time) == Some(d);
    }
  }

  // ---- transformCSVToTopPosts ----

  function Impressions(t: Tweet): int {
    t.impressions
  }

  /** One card; a time that does not parse gives the `Unknown` date and an empty time of day. */
  function Card(t: Tweet, clock: Clock): (p: TopPost)
    ensures p.contentType == LongForm <==> |t.text| > 200
    ensures p.date == Unknown <==> clock.dayOf(t.time).None?
    ensures p.hookType == DetectHookType(t.text)
  {
    var parsed := clock.dayOf(t.time).Some?;
    TopPost(t.id, t.text, t.impressions, t.likes, t.retweets, t.replies, t.bookmarks,
      if parsed then RelativeDate(clock.ageOf(t.time), clock.longDate(t.time)) else Unknown,
      DetectHookType(t.text),
      LengthType(t.text),
      if parsed then clock.timeOfDay(t.time) else "")
  }

  /** `transformCSVToTopPosts(rawTweets, limit)`; the source's default limit is 5. */
  function TopPosts(raw: seq<Tweet>, limit: int, clock: Clock): (r: seq<TopPost>)
    ensures forall i :: 0 <= i < |r| ==> r[i].impressions > 0
    ensures forall i, j :: 0 <= i < j < |r| ==> r[i].impressions >= r[j].impressions
    ensures limit >= 0 ==> |r| <= limit
    ensures |r| == |Rank(raw, Impressions, limit)|
    ensures forall i :: 0 <= i < |r| ==> r[i] == Card(Rank(raw, Impressions, limit)[i], clock)
  {
    var ranked := Rank(raw, Impressions, limit);
    seq(|ranked|, i requires 0 <= i < |ranked| => Card(ranked[i], clock))
  }

  // ---- calculateCSVHookPerformance ----

  /** A tweet's hook sample: its hook and likes + retweets + replies as engagement. */
  function HookSampleOf(t: Tweet): HookSample {
    HookSample(DetectHookType(t.text), t.impressions, t.likes + t.retweets + t.replies)
  }

  /** `calculateCSVHookPerformance`. */
  function HookPerformance(raw: seq<Tweet>): (r: seq<HookStat>)
    ensures SortedDownBy(r, AvgImpressions)
  {
    Rollup(seq(|raw|, i requires 0 <= i < |raw| => HookSampleOf(raw[i])))
  }

  /** One row per hook, and the post counts add up to the number of tweets. */
  lemma HookPerformanceCounts(raw: seq<Tweet>)
    ensures forall i, j :: 0 <= i < j < |HookPerformance(raw)| ==> HookPerformance(raw)[i].hook != HookPerformance(raw)[j].hook
    ensures SumOf(HookPerformance(raw), StatPosts) == |raw|
  {
    var ss := seq(|raw|, i requires 0 <= i < |raw| => HookSampleOf(raw[i]));
    RollupDistinct(ss);
    RollupPosts(ss);
  }

  // ---- mergeCSVData ----

  /** `!existingIds.has(t.id)`. */
  function Fresh(ids: set<string>): Tweet -> bool {
    (t: Tweet) => t.id !in ids
  }

  /** The ids of a tweet list. */
  function Ids(ts: seq<Tweet>): set<string> {
    set t | t in ts :: t.id
  }

  /** The merged list: every existing tweet, then the new tweets whose id is not already held. */
  function Merged(existing: Option<seq<Tweet>>, incoming: seq<Tweet>): (r: seq<Tweet>)
    ensures |existing.GetOr([])| <= |r| && r[..|existing.GetOr([])|] == existing.GetOr([])
  {
    var held := existing.GetOr([]);
    var r := held + Filter(incoming, Fresh(Ids(held)));
    assert r[..|held|] == held;
    r
  }

  /** `mergeCSVData`. The throwaway re-transform of the merged list is kept for its one
      effect, failing when no merged tweet is valid; the result is then recalculated from the
      merged list without sorting it. */
  function Merge(existing: Option<seq<Tweet>>, incoming: seq<Tweet>, clock: Clock): (r: Result<Analytics, string>)
    ensures r.Err? ==> r.error == NoValidTweets
    ensures r.Ok? ==> r.value.rawTweets == Merged(existing, incoming)
    ensures r.Ok? ==> r.value == Recalculate(r.value.rawTweets, clock)
  {
    var merged := Merged(existing, incoming);
    if |Filter(merged, Valid)| == 0 then Err(NoValidTweets) else Ok(Recalculate(merged, clock))
  }

  /** The merge fails exactly when no tweet of the merged list is valid. */
  lemma MergeFails(existing: Option<seq<Tweet>>, incoming: seq<Tweet>, clock: Clock)
    ensures Merge(existing, incoming, clock).Err? <==>
      forall i :: 0 <= i < |Merged(existing, incoming)| ==> !Valid(Merged(existing, incoming)[i])
  {
    FilterEmpty(Merged(existing, incoming), Valid);
  }

  /** After the existing tweets come the new tweets with unseen ids, in their order: a tweet
      whose id is already held is dropped, so the first record seen for an id wins. */
  lemma MergedTail(existing: Option<seq<Tweet>>, incoming: seq<Tweet>)
    ensures var held := existing.GetOr([]);
      var tail := Merged(existing, incoming)[|held|..];
      && tail == Filter(incoming, Fresh(Ids(held)))
      && forall t :: t in tail <==> t in incoming && t.id !in Ids(held)
  {
    var held := existing.GetOr([]);
    var tail := Merged(existing, incoming)[|held|..];
    assert tail == Filter(incoming, Fresh(Ids(held)));
    forall t | t in incoming && t.id !in Ids(held) ensures t in tail {
      var i :| 0 <= i < |incoming| && incoming[i] == t;
      assert Fresh(Ids(held))(incoming[i]);
    }
    forall t | t in tail ensures t in incoming && t.id !in Ids(held) {
      var i :| 0 <= i < |tail| && tail[i] == t;
      assert Fresh(Ids(held))(tail[i]);
    }
  }

  /** Duplicates within one upload are not removed: when no new id is already held, every new
      tweet is appended, repeats included. */
  lemma MergeKeepsBatch(existing: Option<seq<Tweet>>, incoming: seq<Tweet>)
    requires forall i :: 0 <= i < |incoming| ==> incoming[i].id !in Ids(existing.GetOr([]))
    ensures Merged(existing, incoming) == existing.GetOr([]) + incoming
  {
    var held := existing.GetOr([]);
    assert forall i :: 0 <= i < |incoming| ==> Fresh(Ids(held))(incoming[i]);
    FilterKeepsAll(incoming, Fresh(Ids(held)));
  }
}
