/** The per-hook performance rollup that both ingestion paths compute
    (`calculateCSVHookPerformance` and `calculateHookPerformance`): every post is classified
    by its opening, the posts of each hook are totalled in a `hookStats` object (whose values
    come out in order of first appearance), the totals become averages, and the list is sorted
    by average impressions, highest first. */
module HookRollup {
  import opened Wrappers
  import opened Lists
  import opened Helpers

  /** What one post contributes: its hook, its impressions, and its likes + retweets + replies. */
  datatype HookSample = HookSample(hook: Hook, impressions: int, engagement: int)

  /** One `hookStats[hookType]` accumulator. */
  datatype Acc = Acc(hook: Hook, totalImpressions: int, totalEngagement: int, posts: nat)

  /** One row of the result. `avgEngagement` is kept exact: the one-decimal `toFixed` rounding
      is not modelled. */
  datatype HookStat = HookStat(hook: Hook, avgImpressions: int, avgEngagement: real, posts: nat)

  /** The hooks of an accumulator list are pairwise distinct, as the keys of an object are. */
  ghost predicate DistinctHooks(acc: seq<Acc>) {
    forall i, j :: 0 <= i < j < |acc| ==> acc[i].hook != acc[j].hook
  }

  /** `hookStats[h]`, if present. */
  function Find(acc: seq<Acc>, h: Hook): Option<Acc> {
    if |acc| == 0 then None else if acc[0].hook == h then Some(acc[0]) else Find(acc[1..], h)
  }

  function Count(a: Acc, s: HookSample): Acc {
    Acc(a.hook, a.totalImpressions + s.impressions, a.totalEngagement + s.engagement, a.posts + 1)
  }

  function AccPosts(a: Acc): int {
    a.posts
  }

  predicate HasPosts(a: Acc) {
    a.posts > 0
  }

  /** Counts one sample: creates the hook's accumulator at the end when it is new. */
  function Bump(acc: seq<Acc>, s: HookSample): (r: seq<Acc>)
    requires DistinctHooks(acc)
    ensures DistinctHooks(r)
    ensures forall h ::
              Find(r, h) == if h == s.hook then Some(Count(Find(acc, h).GetOr(Acc(h, 0, 0, 0)), s)) else Find(acc, h)
    ensures SumOf(r, AccPosts) == SumOf(acc, AccPosts) + 1
    ensures forall i :: 0 <= i < |r| ==> r[i].posts > 0 || (i < |acc| && r[i] == acc[i])
  {
    if |acc| == 0 then [Count(Acc(s.hook, 0, 0, 0), s)]
    else if acc[0].hook == s.hook then
      var r := [Count(acc[0], s)] + acc[1..];
      assert r[1..] == acc[1..];
      assert forall h :: Find(r, h) == Find(acc, h) || h == s.hook;
      r
    else
      var rest := Bump(acc[1..], s);
      var r := [acc[0]] + rest;
      assert r[1..] == rest;
      assert forall i :: 0 <= i < |rest| ==> rest[i].hook == s.hook || Find(acc[1..], rest[i].hook).Some? by {
        forall i | 0 <= i < |rest| ensures rest[i].hook == s.hook || Find(acc[1..], rest[i].hook).Some? {
          FindPresent(rest, i);
        }
      }
      forall i | 0 <= i < |rest| ensures acc[0].hook != rest[i].hook {
        if rest[i].hook != s.hook {
          FindMember(acc[1..], rest[i].hook);
        }
      }
      r
  }

  /** A hook listed at position `i` is found. */
  lemma {:induction false} FindPresent(acc: seq<Acc>, i: int)
    requires 0 <= i < |acc|
    ensures Find(acc, acc[i].hook).Some?
  {
    if i > 0 && acc[0].hook != acc[i].hook {
      FindPresent(acc[1..], i - 1);
    }
  }

  /** What is found is listed, at some position. */
  lemma {:induction false} FindMember(acc: seq<Acc>, h: Hook)
    requires Find(acc, h).Some?
    ensures exists k :: 0 <= k < |acc| && acc[k] == Find(acc, h).value && acc[k].hook == h
  {
    if acc[0].hook != h {
      FindMember(acc[1..], h);
      var k :| 0 <= k < |acc[1..]| && acc[1..][k] == Find(acc[1..], h).value && acc[1..][k].hook == h;
      assert acc[k + 1] == acc[1..][k];
    }
  }

  /** In a list of distinct hooks, each listed accumulator is the one found for its hook. */
  lemma {:induction false} FindListed(acc: seq<Acc>, i: int)
    requires DistinctHooks(acc) && 0 <= i < |acc|
    ensures Find(acc, acc[i].hook) == Some(acc[i])
  {
    if i > 0 {
      FindListed(acc[1..], i - 1);
    }
  }

  /** The `forEach` over the posts: the accumulators in order of first appearance. */
  function Accumulate(ss: seq<HookSample>): (r: seq<Acc>)
    ensures DistinctHooks(r)
    ensures SumOf(r, AccPosts) == |ss|
    ensures forall i :: 0 <= i < |r| ==> r[i].posts > 0
  {
    if |ss| == 0 then [] else Bump(Accumulate(ss[..|ss| - 1]), ss[|ss| - 1])
  }

  // Reference definitions: the posts of hook `h` and their totals.

  function PostsOf(ss: seq<HookSample>, h: Hook): nat {
    if |ss| == 0 then 0 else PostsOf(ss[..|ss| - 1], h) + (if ss[|ss| - 1].hook == h then 1 else 0)
  }

  function ImpressionsOf(ss: seq<HookSample>, h: Hook): int {
    if |ss| == 0 then 0
    else ImpressionsOf(ss[..|ss| - 1], h) + (if ss[|ss| - 1].hook == h then ss[|ss| - 1].impressions else 0)
  }

  function EngagementOf(ss: seq<HookSample>, h: Hook): int {
    if |ss| == 0 then 0
    else EngagementOf(ss[..|ss| - 1], h) + (if ss[|ss| - 1].hook == h then ss[|ss| - 1].engagement else 0)
  }

  /** A hook without posts has nothing to total. */
  lemma {:induction false} NoPostsNoTotals(ss: seq<HookSample>, h: Hook)
    requires PostsOf(ss, h) == 0
    ensures ImpressionsOf(ss, h) == 0 && EngagementOf(ss, h) == 0
  {
    if |ss| > 0 {
      NoPostsNoTotals(ss[..|ss| - 1], h);
    }
  }

  /** The accumulator of hook `h` exists exactly when some post has that hook, and it holds the
      number of those posts and the sums of their impressions and engagement. */
  lemma {:induction false} AccumulateFind(ss: seq<HookSample>, h: Hook)
    ensures Find(Accumulate(ss), h) ==
      if PostsOf(ss, h) > 0 then Some(Acc(h, ImpressionsOf(ss, h), EngagementOf(ss, h), PostsOf(ss, h))) else None
  {
    if |ss| > 0 {
      var init, last := ss[..|ss| - 1], ss[|ss| - 1];
      assert Accumulate(ss) == Bump(Accumulate(init), last);
      assert PostsOf(ss, h) == PostsOf(init, h) + (if last.hook == h then 1 else 0);
      assert ImpressionsOf(ss, h) == ImpressionsOf(init, h) + (if last.hook == h then last.impressions else 0);
      assert EngagementOf(ss, h) == EngagementOf(init, h) + (if last.hook == h then last.engagement else 0);
      AccumulateFind(init, h);
      if PostsOf(init, h) == 0 {
        NoPostsNoTotals(init, h);
      }
      FindStep(Accumulate(init), last, h, PostsOf(init, h), ImpressionsOf(init, h), EngagementOf(init, h));
    }
  }

  /** One step of `AccumulateFind`: counting a sample into accumulators that hold `posts`
      posts of hook `h` with the given totals. */
  lemma FindStep(acc: seq<Acc>, s: HookSample, h: Hook, posts: nat, impressions: int, engagement: int)
    requires DistinctHooks(acc)
    requires Find(acc, h) == if posts > 0 then Some(Acc(h, impressions, engagement, posts)) else None
    requires posts == 0 ==> impressions == 0 && engagement == 0
    ensures var n := if s.hook == h then 1 else 0;
      var i := impressions + (if s.hook == h then s.impressions else 0);
      var e := engagement + (if s.hook == h then s.engagement else 0);
      Find(Bump(acc, s), h) == if posts + n > 0 then Some(Acc(h, i, e, posts + n)) else None
  {
    FindBump(acc, s, h);
  }

  /** Counting one sample changes only the accumulator of its own hook. */
  lemma FindBump(acc: seq<Acc>, s: HookSample, h: Hook)
    requires DistinctHooks(acc)
    ensures Find(Bump(acc, s), h) ==
      if h == s.hook then Some(Count(Find(acc, h).GetOr(Acc(h, 0, 0, 0)), s)) else Find(acc, h)
  {
  }

  /** `Math.round(total / posts)` for a positive count: the nearest integer, halves rounded up. */
  function RoundDiv(total: int, posts: int): (r: int)
    requires posts > 0
    ensures 2 * posts * r <= 2 * total + posts < 2 * posts * (r + 1)
  {
    (2 * total + posts) / (2 * posts)
  }

  /** `(totalEngagement / totalImpressions) * 100`, or 0 when the hook has no impressions. */
  function EngagementPercent(engagement: int, impressions: int): (r: real)
    ensures impressions <= 0 ==> r == 0.0
    ensures impressions > 0 ==> r * impressions as real == 100.0 * engagement as real
  {
    if impressions > 0 then (engagement as real / impressions as real) * 100.0 else 0.0
  }

  /** Turns totals into averages. */
  function Finish(a: Acc): HookStat
    requires a.posts > 0
  {
    HookStat(a.hook, RoundDiv(a.totalImpressions, a.posts), EngagementPercent(a.totalEngagement, a.totalImpressions), a.posts)
  }

  function StatPosts(s: HookStat): int {
    s.posts
  }

  function AvgImpressions(s: HookStat): int {
    s.avgImpressions
  }

  /** The accumulators averaged one by one. */
  function Averages(acc: seq<Acc>): (r: seq<HookStat>)
    requires forall i :: 0 <= i < |acc| ==> acc[i].posts > 0
    ensures |r| == |acc| && forall i :: 0 <= i < |acc| ==> r[i] == Finish(acc[i])
  {
    seq(|acc|, i requires 0 <= i < |acc| => Finish(acc[i]))
  }

  /** The unsorted rows: the accumulators that have posts, averaged. */
  function Rows(ss: seq<HookSample>): seq<HookStat> {
    Averages(Filter(Accumulate(ss), HasPosts))
  }

  /** The whole rollup: accumulate, keep groups with posts, average, sort by average
      impressions, highest first; ties keep their order of first appearance. */
  function Rollup(ss: seq<HookSample>): (r: seq<HookStat>)
    ensures SortedDownBy(r, AvgImpressions)
    ensures multiset(r) == multiset(Rows(ss))
    ensures forall k :: WithKey(r, AvgImpressions, k) == WithKey(Rows(ss), AvgImpressions, k)
  {
    SortDownBy(Rows(ss), AvgImpressions)
  }

  /** Every post has a hook and the filter drops nothing, so the rows are the accumulators
      averaged one by one. */
  lemma RowsAreAccumulators(ss: seq<HookSample>)
    ensures Rows(ss) == Averages(Accumulate(ss))
  {
    FilterKeepsAll(Accumulate(ss), HasPosts);
  }

  /** No hook has two rows. */
  lemma RollupDistinct(ss: seq<HookSample>)
    ensures forall i, j :: 0 <= i < j < |Rollup(ss)| ==> Rollup(ss)[i].hook != Rollup(ss)[j].hook
  {
    var rows := Rows(ss);
    RowsAreAccumulators(ss);
    assert forall i, j :: 0 <= i < j < |rows| ==> rows[i].hook != rows[j].hook;
    DistinctKeysPermutation(Rollup(ss), rows, (s: HookStat) => s.hook);
  }

  /** Each row is one hook's group: its post count is the number of posts with that hook, its
      average the rounded mean of their impressions, and its engagement rate 0 when they have
      no impressions. */
  lemma RollupRow(ss: seq<HookSample>, i: int)
    requires 0 <= i < |Rollup(ss)|
    ensures Rollup(ss)[i].posts == PostsOf(ss, Rollup(ss)[i].hook) > 0
    ensures Rollup(ss)[i].avgImpressions == RoundDiv(ImpressionsOf(ss, Rollup(ss)[i].hook), Rollup(ss)[i].posts)
    ensures Rollup(ss)[i].avgEngagement ==
      EngagementPercent(EngagementOf(ss, Rollup(ss)[i].hook), ImpressionsOf(ss, Rollup(ss)[i].hook))
  {
    var acc := Accumulate(ss);
    var rows := Rows(ss);
    var r := Rollup(ss);
    RowsAreAccumulators(ss);
    assert r[i] in multiset(rows);
    var k :| 0 <= k < |rows| && rows[k] == r[i];
    FindListed(acc, k);
    AccumulateFind(ss, acc[k].hook);
  }

  /** Every hook that some post has gets a row. */
  lemma RollupComplete(ss: seq<HookSample>, h: Hook)
    requires PostsOf(ss, h) > 0
    ensures exists i :: 0 <= i < |Rollup(ss)| && Rollup(ss)[i].hook == h
  {
    var acc := Accumulate(ss);
    var rows := Rows(ss);
    var r := Rollup(ss);
    RowsAreAccumulators(ss);
    AccumulateFind(ss, h);
    FindMember(acc, h);
    var k :| 0 <= k < |acc| && acc[k] == Find(acc, h).value && acc[k].hook == h;
    assert rows[k] in multiset(r);
    var i :| 0 <= i < |r| && r[i] == rows[k];
  }

  /** The post counts of the rows add up to the number of posts. */
  lemma RollupPosts(ss: seq<HookSample>)
    ensures SumOf(Rollup(ss), StatPosts) == |ss|
  {
    RowsAreAccumulators(ss);
    SumOfSortDownBy(Rows(ss), AvgImpressions, StatPosts);
    SumOfAverages(Accumulate(ss));
  }

  /** Averaging keeps each group's post count. */
  lemma {:induction false} SumOfAverages(acc: seq<Acc>)
    requires forall i :: 0 <= i < |acc| ==> acc[i].posts > 0
    ensures SumOf(Averages(acc), StatPosts) == SumOf(acc, AccPosts)
  {
    if |acc| > 0 {
      SumOfAverages(acc[1..]);
      assert Averages(acc)[1..] == Averages(acc[1..]);
    }
  }
}
