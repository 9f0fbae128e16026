/** The feedback state of `src/hooks/useFeedback.js`: a log of feedback records and, per
    skill, like and dislike counters with a short list of categories and of requested
    improvements. The record id and timestamp, which the source generates, are parameters;
    what `localStorage` holds at load time is a parameter, and writes to it are not modelled.
    Per-skill statistics are kept as an
    association list in the order the skills were first seen, the order `Object.values`
    walks them in. */
module Feedback {
  import opened Wrappers
  import opened Lists

  /** One feedback record. */
  datatype Record = Record(
    id: string,
    skillId: string,
    category: string,
    rating: string,
    comment: string,
    output: string,
    timestamp: string)

  /** One skill's aggregate. */
  datatype SkillStats = SkillStats(likes: nat, dislikes: nat, topCategories: seq<string>, improvements: seq<string>)

  const ZeroStats := SkillStats(0, 0, [], [])

  /** One `insights[skillId]` entry. */
  datatype Entry = Entry(skillId: string, stats: SkillStats)

  /** The whole state. `defaults` is the module-level `defaultInsights` object as it stands
      now. While `aliased` holds, the insight entries of the default skills are those very
      objects, so a rating of such a skill also changes `defaults`. That is the case after a
      load that found no stored insights and after `clearFeedback`; insights read back from
      storage are fresh objects. */
  datatype State = State(feedbacks: seq<Record>, insights: seq<Entry>, defaults: seq<Entry>, aliased: bool)

  /** No skill has two entries, as the keys of an object. */
  ghost predicate DistinctSkills(es: seq<Entry>) {
    forall i, j :: 0 <= i < j < |es| ==> es[i].skillId != es[j].skillId
  }

  /** The shape every reachable state keeps: object keys are distinct, and while the default
      entries are shared, every default skill reads the same in both. */
  ghost predicate Coherent(s: State) {
    && DistinctSkills(s.insights) && DistinctSkills(s.defaults)
    && (s.aliased ==> forall k :: Find(s.defaults, k).Some? ==> Find(s.insights, k) == Find(s.defaults, k))
  }

  /** `insights[skillId]`, if present: the stats of the first entry with that skill. */
  function Find(es: seq<Entry>, skillId: string): (r: Option<SkillStats>)
    ensures r.Some? <==> exists i :: 0 <= i < |es| && es[i].skillId == skillId
    ensures r.Some? ==> exists i ::
      && 0 <= i < |es| && es[i].skillId == skillId && es[i].stats == r.value
      && forall j :: 0 <= j < i ==> es[j].skillId != skillId
  {
    if |es| == 0 then None
    else if es[0].skillId == skillId then Some(es[0].stats)
    else
      var r := Find(es[1..], skillId);
      assert (exists i :: 0 <= i < |es[1..]| && es[1..][i].skillId == skillId) ==>
        exists i :: 0 <= i < |es| && es[i].skillId == skillId by {
        if exists i :: 0 <= i < |es[1..]| && es[1..][i].skillId == skillId {
          var i :| 0 <= i < |es[1..]| && es[1..][i].skillId == skillId;
          assert es[i + 1].skillId == skillId;
        }
      }
      r
  }

  /** `insights[skillId] = stats`: replaces the entry in place, or appends a new one. */
  function Put(es: seq<Entry>, skillId: string, stats: SkillStats): (r: seq<Entry>)
    requires DistinctSkills(es)
    ensures DistinctSkills(r)
    ensures forall k :: Find(r, k) == if k == skillId then Some(stats) else Find(es, k)
  {
    if |es| == 0 then [Entry(skillId, stats)]
    else if es[0].skillId == skillId then
      var r := [Entry(skillId, stats)] + es[1..];
      assert r[1..] == es[1..];
      r
    else
      var rest := Put(es[1..], skillId, stats);
      var r := [es[0]] + rest;
      assert r[1..] == rest;
      assert Find(es[1..], es[0].skillId).None?;
      r
  }

  /** The index of the first occurrence of `x` in `s`. */
  function IndexOf(s: seq<string>, x: string): (i: nat)
    requires x in s
    ensures i < |s| && s[i] == x && forall k :: 0 <= k < i ==> s[k] != x
  {
    if s[0] == x then 0 else 1 + IndexOf(s[1..], x)
  }

  /** Appending an element leaves the first occurrences of the earlier ones where they were. */
  lemma IndexOfSnoc(s: seq<string>, last: string, x: string)
    requires x in s
    ensures IndexOf(s + [last], x) == IndexOf(s, x)
  {
    var a, b := IndexOf(s + [last], x), IndexOf(s, x);
    assert (s + [last])[b] == x;
  }

  /** `[...new Set(s)]`: the first occurrence of each element, in the order of those first
      occurrences. */
  function Dedup(s: seq<string>): (r: seq<string>)
    ensures forall x :: x in r <==> x in s
    ensures forall i, j :: 0 <= i < j < |r| ==> r[i] != r[j]
    ensures forall i, j :: 0 <= i < j < |r| ==> IndexOf(s, r[i]) < IndexOf(s, r[j])
    ensures |r| <= |s|
    ensures |s| > 0 ==> |r| > 0 && r[0] == s[0]
  {
    if |s| == 0 then []
    else
      var init := s[..|s| - 1];
      var d := Dedup(init);
      var last := s[|s| - 1];
      assert s == init + [last];
      forall x | x in init ensures IndexOf(s, x) == IndexOf(init, x) {
        IndexOfSnoc(init, last, x);
      }
      if last in d then d
      else
        var r := d + [last];
        assert IndexOf(s, last) == |s| - 1;
        assert forall i :: 0 <= i < |d| ==> r[i] == d[i] && r[i] in init;
        r
  }

  /** A list without repeats is its own `[...new Set(s)]`. */
  lemma {:induction false} DedupDistinct(s: seq<string>)
    requires forall i, j :: 0 <= i < j < |s| ==> s[i] != s[j]
    ensures Dedup(s) == s
  {
    if |s| > 0 {
      var init, last := s[..|s| - 1], s[|s| - 1];
      assert s == init + [last];
      DedupDistinct(init);
      assert last !in init;
    }
  }

  /** `s.slice(0, n)` for `n >= 0`. */
  function Take(s: seq<string>, n: nat): (r: seq<string>)
    ensures |r| == (if |s| <= n then |s| else n) && r == s[..|r|]
  {
    SliceTo(s, n)
  }

  /** The insight update of `addFeedback` for one skill's record. */
  function Rate(st: SkillStats, category: string, rating: string, comment: string): (r: SkillStats) {
    var counted :=
      if rating == "positive" then st.(likes := st.likes + 1)
      else
        var disliked := st.(dislikes := st.dislikes + 1);
        if comment != "" then disliked.(improvements := Take(Dedup([comment] + st.improvements), 5))
        else disliked;
    if category in counted.topCategories then counted
    else counted.(topCategories := Take(counted.topCategories + [category], 3))
  }

  /** `getSkillStats(skillId)`: the skill's record, or a zero record for an unknown skill. */
  function SkillStatsOf(s: State, skillId: string): (r: SkillStats)
    ensures Find(s.insights, skillId).None? ==> r == ZeroStats
    ensures forall i ::
      (0 <= i < |s.insights| && s.insights[i].skillId == skillId
       && forall j :: 0 <= j < i ==> s.insights[j].skillId != skillId) ==> r == s.insights[i].stats
  {
    Find(s.insights, skillId).GetOr(ZeroStats)
  }

  /** `addFeedback(skillId, category, rating, comment, output)` with the generated id and
      timestamp given: logs the record (output cut to 500 characters) and updates the skill's
      record, starting from zero for an unknown skill. The update mutates the entry object,
      which the shallow copy `{ ...insights }` shares; for a default skill while the defaults
      are shared, that object is the one in `defaultInsights`. */
  function AddFeedback(s: State, id: string, timestamp: string, skillId: string, category: string,
                       rating: string, comment: string, output: string): (r: State)
    requires DistinctSkills(s.insights) && DistinctSkills(s.defaults)
    ensures DistinctSkills(r.insights) && DistinctSkills(r.defaults) && r.aliased == s.aliased
    ensures |r.feedbacks| == |s.feedbacks| + 1 && r.feedbacks[..|s.feedbacks|] == s.feedbacks
    ensures r.feedbacks[|s.feedbacks|].skillId == skillId && r.feedbacks[|s.feedbacks|].comment == comment
    ensures r.feedbacks[|s.feedbacks|].output == output[..if |output| <= 500 then |output| else 500]
    ensures r.feedbacks[|s.feedbacks|] ==
      Record(id, skillId, category, rating, comment, output[..if |output| <= 500 then |output| else 500], timestamp)
    ensures SkillStatsOf(r, skillId) == Rate(SkillStatsOf(s, skillId), category, rating, comment)
    ensures forall k :: k != skillId ==> Find(r.insights, k) == Find(s.insights, k)
    ensures s.aliased && Find(s.defaults, skillId).Some? ==>
      Find(r.defaults, skillId) == Some(SkillStatsOf(r, skillId))
    ensures forall k :: k != skillId ==> Find(r.defaults, k) == Find(s.defaults, k)
    ensures !s.aliased || Find(s.defaults, skillId).None? ==> r.defaults == s.defaults
    ensures Coherent(s) ==> Coherent(r)
  {
    var cut := if |output| <= 500 then |output| else 500;
    var record := Record(id, skillId, category, rating, comment, output[..cut], timestamp);
    var fs := s.feedbacks + [record];
    assert fs[..|s.feedbacks|] == s.feedbacks;
    var stats := Rate(SkillStatsOf(s, skillId), category, rating, comment);
    var shared := s.aliased && Find(s.defaults, skillId).Some?;
    State(fs, Put(s.insights, skillId, stats),
          if shared then Put(s.defaults, skillId, stats) else s.defaults, s.aliased)
  }

  /** The initial state of the hook: the stored log or none, and the stored insights or the
      current `defaultInsights` themselves. */
  function Load(storedFeedbacks: Option<seq<Record>>, storedInsights: Option<seq<Entry>>,
                defaults: seq<Entry>): (r: State)
    requires DistinctSkills(defaults)
    requires storedInsights.Some? ==> DistinctSkills(storedInsights.value)
    ensures Coherent(r) && r.defaults == defaults
    ensures r.feedbacks == (if storedFeedbacks.Some? then storedFeedbacks.value else [])
    ensures storedInsights.None? ==> r.aliased && r.insights == defaults
    ensures storedInsights.Some? ==> !r.aliased && r.insights == storedInsights.value
  {
    State(storedFeedbacks.GetOr([]), storedInsights.GetOr(defaults), defaults, storedInsights.None?)
  }

  /** Insights read back from storage never touch `defaultInsights`, however many ratings follow. */
  lemma StoredLeavesDefaults(s: State, id: string, timestamp: string, skillId: string, category: string,
                             rating: string, comment: string, output: string)
    requires DistinctSkills(s.insights) && DistinctSkills(s.defaults) && !s.aliased
    ensures AddFeedback(s, id, timestamp, skillId, category, rating, comment, output).defaults == s.defaults
  {
  }

  /** A like touches only `likes`; anything but `'positive'` is a dislike. */
  lemma RateCounters(st: SkillStats, category: string, rating: string, comment: string)
    ensures rating == "positive" ==>
      && Rate(st, category, rating, comment).likes == st.likes + 1
      && Rate(st, category, rating, comment).dislikes == st.dislikes
      && Rate(st, category, rating, comment).improvements == st.improvements
    ensures rating != "positive" ==>
      && Rate(st, category, rating, comment).likes == st.likes
      && Rate(st, category, rating, comment).dislikes == st.dislikes + 1
  {
  }

  /** A dislike with a comment puts the comment first among at most five distinct
      improvements, keeps the earlier ones after it in their order, and drops an earlier one
      only once five are held; without a comment the list stays. */
  lemma RateImprovements(st: SkillStats, category: string, rating: string, comment: string)
    requires rating != "positive"
    ensures var imp := Rate(st, category, rating, comment).improvements;
      if comment != "" then
        && 1 <= |imp| <= 5 && imp[0] == comment
        && (forall i, j :: 0 <= i < j < |imp| ==> imp[i] != imp[j])
        && (forall x :: x in imp ==> x == comment || x in st.improvements)
        && (forall x :: x in st.improvements && x !in imp ==> |imp| == 5)
        && (forall i, j :: 0 <= i < j < |imp| ==>
              IndexOf([comment] + st.improvements, imp[i]) < IndexOf([comment] + st.improvements, imp[j]))
      else imp == st.improvements
  {
    if comment != "" {
      var d := Dedup([comment] + st.improvements);
      var imp := Take(d, 5);
      forall x | x in imp ensures x == comment || x in st.improvements {
        assert x in d;
      }
      forall x | x in st.improvements && x !in imp ensures |imp| == 5 {
        assert x in d;
      }
    }
  }

  /** For a list without repeats and a new comment, the comment is simply put in front and the
      list cut to five. */
  lemma RateNewImprovement(st: SkillStats, category: string, rating: string, comment: string)
    requires rating != "positive" && comment != "" && comment !in st.improvements
    requires forall i, j :: 0 <= i < j < |st.improvements| ==> st.improvements[i] != st.improvements[j]
    ensures Rate(st, category, rating, comment).improvements == Take([comment] + st.improvements, 5)
  {
    var s := [comment] + st.improvements;
    assert forall i, j :: 0 <= i < j < |s| ==> s[i] != s[j] by {
      forall i, j | 0 <= i < j < |s| ensures s[i] != s[j] {
        if i > 0 { assert s[i] == st.improvements[i - 1]; }
        assert s[j] == st.improvements[j - 1];
      }
    }
    DedupDistinct(s);
  }

  /** A category already held changes nothing; a new one is appended while fewer than three
      are held and dropped once three are. */
  lemma RateCategories(st: SkillStats, category: string, rating: string, comment: string)
    ensures var cats := Rate(st, category, rating, comment).topCategories;
      && (category in st.topCategories ==> cats == st.topCategories)
      && (category !in st.topCategories && |st.topCategories| < 3 ==> cats == st.topCategories + [category])
      && (category !in st.topCategories && |st.topCategories| >= 3 ==> cats == st.topCategories[..3])
      && (|st.topCategories| <= 3 ==> |cats| <= 3)
  {
    var cats := Rate(st, category, rating, comment).topCategories;
    if category !in st.topCategories && |st.topCategories| >= 3 {
      assert (st.topCategories + [category])[..3] == st.topCategories[..3];
    }
  }

  // ---- getAllStats ----

  function EntryLikes(e: Entry): int { e.stats.likes }
  function EntryDislikes(e: Entry): int { e.stats.dislikes }
  function EntryImprovements(e: Entry): int { |e.stats.improvements| }

  /** The summary of `getAllStats`. */
  datatype Summary = Summary(totalFeedback: nat, totalLikes: int, totalDislikes: int,
                             totalImprovements: int, satisfactionRate: real)

  /** `totalLikes / (totalLikes + totalDislikes) || 0`: `0 / 0` is `NaN`, which falls back
      to 0. */
  function Satisfaction(likes: int, dislikes: int): (r: real)
    requires likes >= 0 && dislikes >= 0
    ensures likes + dislikes == 0 ==> r == 0.0
    ensures likes + dislikes > 0 ==> r * (likes + dislikes) as real == likes as real && 0.0 <= r <= 1.0
  {
    if likes + dislikes == 0 then 0.0 else likes as real / (likes + dislikes) as real
  }

  lemma {:induction false} SumNonNegative(es: seq<Entry>, f: Entry -> int)
    requires forall e :: f(e) >= 0
    ensures SumOf(es, f) >= 0
  {
    if |es| > 0 {
      SumNonNegative(es[1..], f);
    }
  }

  /** `getAllStats()`. */
  function AllStats(s: State): (r: Summary)
    ensures r.totalFeedback == |s.feedbacks|
    ensures r.totalLikes == SumOf(s.insights, EntryLikes) && r.totalDislikes == SumOf(s.insights, EntryDislikes)
    ensures r.totalImprovements == SumOf(s.insights, EntryImprovements)
    ensures r.totalLikes + r.totalDislikes == 0 ==> r.satisfactionRate == 0.0
    ensures r.totalLikes + r.totalDislikes > 0 ==>
      r.satisfactionRate * (r.totalLikes + r.totalDislikes) as real == r.totalLikes as real
    ensures 0.0 <= r.satisfactionRate <= 1.0
  {
    var likes := SumOf(s.insights, EntryLikes);
    var dislikes := SumOf(s.insights, EntryDislikes);
    SumNonNegative(s.insights, EntryLikes);
    SumNonNegative(s.insights, EntryDislikes);
    Summary(|s.feedbacks|, likes, dislikes, SumOf(s.insights, EntryImprovements), Satisfaction(likes, dislikes))
  }

  /** The sum of `f` over the entries once entry `k` is replaced. */
  lemma {:induction false} SumOfPut(es: seq<Entry>, skillId: string, stats: SkillStats, f: Entry -> int)
    requires DistinctSkills(es)
    ensures SumOf(Put(es, skillId, stats), f) ==
      SumOf(es, f) + f(Entry(skillId, stats)) - (if Find(es, skillId).Some? then f(Entry(skillId, Find(es, skillId).value)) else 0)
  {
    if |es| > 0 && es[0].skillId != skillId {
      SumOfPut(es[1..], skillId, stats, f);
    }
  }

  /** Each feedback adds one like or one dislike to the totals, and one record to the log. */
  lemma AddFeedbackTotals(s: State, id: string, timestamp: string, skillId: string, category: string,
                          rating: string, comment: string, output: string)
    requires DistinctSkills(s.insights) && DistinctSkills(s.defaults)
    ensures var before := AllStats(s);
      var after := AllStats(AddFeedback(s, id, timestamp, skillId, category, rating, comment, output));
      && after.totalFeedback == before.totalFeedback + 1
      && after.totalLikes == before.totalLikes + (if rating == "positive" then 1 else 0)
      && after.totalDislikes == before.totalDislikes + (if rating == "positive" then 0 else 1)
  {
    var st := SkillStatsOf(s, skillId);
    var rated := Rate(st, category, rating, comment);
    RateCounters(st, category, rating, comment);
    SumOfPut(s.insights, skillId, rated, EntryLikes);
    SumOfPut(s.insights, skillId, rated, EntryDislikes);
  }

  // ---- getRecentFeedback ----

  /** `getRecentFeedback(limit)`: `feedbacks.slice(-limit).reverse()`; the source's default
      limit is 10. */
  function RecentFeedback(s: State, limit: int): (r: seq<Record>)
    ensures |r| <= |s.feedbacks|
  {
    Reverse(SliceFrom(s.feedbacks, -limit))
  }

  /** For a positive limit: the last `limit` records (or all), newest first. */
  lemma RecentNewestFirst(s: State, limit: int)
    requires limit > 0
    ensures var n := |s.feedbacks|;
      var r := RecentFeedback(s, limit);
      && |r| == (if n <= limit then n else limit)
      && forall i :: 0 <= i < |r| ==> r[i] == s.feedbacks[n - 1 - i]
  {
  }

  /** A limit of 0 returns every record, newest first, since `slice(-0)` is `slice(0)`. */
  lemma RecentZero(s: State)
    ensures RecentFeedback(s, 0) == Reverse(s.feedbacks)
  {
  }

  // ---- defaults and clearFeedback ----

  /** The insights a fresh install starts from, and that `clearFeedback` restores. */
  const DefaultInsights := [
    Entry("productLaunch", SkillStats(12, 2, ["GTM Strategy", "Press Release"],
      ["Add more Web3 examples", "Include budget templates"])),
    Entry("viralX", SkillStats(45, 5, ["Hook Generator", "Thread"],
      ["More niche-specific hooks", "Add engagement predictions"])),
    Entry("cryptoContent", SkillStats(28, 3, ["Protocol Analysis", "Educational Thread"],
      ["Add on-chain data templates", "Include tokenomics calculators"]))]

  /** `clearFeedback()`: no records, and the insights set back to the `defaultInsights` object,
      whose entries are shared again. */
  function ClearFeedback(s: State): (r: State)
    requires DistinctSkills(s.defaults)
    ensures r.feedbacks == [] && r.aliased && r.defaults == s.defaults
    ensures forall k :: Find(r.insights, k) == Find(s.defaults, k)
    ensures Coherent(r)
  {
    State([], s.defaults, s.defaults, true)
  }

  /** While `defaultInsights` still holds its original values, a clear shows no feedback, the
      default 85 likes against 10 dislikes, six improvements, and nothing recent. */
  lemma ClearedStats(s: State, limit: int)
    requires s.defaults == DefaultInsights
    ensures var r := AllStats(ClearFeedback(s));
      && r.totalFeedback == 0 && r.totalLikes == 85 && r.totalDislikes == 10
      && r.totalImprovements == 6 && r.satisfactionRate * 95.0 == 85.0
    ensures RecentFeedback(ClearFeedback(s), limit) == []
  {
    var es := DefaultInsights;
    assert es[1..][1..][1..] == [];
  }

  /** A clear does not restore the original defaults once a default skill was rated in
      between: clear, like `viralX`, and clear again shows 46 likes for it, not 45. */
  lemma ClearKeepsRatingOfDefault(s: State, id: string, timestamp: string, category: string,
                                  comment: string, output: string)
    requires s.defaults == DefaultInsights
    ensures var cleared := ClearFeedback(s);
      var rated := AddFeedback(cleared, id, timestamp, "viralX", category, "positive", comment, output);
      var again := ClearFeedback(rated);
      && again.feedbacks == []
      && SkillStatsOf(again, "viralX").likes == 46
      && AllStats(again).totalLikes == 86
  {
    var cleared := ClearFeedback(s);
    var es := DefaultInsights;
    assert es[1..][1..][1..] == [];
    assert Find(es, "viralX") == Some(es[1].stats);
    var rated := AddFeedback(cleared, id, timestamp, "viralX", category, "positive", comment, output);
    RateCounters(es[1].stats, category, "positive", comment);
    assert SkillStatsOf(rated, "viralX").likes == 46;
    SumOfPut(es, "viralX", SkillStatsOf(rated, "viralX"), EntryLikes);
  }
}
