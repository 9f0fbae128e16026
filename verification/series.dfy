/** Per-day aggregation of post metrics into the two parallel chart series. Both ingestion
    paths build a `byDate` object keyed by `yyyy-MM-dd`, add each post's counts to its day's
    bucket, sort the entries by key and split them into an impressions series and an
    engagement series. Here the sorted association list stands for the sorted entries. */
module Series {
  import opened Wrappers
  import opened Dates

  /** The counters of one day's bucket. */
  datatype Bucket = Bucket(impressions: int, likes: int, retweets: int, replies: int, bookmarks: int)

  const Zero := Bucket(0, 0, 0, 0, 0)

  function Plus(a: Bucket, b: Bucket): Bucket {
    Bucket(a.impressions + b.impressions, a.likes + b.likes, a.retweets + b.retweets,
           a.replies + b.replies, a.bookmarks + b.bookmarks)
  }

  lemma PlusZero(a: Bucket)
    ensures Plus(a, Zero) == a
  {
  }

  /** One post's contribution: the day its timestamp falls on, if it parses, and its counts. */
  datatype Sample = Sample(day: Option<Day>, counts: Bucket)

  /** One `[dateKey, data]` entry of the grouped object. */
  datatype Entry = Entry(day: Day, total: Bucket)

  /** The entries are in strictly ascending day order, so each day appears once. */
  ghost predicate Ascending(es: seq<Entry>) {
    forall i, j :: 0 <= i < j < |es| ==> es[i].day < es[j].day
  }

  function DaysOf(es: seq<Entry>): (r: seq<Day>)
    ensures |r| == |es| && forall i :: 0 <= i < |es| ==> r[i] == es[i].day
  {
    seq(|es|, i requires 0 <= i < |es| => es[i].day)
  }

  /** `byDate[d]`: the bucket of day `d`, if there is one. */
  function Lookup(es: seq<Entry>, d: Day): Option<Bucket> {
    if |es| == 0 then None else if es[0].day == d then Some(es[0].total) else Lookup(es[1..], d)
  }

  /** The sum of all buckets. */
  function Total(es: seq<Entry>): Bucket {
    if |es| == 0 then Zero else Plus(es[0].total, Total(es[1..]))
  }

  lemma LookupInDays(es: seq<Entry>, d: Day)
    ensures Lookup(es, d).Some? <==> d in DaysOf(es)
  {
    if |es| > 0 {
      LookupInDays(es[1..], d);
      assert DaysOf(es) == [es[0].day] + DaysOf(es[1..]);
    }
  }

  /** In ascending entries, looking up an entry's day finds that entry. */
  lemma {:induction false} LookupAt(es: seq<Entry>, i: int)
    requires Ascending(es) && 0 <= i < |es|
    ensures Lookup(es, es[i].day) == Some(es[i].total)
  {
    if i > 0 {
      LookupAt(es[1..], i - 1);
    }
  }

  /** Adds `b` to the bucket of day `d`, creating that bucket in its sorted place when the day
      is new: the update `byDate[d] = (byDate[d] || zero) + b`. */
  function Add(es: seq<Entry>, d: Day, b: Bucket): (r: seq<Entry>)
    requires Ascending(es)
    ensures Ascending(r)
    ensures forall i :: 0 <= i < |r| ==> r[i].day == d || r[i].day in DaysOf(es)
    ensures forall e :: Lookup(r, e) == if e == d then Some(Plus(Lookup(es, d).GetOr(Zero), b)) else Lookup(es, e)
    ensures Total(r) == Plus(Total(es), b)
  {
    if |es| == 0 then [Entry(d, b)]
    else if es[0].day == d then
      var r := [Entry(d, Plus(es[0].total, b))] + es[1..];
      assert r[1..] == es[1..];
      r
    else if d < es[0].day then
      AddBefore(es, d, b);
      [Entry(d, b)] + es
    else
      var rest := Add(es[1..], d, b);
      AddBehind(es, d, b, rest);
      [es[0]] + rest
  }

  /** The step of `Add` that puts a new day in front of the list. */
  lemma {:induction false} AddBefore(es: seq<Entry>, d: Day, b: Bucket)
    requires Ascending(es) && |es| > 0 && d < es[0].day
    ensures var r := [Entry(d, b)] + es;
      && Ascending(r)
      && (forall e :: Lookup(r, e) == if e == d then Some(Plus(Lookup(es, d).GetOr(Zero), b)) else Lookup(es, e))
      && Total(r) == Plus(Total(es), b)
  {
    var r := [Entry(d, b)] + es;
    assert r[1..] == es;
    forall e | e != d ensures Lookup(r, e) == Lookup(es, e) { }
    assert Lookup(es, d) == None by {
      LookupInDays(es, d);
    }
    forall i, j | 0 <= i < j < |r| ensures r[i].day < r[j].day {
      if i == 0 {
        assert r[j] == es[j - 1];
      } else {
        assert r[i] == es[i - 1] && r[j] == es[j - 1];
      }
    }
  }

  /** The step of `Add` that passes over a smaller first day: the facts about the tail carry
      over to the whole list. */
  lemma {:induction false} AddBehind(es: seq<Entry>, d: Day, b: Bucket, rest: seq<Entry>)
    requires Ascending(es) && |es| > 0 && es[0].day < d
    requires Ascending(rest)
    requires forall i :: 0 <= i < |rest| ==> rest[i].day == d || rest[i].day in DaysOf(es[1..])
    requires forall e :: Lookup(rest, e) == if e == d then Some(Plus(Lookup(es[1..], d).GetOr(Zero), b)) else Lookup(es[1..], e)
    requires Total(rest) == Plus(Total(es[1..]), b)
    ensures var r := [es[0]] + rest;
      && Ascending(r)
      && (forall i :: 0 <= i < |r| ==> r[i].day == d || r[i].day in DaysOf(es))
      && (forall e :: Lookup(r, e) == if e == d then Some(Plus(Lookup(es, d).GetOr(Zero), b)) else Lookup(es, e))
      && Total(r) == Plus(Total(es), b)
  {
    var r := [es[0]] + rest;
    assert r[1..] == rest;
    forall i | 0 <= i < |rest| ensures es[0].day < rest[i].day {
      if rest[i].day != d {
        var j :| 0 <= j < |es[1..]| && DaysOf(es[1..])[j] == rest[i].day;
        assert es[j + 1].day == rest[i].day;
      }
    }
    forall i | 0 <= i < |r| ensures r[i].day == d || r[i].day in DaysOf(es) {
      if i > 0 && r[i].day != d {
        var j :| 0 <= j < |es[1..]| && DaysOf(es[1..])[j] == r[i].day;
        assert DaysOf(es)[j + 1] == r[i].day;
      }
    }
  }

  /** Adds one sample; a sample whose timestamp does not parse is skipped (`if (!date) return`). */
  function AddSample(es: seq<Entry>, s: Sample): (r: seq<Entry>)
    requires Ascending(es)
    ensures Ascending(r)
  {
    if s.day.Some? then Add(es, s.day.value, s.counts) else es
  }

  /** The `forEach` over the posts followed by the key sort: the grouped, ascending entries. */
  function Group(ss: seq<Sample>): (r: seq<Entry>)
    ensures Ascending(r)
  {
    if |ss| == 0 then [] else AddSample(Group(ss[..|ss| - 1]), ss[|ss| - 1])
  }

  /** Some sample falls on day `d`. */
  ghost predicate Occurs(ss: seq<Sample>, d: Day) {
    exists i :: 0 <= i < |ss| && ss[i].day == Some(d)
  }

  /** Reference definition: the sum of the counts of the samples that fall on day `d`. */
  function SumOn(ss: seq<Sample>, d: Day): Bucket {
    if |ss| == 0 then Zero
    else Plus(SumOn(ss[..|ss| - 1], d), if ss[|ss| - 1].day == Some(d) then ss[|ss| - 1].counts else Zero)
  }

  /** Reference definition: the sum of the counts of every sample whose timestamp parses. */
  function SumParsed(ss: seq<Sample>): Bucket {
    if |ss| == 0 then Zero
    else Plus(SumParsed(ss[..|ss| - 1]), if ss[|ss| - 1].day.Some? then ss[|ss| - 1].counts else Zero)
  }

  lemma OccursSnoc(ss: seq<Sample>, d: Day)
    requires |ss| > 0
    ensures Occurs(ss, d) <==> Occurs(ss[..|ss| - 1], d) || ss[|ss| - 1].day == Some(d)
  {
    var init := ss[..|ss| - 1];
    if Occurs(ss, d) && ss[|ss| - 1].day != Some(d) {
      var i :| 0 <= i < |ss| && ss[i].day == Some(d);
      assert init[i] == ss[i];
    }
    if Occurs(init, d) {
      var i :| 0 <= i < |init| && init[i].day == Some(d);
      assert ss[i] == init[i];
    }
  }

  /** Adding one sample changes only the bucket of its own day. */
  lemma LookupAddSample(es: seq<Entry>, s: Sample, d: Day)
    requires Ascending(es)
    ensures Lookup(AddSample(es, s), d) ==
      if s.day == Some(d) then Some(Plus(Lookup(es, d).GetOr(Zero), s.counts)) else Lookup(es, d)
  {
  }

  /** The grouped series has a bucket for day `d` exactly when some sample falls on `d`. */
  lemma {:induction false} GroupHas(ss: seq<Sample>, d: Day)
    ensures Lookup(Group(ss), d).Some? <==> Occurs(ss, d)
  {
    if |ss| > 0 {
      var init := ss[..|ss| - 1];
      GroupHas(init, d);
      OccursSnoc(ss, d);
      LookupAddSample(Group(init), ss[|ss| - 1], d);
    }
  }

  /** The bucket of day `d` holds the sum of the counts of the samples that fall on `d`. */
  lemma {:induction false} GroupSum(ss: seq<Sample>, d: Day)
    ensures Lookup(Group(ss), d).GetOr(Zero) == SumOn(ss, d)
  {
    if |ss| > 0 {
      var init := ss[..|ss| - 1];
      var last := ss[|ss| - 1];
      GroupSum(init, d);
      LookupAddSample(Group(init), last, d);
      assert Group(ss) == AddSample(Group(init), last);
      if last.day == Some(d) {
        assert SumOn(ss, d) == Plus(SumOn(init, d), last.counts);
      } else {
        PlusZero(SumOn(init, d));
        assert SumOn(ss, d) == Plus(SumOn(init, d), Zero);
      }
    }
  }

  /** Every sample whose timestamp parses is counted once: the buckets add up to the parsed
      samples' counts. */
  lemma {:induction false} GroupTotal(ss: seq<Sample>)
    ensures Total(Group(ss)) == SumParsed(ss)
  {
    if |ss| > 0 {
      var init := ss[..|ss| - 1];
      var last := ss[|ss| - 1];
      GroupTotal(init);
      assert Group(ss) == AddSample(Group(init), last);
      if last.day.None? {
        PlusZero(SumParsed(init));
      }
    }
  }

  /** Each day of the grouped series is a day some sample falls on. */
  lemma GroupDays(ss: seq<Sample>, i: int)
    requires 0 <= i < |Group(ss)|
    ensures Occurs(ss, Group(ss)[i].day)
  {
    var es := Group(ss);
    var d := es[i].day;
    assert d in DaysOf(es);
    LookupInDays(es, d);
    GroupHas(ss, d);
  }

  /** The `days` zero buckets of the window that ends on `today`, oldest first. */
  function Window(today: Day, days: int): (r: seq<Entry>)
    ensures |r| == (if days > 0 then days else 0)
    ensures forall k :: 0 <= k < |r| ==> r[k] == Entry(today - (days - 1) + k, Zero)
  {
    var n := if days > 0 then days else 0;
    seq(n, k requires 0 <= k < n => Entry(today - (days - 1) + k, Zero))
  }

  /** Adds `b` to day `d`'s bucket when the day already has one (`if (tweetsByDate[d])`). */
  function AddExisting(es: seq<Entry>, d: Day, b: Bucket): (r: seq<Entry>)
    ensures |r| == |es|
    ensures forall k :: 0 <= k < |es| ==> r[k].day == es[k].day
    ensures forall k :: 0 <= k < |es| ==> r[k].total == if es[k].day == d then Plus(es[k].total, b) else es[k].total
  {
    seq(|es|, k requires 0 <= k < |es| => if es[k].day == d then Entry(d, Plus(es[k].total, b)) else es[k])
  }

  /** The samples added into fixed buckets, in order. */
  function Fill(es: seq<Entry>, ss: seq<Sample>): (r: seq<Entry>)
    ensures |r| == |es|
    ensures forall k :: 0 <= k < |es| ==> r[k].day == es[k].day
  {
    if |ss| == 0 then es
    else
      var prev := Fill(es, ss[..|ss| - 1]);
      var s := ss[|ss| - 1];
      if s.day.Some? then AddExisting(prev, s.day.value, s.counts) else prev
  }

  /** Each fixed bucket ends up holding its starting counts plus the sum over the samples of its
      day; samples of other days leave it alone. */
  lemma {:induction false} FillSum(es: seq<Entry>, ss: seq<Sample>, k: int)
    requires 0 <= k < |es|
    ensures Fill(es, ss)[k].total == Plus(es[k].total, SumOn(ss, es[k].day))
  {
    if |ss| > 0 {
      FillSum(es, ss[..|ss| - 1], k);
    }
  }

  /** A point of the impressions chart. */
  datatype ImpressionPoint = ImpressionPoint(day: Day, impressions: int, followers: int)

  /** A point of the engagement chart. */
  datatype EngagementPoint = EngagementPoint(day: Day, likes: int, retweets: int, replies: int, bookmarks: int)

  /** The `{ impressionsData, engagementData }` pair. */
  datatype Charts = Charts(impressionsData: seq<ImpressionPoint>, engagementData: seq<EngagementPoint>)

  /** Splits the entries into the two chart series; every impressions point carries `followers`. */
  function ToCharts(es: seq<Entry>, followers: int): (r: Charts)
    ensures |r.impressionsData| == |es| && |r.engagementData| == |es|
    ensures forall i :: 0 <= i < |es| ==> r.impressionsData[i].day == es[i].day && r.engagementData[i].day == es[i].day
    ensures forall i :: 0 <= i < |es| ==> r.impressionsData[i].followers == followers
    ensures forall i :: 0 <= i < |es| ==> r.impressionsData[i].impressions == es[i].total.impressions
    ensures forall i :: 0 <= i < |es| ==>
      var e := r.engagementData[i];
      e.likes == es[i].total.likes && e.retweets == es[i].total.retweets &&
      e.replies == es[i].total.replies && e.bookmarks == es[i].total.bookmarks
  {
    Charts(
      seq(|es|, i requires 0 <= i < |es| => ImpressionPoint(es[i].day, es[i].total.impressions, followers)),
      seq(|es|, i requires 0 <= i < |es| =>
        EngagementPoint(es[i].day, es[i].total.likes, es[i].total.retweets, es[i].total.replies, es[i].total.bookmarks)))
  }
}
