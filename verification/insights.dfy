/** The rule tables of `src/data/insights.js`: the reasons `analyzePostPerformance` gives
    for a post, the impression and engagement estimate of `predictPerformance`, and the
    best-hook selection that heads the list of `generateInsights`. Numbers the source prints
    with `toFixed` are not part of this model. */
module Insights {
  import opened Wrappers
  import opened Text
  import opened Helpers
  import opened HookRollup

  // ---- analyzePostPerformance ----

  /** The fields of a post that the analysis reads; `postedAt` may be missing. */
  datatype Post = Post(
    text: string,
    hookType: string,
    contentType: string,
    postedAt: Option<string>,
    likes: int,
    replies: int,
    bookmarks: int)

  /** The reasons the analysis can give, one per rule outcome. */
  datatype Reason =
    | ContrarianHook | DataHook | FomoHook
    | MorningTime | EveningTime
    | ThreadFormat | BookmarkRatio | ReplyCount | TopicMatch | CallToAction

  /** The sentences the analysis reports, one per reason. */
  const ContrarianHookText := "Contrarian hook creates immediate engagement and debate"
  const DataHookText := "Data-driven hook establishes credibility instantly"
  const FomoHookText := "FOMO hook triggers urgency and saves/bookmarks"
  const MorningTimeText := "Posted at optimal morning time (8-10 AM EST)"
  const EveningTimeText := "Posted at optimal evening time (7-9 PM EST)"
  const ThreadFormatText := "Thread format increases time-on-post (algorithm boost)"
  const BookmarkRatioText := "High bookmark ratio indicates valuable, save-worthy content"
  const ReplyCountText := "Strong reply count shows conversation-starting potential"
  const TopicMatchText := "Topic aligns with your audience interests (Web3/crypto)"
  const CallToActionText := "Clear call-to-action drives replies"

  /** The sentence pushed for each reason. */
  function Message(r: Reason): string {
    match r
    case ContrarianHook => ContrarianHookText
    case DataHook => DataHookText
    case FomoHook => FomoHookText
    case MorningTime => MorningTimeText
    case EveningTime => EveningTimeText
    case ThreadFormat => ThreadFormatText
    case BookmarkRatio => BookmarkRatioText
    case ReplyCount => ReplyCountText
    case TopicMatch => TopicMatchText
    case CallToAction => CallToActionText
  }

  /** The rule a reason belongs to, in the order the analysis applies the rules: hook, time,
      thread, bookmarks, replies, topic, call to action. */
  function Slot(r: Reason): nat {
    match r
    case ContrarianHook | DataHook | FomoHook => 0
    case MorningTime | EveningTime => 1
    case ThreadFormat => 2
    case BookmarkRatio => 3
    case ReplyCount => 4
    case TopicMatch => 5
    case CallToAction => 6
  }

  /** `postedAt?.includes(p)`: false when `postedAt` is missing. */
  predicate PostedAtHas(p: Post, part: string) {
    p.postedAt.Some? && Contains(p.postedAt.value, part)
  }

  predicate Morning(p: Post) {
    PostedAtHas(p, "8") || PostedAtHas(p, "9")
  }

  predicate Evening(p: Post) {
    PostedAtHas(p, "7 PM") || PostedAtHas(p, "8 PM")
  }

  /** `bookmarks > likes * 0.3`, on exact numbers. */
  predicate SaveWorthy(p: Post) {
    10 * p.bookmarks > 3 * p.likes
  }

  predicate OnTopic(p: Post) {
    Contains(ToLower(p.text), "web3") || Contains(ToLower(p.text), "crypto")
  }

  predicate HasCallToAction(p: Post) {
    Contains(p.text, "?") || Contains(p.text, "👇")
  }

  /** The outcome of the hook rule: at most one hook reason. */
  function HookOutcome(p: Post): (r: Option<Reason>)
    ensures r.Some? ==> Slot(r.value) == 0
  {
    if p.hookType == "Contrarian" then Some(ContrarianHook)
    else if p.hookType == "Data/Numbers" then Some(DataHook)
    else if p.hookType == "FOMO" then Some(FomoHook)
    else None
  }

  /** The outcome of the time rule: the morning test is tried first. */
  function TimeOutcome(p: Post): (r: Option<Reason>)
    ensures r.Some? ==> Slot(r.value) == 1
  {
    if Morning(p) then Some(MorningTime)
    else if Evening(p) then Some(EveningTime)
    else None
  }

  /** A reason when `c` holds, none otherwise. */
  function When(c: bool, reason: Reason): Option<Reason> {
    if c then Some(reason) else None
  }

  /** The outcome of each of the seven rules, in the order the source applies them. */
  function Outcomes(p: Post): (r: seq<Option<Reason>>)
    ensures |r| == 7
    ensures forall k :: 0 <= k < 7 && r[k].Some? ==> Slot(r[k].value) == k
  {
    [HookOutcome(p), TimeOutcome(p),
     When(p.contentType == "Thread", ThreadFormat),
     When(SaveWorthy(p), BookmarkRatio),
     When(p.replies > 50, ReplyCount),
     When(OnTopic(p), TopicMatch),
     When(HasCallToAction(p), CallToAction)]
  }

  /** The reasons pushed, in order: the rules that gave one. */
  function Pushed(s: seq<Option<Reason>>): (r: seq<Reason>)
    ensures |r| <= |s|
  {
    if |s| == 0 then []
    else (if s[0].Some? then [s[0].value] else []) + Pushed(s[1..])
  }

  /** A reason is pushed exactly when some rule gave it. */
  lemma {:induction false} PushedHas(s: seq<Option<Reason>>, y: Reason)
    ensures y in Pushed(s) <==> Some(y) in s
  {
    if |s| > 0 {
      PushedHas(s[1..], y);
      assert s == [s[0]] + s[1..];
    }
  }

  /** Rules whose reasons carry increasing slots push them in increasing slot order. */
  lemma {:induction false} PushedAscending(s: seq<Option<Reason>>, from: nat)
    requires forall k :: 0 <= k < |s| && s[k].Some? ==> Slot(s[k].value) == from + k
    ensures forall y :: y in Pushed(s) ==> Slot(y) >= from
    ensures forall i, j :: 0 <= i < j < |Pushed(s)| ==> Slot(Pushed(s)[i]) < Slot(Pushed(s)[j])
  {
    if |s| > 0 {
      PushedAscending(s[1..], from + 1);
      var rest := Pushed(s[1..]);
      assert forall y :: y in rest ==> Slot(y) >= from + 1;
    }
  }

  /** `analyzePostPerformance(post)`, as reasons; `Message` gives each one's sentence. */
  function AnalyzePost(p: Post): (r: seq<Reason>)
    ensures |r| <= 7
  {
    Pushed(Outcomes(p))
  }

  /** Recovers the reason from its sentence: the length and the last character tell the ten apart. */
  function ReasonOf(m: string): (r: Option<Reason>)
    ensures r.Some? ==> |m| > 0
  {
    if |m| == 0 then None
    else
      var last := m[|m| - 1];
      if |m| == 55 && last == 'e' then Some(ContrarianHook)
      else if |m| == 50 && last == 'y' then Some(DataHook)
      else if |m| == 46 && last == 's' then Some(FomoHook)
      else if |m| == 44 && last == ')' then Some(MorningTime)
      else if |m| == 43 && last == ')' then Some(EveningTime)
      else if |m| == 54 && last == ')' then Some(ThreadFormat)
      else if |m| == 59 && last == 't' then Some(BookmarkRatio)
      else if |m| == 56 && last == 'l' then Some(ReplyCount)
      else if |m| == 55 && last == ')' then Some(TopicMatch)
      else if |m| == 35 && last == 's' then Some(CallToAction)
      else None
  }

  /** `ReasonOf` inverts `Message`. */
  lemma ReasonOfMessage(r: Reason)
    ensures ReasonOf(Message(r)) == Some(r)
  {
    match r
    case ContrarianHook => assert |Message(r)| == 55 && Message(r)[54] == 'e';
    case DataHook => assert |Message(r)| == 50 && Message(r)[49] == 'y';
    case FomoHook => assert |Message(r)| == 46 && Message(r)[45] == 's';
    case MorningTime => assert |Message(r)| == 44 && Message(r)[43] == ')';
    case EveningTime => assert |Message(r)| == 43 && Message(r)[42] == ')';
    case ThreadFormat => assert |Message(r)| == 54 && Message(r)[53] == ')';
    case BookmarkRatio => assert |Message(r)| == 59 && Message(r)[58] == 't';
    case ReplyCount => assert |Message(r)| == 56 && Message(r)[55] == 'l';
    case TopicMatch => assert |Message(r)| == 55 && Message(r)[54] == ')';
    case CallToAction => assert |Message(r)| == 35 && Message(r)[34] == 's';
  }

  /** Different reasons have different sentences. */
  lemma MessageInjective(x: Reason, y: Reason)
    requires Message(x) == Message(y)
    ensures x == y
  {
    ReasonOfMessage(x);
    ReasonOfMessage(y);
  }

  /** The sentences `analyzePostPerformance(post)` returns. */
  function AnalyzeMessages(p: Post): (r: seq<string>)
    ensures |r| == |AnalyzePost(p)|
    ensures forall i :: 0 <= i < |r| ==> r[i] == Message(AnalyzePost(p)[i])
    ensures forall x :: Message(x) in r <==> x in AnalyzePost(p)
  {
    var rs := AnalyzePost(p);
    var r := seq(|rs|, i requires 0 <= i < |rs| => Message(rs[i]));
    assert forall x :: Message(x) in r ==> x in rs by {
      forall x | Message(x) in r ensures x in rs {
        var i :| 0 <= i < |r| && r[i] == Message(x);
        MessageInjective(rs[i], x);
      }
    }
    r
  }

  /** The rules come in their fixed order, each giving at most one reason: so there are at
      most seven reasons and at most one about the hook. */
  lemma AnalyzeOrder(p: Post)
    ensures var r := AnalyzePost(p);
      forall i, j :: 0 <= i < j < |r| ==> Slot(r[i]) < Slot(r[j])
  {
    PushedAscending(Outcomes(p), 0);
  }

  /** A reason is given exactly when the rule of its slot gave it. */
  lemma AnalyzeHas(p: Post, y: Reason)
    ensures y in AnalyzePost(p) <==> Outcomes(p)[Slot(y)] == Some(y)
  {
    var s := Outcomes(p);
    PushedHas(s, y);
    if Some(y) in s {
      var k :| 0 <= k < |s| && s[k] == Some(y);
      assert Slot(y) == k;
    }
  }

  /** At most one hook reason, for exactly the three hooks that have one. */
  lemma AnalyzeHookRule(p: Post)
    ensures var r := AnalyzePost(p);
      && (ContrarianHook in r <==> p.hookType == "Contrarian")
      && (DataHook in r <==> p.hookType == "Data/Numbers")
      && (FomoHook in r <==> p.hookType == "FOMO")
  {
    AnalyzeHas(p, ContrarianHook);
    AnalyzeHas(p, DataHook);
    AnalyzeHas(p, FomoHook);
  }

  /** A post time with an 8 or a 9 anywhere takes the morning reason and never the evening
      one; the evening reason needs "7 PM" or "8 PM". */
  lemma AnalyzeTimeRule(p: Post)
    ensures var r := AnalyzePost(p);
      && (MorningTime in r <==> Morning(p))
      && (EveningTime in r <==> !Morning(p) && Evening(p))
  {
    AnalyzeHas(p, MorningTime);
    AnalyzeHas(p, EveningTime);
  }

  /** The thread, bookmark, reply, topic and call-to-action reasons each appear exactly under
      their own test. */
  lemma AnalyzeLaterRules(p: Post)
    ensures var r := AnalyzePost(p);
      && (ThreadFormat in r <==> p.contentType == "Thread")
      && (BookmarkRatio in r <==> SaveWorthy(p))
      && (ReplyCount in r <==> p.replies > 50)
      && (TopicMatch in r <==> OnTopic(p))
      && (CallToAction in r <==> HasCallToAction(p))
  {
    AnalyzeHas(p, ThreadFormat);
    AnalyzeHas(p, BookmarkRatio);
    AnalyzeHas(p, ReplyCount);
    AnalyzeHas(p, TopicMatch);
    AnalyzeHas(p, CallToAction);
  }

  /** "8 PM" contains an 8, so an evening post at eight gets the morning reason. */
  lemma EightPmIsMorning(p: Post)
    requires p.postedAt == Some("8 PM")
    ensures MorningTime in AnalyzePost(p) && EveningTime !in AnalyzePost(p)
  {
    assert OccursAt("8 PM", "8", 0);
    AnalyzeTimeRule(p);
  }

  /** The topic rule ignores case. */
  lemma TopicIgnoresCase(p: Post)
    ensures OnTopic(p) <==> OnTopic(p.(text := ToLower(p.text)))
  {
    LowerIdempotent(p.text);
  }

  // ---- predictPerformance ----

  const BaseImpressions: map<string, int> := map[
    "Contrarian" := 78000,
    "Data/Numbers" := 65000,
    "FOMO" := 52000,
    "Question" := 41000,
    "Story" := 38000,
    "Bold Statement" := 45000]

  const TypeMultiplier: map<string, real> := map[
    "Thread" := 1.8,
    "Long-form" := 1.3,
    "Single Tweet" := 1.0]

  const EngagementRates: map<string, real> := map[
    "Contrarian" := 4.2,
    "Data/Numbers" := 3.8,
    "FOMO" := 3.5,
    "Question" := 4.8,
    "Story" := 5.1]

  const Variance := 0.3

  /** The estimate of `predictPerformance`. */
  datatype Prediction = Prediction(min: int, max: int, engagement: real)

  /** `Math.round`: halves round up. */
  function Round(x: real): (r: int)
    ensures r as real - 0.5 <= x < r as real + 0.5
  {
    (x + 0.5).Floor
  }

  /** `m[k] || fallback` for a table whose values are all non-zero. */
  function LookupOr<V>(m: map<string, V>, k: string, fallback: V): V {
    if k in m then m[k] else fallback
  }

  /** `predictPerformance(content, hookType, contentType)`: the hook's base impressions
      (35000 when unknown), times the content type's multiplier (1.0 when unknown), widened by
      30% each way and rounded; the hook's engagement rate, or 3.5. The content itself is not
      read. */
  function Predict(content: string, hookType: string, contentType: string): (r: Prediction)
    ensures hookType !in BaseImpressions && contentType !in TypeMultiplier ==> r.min == 24500 && r.max == 45500
    ensures hookType !in EngagementRates ==> r.engagement == 3.5
  {
    var base := LookupOr(BaseImpressions, hookType, 35000);
    var multiplier := LookupOr(TypeMultiplier, contentType, 1.0);
    Widen(base as real * multiplier, LookupOr(EngagementRates, hookType, 3.5))
  }

  /** The expected figure widened by `Variance` each way and rounded. */
  function Widen(expected: real, engagement: real): (r: Prediction)
    ensures r.engagement == engagement
  {
    Prediction(Round(expected * (1.0 - Variance)), Round(expected * (1.0 + Variance)), engagement)
  }

  /** Rounding keeps order. */
  lemma RoundMonotone(x: real, y: real)
    requires x <= y
    ensures Round(x) <= Round(y)
  {
  }

  /** The low end is positive and never exceeds the high end. */
  lemma PredictRange(content: string, hookType: string, contentType: string)
    ensures var r := Predict(content, hookType, contentType);
      0 < r.min <= r.max
  {
    var base := LookupOr(BaseImpressions, hookType, 35000);
    var multiplier := LookupOr(TypeMultiplier, contentType, 1.0);
    assert base >= 35000 && multiplier >= 1.0;
    var expected := base as real * multiplier;
    assert expected >= 35000.0;
    RoundMonotone(expected * 0.7, expected * 1.3);
  }

  /** For a fixed content type, a hook with a larger base figure never gets a lower range. */
  lemma PredictMonotone(content: string, hook1: string, hook2: string, contentType: string)
    requires LookupOr(BaseImpressions, hook1, 35000) <= LookupOr(BaseImpressions, hook2, 35000)
    ensures Predict(content, hook1, contentType).min <= Predict(content, hook2, contentType).min
    ensures Predict(content, hook1, contentType).max <= Predict(content, hook2, contentType).max
  {
    var m := LookupOr(TypeMultiplier, contentType, 1.0);
    var b1 := LookupOr(BaseImpressions, hook1, 35000) as real;
    var b2 := LookupOr(BaseImpressions, hook2, 35000) as real;
    var g1 := LookupOr(EngagementRates, hook1, 3.5);
    var g2 := LookupOr(EngagementRates, hook2, 3.5);
    PredictIsWiden(content, hook1, contentType);
    PredictIsWiden(content, hook2, contentType);
    MultiplierAtLeastOne(contentType);
    WidenScaled(b1, b2, m, g1, g2);
  }

  /** The estimate is the widened product of the two table lookups. */
  lemma PredictIsWiden(content: string, hookType: string, contentType: string)
    ensures Predict(content, hookType, contentType) == Widen(LookupOr(BaseImpressions, hookType, 35000) as real * LookupOr(TypeMultiplier, contentType, 1.0), LookupOr(EngagementRates, hookType, 3.5))
  {
  }

  /** No content type scales the base figure down. */
  lemma MultiplierAtLeastOne(contentType: string)
    ensures LookupOr(TypeMultiplier, contentType, 1.0) >= 1.0
  {
  }

  /** Scaling by a non-negative factor keeps order. */
  lemma ScaleMonotone(a: real, b: real, m: real)
    requires a <= b && m >= 0.0
    ensures a * m <= b * m
  {
  }

  /** Scaling two ordered base figures by the same multiplier keeps their ranges ordered. */
  lemma WidenScaled(b1: real, b2: real, m: real, g1: real, g2: real)
    requires b1 <= b2 && m >= 0.0
    ensures Widen(b1 * m, g1).min <= Widen(b2 * m, g2).min
    ensures Widen(b1 * m, g1).max <= Widen(b2 * m, g2).max
  {
    var e1, e2 := b1 * m, b2 * m;
    ScaleMonotone(b1, b2, m);
    assert e1 <= e2;
    WidenMonotone(e1, e2, g1, g2);
  }

  /** A larger expected figure never gets a lower range. */
  lemma WidenMonotone(e1: real, e2: real, g1: real, g2: real)
    requires e1 <= e2
    ensures Widen(e1, g1).min <= Widen(e2, g2).min
    ensures Widen(e1, g1).max <= Widen(e2, g2).max
  {
    RoundMonotone(e1 * (1.0 - Variance), e2 * (1.0 - Variance));
    RoundMonotone(e1 * (1.0 + Variance), e2 * (1.0 + Variance));
  }

  /** "Bold Statement" has a base figure but no engagement rate, so it gets the default rate. */
  lemma BoldStatementRate(content: string, contentType: string)
    ensures Predict(content, "Bold Statement", contentType).engagement == 3.5
  {
  }

  // ---- generateInsights ----

  /** The index `hookPerformance.reduce((a, b) => a.avgImpressions > b.avgImpressions ? a : b)`
      ends on: a maximum, and the last one, since a tie hands over to the later entry. */
  function BestIndex(hs: seq<HookStat>): (i: nat)
    requires |hs| > 0
    ensures i < |hs|
    ensures forall j :: 0 <= j < |hs| ==> hs[j].avgImpressions <= hs[i].avgImpressions
    ensures forall j :: i < j < |hs| ==> hs[j].avgImpressions < hs[i].avgImpressions
  {
    if |hs| == 1 then 0
    else
      var a := BestIndex(hs[..|hs| - 1]);
      if hs[a].avgImpressions > hs[|hs| - 1].avgImpressions then a else |hs| - 1
  }

  /** The contract of `BestIndex` pins the index down: any other index with both properties is
      the same one. */
  lemma BestIndexUnique(hs: seq<HookStat>, k: int)
    requires 0 <= k < |hs|
    requires forall j :: 0 <= j < |hs| ==> hs[j].avgImpressions <= hs[k].avgImpressions
    requires forall j :: k < j < |hs| ==> hs[j].avgImpressions < hs[k].avgImpressions
    ensures BestIndex(hs) == k
  {
    var i := BestIndex(hs);
    assert hs[k].avgImpressions <= hs[i].avgImpressions <= hs[k].avgImpressions;
  }

  /** One insight card. */
  datatype Insight = Insight(id: string, kind: string, title: string, action: string, priority: string)

  /** The seven cards that do not depend on the data, in the order they follow the first. */
  const FixedInsights: seq<Insight> := [
    Insight("thread-performance", "opportunity", "Thread game is strong", "Post 2 threads/week minimum", "high"),
    Insight("posting-times", "insight", "Best posting times identified", "Schedule posts for optimal times", "medium"),
    Insight("reply-game", "warning", "Reply game needs work", "Increase community engagement", "medium"),
    Insight("content-focus", "opportunity", "Crypto content outperforms", "Focus on Base ecosystem content", "high"),
    Insight("educational-threads", "insight", "Educational threads convert followers", "Mix in 1 educational thread/week", "low"),
    Insight("viral-potential", "opportunity", "Viral post pattern detected", "Create contrarian + data posts", "high"),
    Insight("follower-growth", "insight", "Follower growth accelerating", "Maintain consistency", "low")]

  /** The error `reduce` raises on an empty array without an initial value. */
  const EmptyReduce := "Reduce of empty array with no initial value"

  /** `generateInsights(analyticsData, topPosts, hookPerformance)`: the hook card for the best
      hook, then the seven fixed cards. Only `hookPerformance` is read. The best hook is the
      one `BestIndex` picks, so among equal averages the later entry's card is shown. */
  function GenerateInsights(hookPerformance: seq<HookStat>): (r: Result<seq<Insight>, string>)
    ensures r.Err? <==> |hookPerformance| == 0
    ensures r.Ok? ==> |r.value| == 8 && r.value[1..] == FixedInsights
    ensures r.Ok? ==> exists i ::
      && 0 <= i < |hookPerformance|
      && r.value[0].title == HookLabel(hookPerformance[i].hook) + " hooks are your superpower"
      && forall j :: 0 <= j < |hookPerformance| ==> hookPerformance[j].avgImpressions <= hookPerformance[i].avgImpressions
    ensures r.Ok? ==> var name := HookLabel(hookPerformance[BestIndex(hookPerformance)].hook);
      r.value[0] == Insight("hook-superpower", "success", name + " hooks are your superpower",
        "Generate more " + ToLower(name) + " content", "high")
  {
    if |hookPerformance| == 0 then Err(EmptyReduce)
    else
      var best := hookPerformance[BestIndex(hookPerformance)];
      var name := HookLabel(best.hook);
      var first := Insight("hook-superpower", "success", name + " hooks are your superpower",
        "Generate more " + ToLower(name) + " content", "high");
      Ok([first] + FixedInsights)
  }
}
