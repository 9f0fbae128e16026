/** The shared helpers of `src/utils/helpers.js`: the hook classifier, the engagement rate,
    the trend indicator, truncation, the number-format tier and the colour lookups. */
module Helpers {
  import opened Wrappers
  import opened Text

  /** The six hook categories `detectHookType` can return. */
  datatype Hook = Contrarian | DataNumbers | Fomo | Question | Story | BoldStatement

  /** The label the dashboard shows (and stores) for a hook. */
  function HookLabel(h: Hook): string {
    match h
    case Contrarian => "Contrarian"
    case DataNumbers => "Data/Numbers"
    case Fomo => "FOMO"
    case Question => "Question"
    case Story => "Story"
    case BoldStatement => "Bold Statement"
  }

  /** Reads a label back; any other string names no hook. */
  function HookOfLabel(s: string): (r: Option<Hook>)
    ensures r.Some? ==> HookLabel(r.value) == s
  {
    if s == "Contrarian" then Some(Contrarian)
    else if s == "Data/Numbers" then Some(DataNumbers)
    else if s == "FOMO" then Some(Fomo)
    else if s == "Question" then Some(Question)
    else if s == "Story" then Some(Story)
    else if s == "Bold Statement" then Some(BoldStatement)
    else None
  }

  /** The six labels are distinct, so a label names exactly one hook. */
  lemma HookLabelRoundTrip(h: Hook)
    ensures HookOfLabel(HookLabel(h)) == Some(h)
  {
  }

  // ---- the rules of `detectHookType`, on the lower-cased text ----

  predicate ContrarianCue(t: string) {
    Contains(t, "unpopular opinion") || Contains(t, "hot take") || Contains(t, "wrong")
  }

  /** One of the units the number rule accepts starts at index `j`. */
  predicate UnitAt(t: string, j: int) {
    || OccursAt(t, "%", j) || OccursAt(t, "k", j)
    || OccursAt(t, " days", j) || OccursAt(t, " weeks", j)
    || OccursAt(t, " hours", j) || OccursAt(t, " years", j)
  }

  /** The number rule: a digit immediately followed by a unit. */
  predicate NumberCue(t: string) {
    exists j | 1 <= j <= |t| :: IsDigit(t[j - 1]) && UnitAt(t, j)
  }

  /** The pattern `\d+%|\d+k|\d+ (days|weeks|hours|years)` as written: a non-empty run of
      digits followed by a unit. */
  ghost predicate NumberPattern(t: string) {
    exists i, j :: 0 <= i < j <= |t| && AllDigits(t[i..j]) && UnitAt(t, j)
  }

  predicate FomoCue(t: string) {
    Contains(t, "sleeping on") || Contains(t, "closing") || Contains(t, "behind")
  }

  /** `in ` followed by four digits starts at index `i`. */
  predicate InYearAt(t: string, i: int) {
    OccursAt(t, "in ", i) && i + 7 <= |t| && AllDigits(t[i + 3..i + 7])
  }

  /** The story rule `in \d{4}|years ago|last week|first time`. */
  predicate StoryCue(t: string) {
    || (exists i | 0 <= i <= |t| - 7 :: InYearAt(t, i))
    || Contains(t, "years ago") || Contains(t, "last week") || Contains(t, "first time")
  }

  /** `detectHookType`: lower-cases the text and returns the first rule that matches, in the
      order Contrarian, Data/Numbers, FOMO, Question, Story, with Bold Statement as the
      fallback. */
  function DetectHookType(content: string): (r: Hook)
    ensures var t := ToLower(content);
      && (r == Contrarian <==> ContrarianCue(t))
      && (r == DataNumbers <==> !ContrarianCue(t) && NumberCue(t))
      && (r == Fomo <==> !ContrarianCue(t) && !NumberCue(t) && FomoCue(t))
      && (r == Question <==> !ContrarianCue(t) && !NumberCue(t) && !FomoCue(t) && Contains(t, "?"))
      && (r == Story <==>
          !ContrarianCue(t) && !NumberCue(t) && !FomoCue(t) && !Contains(t, "?") && StoryCue(t))
      && (r == BoldStatement <==>
          !ContrarianCue(t) && !NumberCue(t) && !FomoCue(t) && !Contains(t, "?") && !StoryCue(t))
  {
    var t := ToLower(content);
    if ContrarianCue(t) then Contrarian
    else if NumberCue(t) then DataNumbers
    else if FomoCue(t) then Fomo
    else if Contains(t, "?") then Question
    else if StoryCue(t) then Story
    else BoldStatement
  }

  /** The short form of the number rule agrees with the regular expression: a digit run ends
      in a digit, and one digit is a run. */
  lemma NumberCueIsPattern(t: string)
    ensures NumberCue(t) <==> NumberPattern(t)
  {
    if NumberCue(t) {
      var j :| 1 <= j <= |t| && IsDigit(t[j - 1]) && UnitAt(t, j);
      var run := t[j - 1..j];
      assert |run| == 1 && run[0] == t[j - 1];
      assert AllDigits(run);
    }
    if NumberPattern(t) {
      var i, j :| 0 <= i < j <= |t| && AllDigits(t[i..j]) && UnitAt(t, j);
      assert t[i..j][j - 1 - i] == t[j - 1];
    }
  }

  /** The classifier does not see case: lower-casing the input first changes nothing. */
  lemma DetectIgnoresCase(content: string)
    ensures DetectHookType(ToLower(content)) == DetectHookType(content)
  {
    LowerIdempotent(content);
  }

  /** A text without any digit never matches the number rule. */
  lemma NoDigitNoNumber(t: string)
    requires forall i :: 0 <= i < |t| ==> !IsDigit(t[i])
    ensures !NumberCue(t)
  {
  }

  /** A text whose digits are never followed by '%', 'k' or a space never matches the number
      rule. */
  lemma NoUnitNoNumber(t: string)
    requires forall j :: 1 <= j < |t| && IsDigit(t[j - 1]) ==> t[j] != '%' && t[j] != 'k' && t[j] != ' '
    ensures !NumberCue(t)
  {
    forall j | 1 <= j <= |t| && IsDigit(t[j - 1])
      ensures !UnitAt(t, j)
    {
      if OccursAt(t, "%", j) { OccursChar(t, "%", j, 0); }
      if OccursAt(t, "k", j) { OccursChar(t, "k", j, 0); }
      if OccursAt(t, " days", j) { OccursChar(t, " days", j, 0); }
      if OccursAt(t, " weeks", j) { OccursChar(t, " weeks", j, 0); }
      if OccursAt(t, " hours", j) { OccursChar(t, " hours", j, 0); }
      if OccursAt(t, " years", j) { OccursChar(t, " years", j, 0); }
    }
  }

  /** A text without "in " anywhere never matches the `in \d{4}` part of the story rule. */
  lemma NoInYear(t: string)
    requires !Contains(t, "in ")
    ensures forall i | 0 <= i <= |t| - 7 :: !InYearAt(t, i)
  {
    forall i | 0 <= i <= |t| - 7
      ensures !InYearAt(t, i)
    {
      if OccursAt(t, "in ", i) { Found(t, "in ", i); }
    }
  }

  // ---- the documented openings ----
  // Each example is checked in steps: which characters the lower-cased text lacks, where the
  // matching words sit in it, and then the verdict.

  const ContrarianText := "Unpopular opinion: X is wrong"
  const DataNumbersText := "I analyzed 50 threads. 40% worked."
  const FomoText := "Everyone's sleeping on this protocol"
  const QuestionText := "Why does nobody talk about this?"
  const StoryText := "In 2021, I was broke"
  const BoldStatementText := "Ship fast, ship often."
  const YearsAgoText := "3 years ago I knew nothing"

  lemma ContrarianAt(t: string)
    requires t == ToLower(ContrarianText)
    ensures OccursAt(t, "unpopular opinion", 0)
  {
    assert forall k :: 0 <= k < 17 ==> t[k] == "unpopular opinion"[k];
  }

  lemma ExampleContrarian()
    ensures DetectHookType(ContrarianText) == Contrarian
  {
    var t := ToLower(ContrarianText);
    ContrarianAt(t);
    Found(t, "unpopular opinion", 0);
  }

  lemma DataNumbersChars(t: string)
    requires t == ToLower(DataNumbersText)
    ensures forall i :: 0 <= i < |t| ==> t[i] != 'u' && t[i] != 'g'
    ensures forall i :: 0 <= i < |t| - 1 ==> t[i] != 'h' || t[i + 1] != 'o'
    ensures IsDigit(t[24]) && t[25] == '%'
  {
  }

  lemma ExampleDataNumbers()
    ensures DetectHookType(DataNumbersText) == DataNumbers
  {
    var t := ToLower(DataNumbersText);
    DataNumbersChars(t);
    AbsentChar(t, "unpopular opinion", 'u');
    AbsentPair(t, "hot take");
    AbsentChar(t, "wrong", 'g');
    assert OccursAt(t, "%", 25);
    assert IsDigit(t[25 - 1]) && UnitAt(t, 25);
  }

  lemma FomoChars(t: string)
    requires t == ToLower(FomoText)
    ensures forall i :: 0 <= i < |t| ==> t[i] != 'u' && t[i] != 'k' && t[i] != 'w' && !IsDigit(t[i])
  {
  }

  lemma FomoAt(t: string)
    requires t == ToLower(FomoText)
    ensures OccursAt(t, "sleeping on", 11)
  {
    assert forall k :: 0 <= k < 11 ==> t[11 + k] == "sleeping on"[k];
  }

  lemma ExampleFomo()
    ensures DetectHookType(FomoText) == Fomo
  {
    var t := ToLower(FomoText);
    FomoChars(t);
    FomoAt(t);
    AbsentChar(t, "unpopular opinion", 'u');
    AbsentChar(t, "hot take", 'k');
    AbsentChar(t, "wrong", 'w');
    NoDigitNoNumber(t);
    Found(t, "sleeping on", 11);
  }

  lemma QuestionChars(t: string)
    requires t == ToLower(QuestionText)
    ensures forall i :: 0 <= i < |t| ==> t[i] != 'p' && t[i] != 'r' && t[i] != 'c' && !IsDigit(t[i])
    ensures t[31] == '?'
  {
  }

  lemma QuestionPairs(t: string)
    requires t == ToLower(QuestionText)
    ensures forall i :: 0 <= i < |t| - 1 ==> t[i] != 'h' || t[i + 1] != 'o'
    ensures forall i :: 0 <= i < |t| - 1 ==> t[i] != 'b' || t[i + 1] != 'e'
  {
  }

  lemma ExampleQuestion()
    ensures DetectHookType(QuestionText) == Question
  {
    var t := ToLower(QuestionText);
    QuestionChars(t);
    QuestionPairs(t);
    AbsentChar(t, "unpopular opinion", 'p');
    AbsentPair(t, "hot take");
    AbsentChar(t, "wrong", 'r');
    NoDigitNoNumber(t);
    AbsentChar(t, "sleeping on", 'p');
    AbsentChar(t, "closing", 'c');
    AbsentPair(t, "behind");
    ContainsChar(t, '?');
  }

  lemma StoryChars(t: string)
    requires t == ToLower(StoryText)
    ensures forall i :: 0 <= i < |t| ==> t[i] != 'u' && t[i] != 'h' && t[i] != 'g' && t[i] != 'l' && t[i] != 'c' && t[i] != '?'
  {
  }

  lemma StoryDigits(t: string)
    requires t == ToLower(StoryText)
    ensures forall j :: 1 <= j < |t| && IsDigit(t[j - 1]) ==> t[j] != '%' && t[j] != 'k' && t[j] != ' '
  {
    assert forall i :: 0 <= i < |t| && IsDigit(t[i]) ==> 3 <= i < 7;
    assert t[4] == '0' && t[5] == '2' && t[6] == '1' && t[7] == ',';
  }

  lemma StoryAt(t: string)
    requires t == ToLower(StoryText)
    ensures InYearAt(t, 0)
  {
    assert forall k :: 0 <= k < 7 ==> t[k] == "in 2021"[k];
    assert t[..3] == "in ";
    var year := t[3..7];
    assert year[0] == '2' && year[1] == '0' && year[2] == '2' && year[3] == '1';
    assert AllDigits(year);
  }

  lemma ExampleStory()
    ensures DetectHookType(StoryText) == Story
  {
    var t := ToLower(StoryText);
    StoryChars(t);
    StoryDigits(t);
    StoryAt(t);
    AbsentChar(t, "unpopular opinion", 'u');
    AbsentChar(t, "hot take", 'h');
    AbsentChar(t, "wrong", 'g');
    NoUnitNoNumber(t);
    AbsentChar(t, "sleeping on", 'l');
    AbsentChar(t, "closing", 'c');
    AbsentChar(t, "behind", 'h');
    ContainsChar(t, '?');
  }

  lemma BoldStatementChars(t: string)
    requires t == ToLower(BoldStatementText)
    ensures forall i :: 0 <= i < |t| ==>
      && t[i] != 'u' && t[i] != 'k' && t[i] != 'w' && t[i] != 'l' && t[i] != 'c' && t[i] != 'b'
      && t[i] != '?' && t[i] != 'y' && t[i] != 'r' && !IsDigit(t[i])
    ensures forall i :: 0 <= i < |t| - 1 ==> t[i] != 'i' || t[i + 1] != 'n'
  {
  }

  lemma ExampleBoldStatement()
    ensures DetectHookType(BoldStatementText) == BoldStatement
  {
    var t := ToLower(BoldStatementText);
    BoldStatementChars(t);
    AbsentChar(t, "unpopular opinion", 'u');
    AbsentChar(t, "hot take", 'k');
    AbsentChar(t, "wrong", 'w');
    NoDigitNoNumber(t);
    AbsentChar(t, "sleeping on", 'l');
    AbsentChar(t, "closing", 'c');
    AbsentChar(t, "behind", 'b');
    ContainsChar(t, '?');
    AbsentPair(t, "in ");
    NoInYear(t);
    AbsentChar(t, "years ago", 'y');
    AbsentChar(t, "last week", 'w');
    AbsentChar(t, "first time", 'r');
  }

  lemma YearsAgoChars(t: string)
    requires t == ToLower(YearsAgoText)
    ensures forall i :: 0 <= i < |t| ==> t[i] != 'u'
    ensures forall i :: 0 <= i < |t| - 1 ==> t[i] != 'h' || t[i + 1] != 'o'
    ensures forall i :: 0 <= i < |t| - 1 ==> t[i] != 'w' || t[i + 1] != 'r'
  {
  }

  lemma YearsAgoAt(t: string)
    requires t == ToLower(YearsAgoText)
    ensures IsDigit(t[0]) && OccursAt(t, " years", 1) && OccursAt(t, "years ago", 2)
  {
    assert forall k :: 0 <= k < 11 ==> t[k] == "3 years ago"[k];
    assert t[1..7] == " years";
    assert t[2..11] == "years ago";
  }

  /** "3 years ago" matches the story rule too, but it is a number followed by a unit and the
      number rule is tried first, so this opening counts as Data/Numbers. */
  lemma ExampleYearsAgoIsData()
    ensures StoryCue(ToLower(YearsAgoText))
    ensures DetectHookType(YearsAgoText) == DataNumbers
  {
    var t := ToLower(YearsAgoText);
    YearsAgoChars(t);
    YearsAgoAt(t);
    AbsentChar(t, "unpopular opinion", 'u');
    AbsentPair(t, "hot take");
    AbsentPair(t, "wrong");
    assert IsDigit(t[1 - 1]) && UnitAt(t, 1);
    Found(t, "years ago", 2);
  }

  // ---- numeric helpers ----

  /** `calculateEngagementRate`: likes, retweets and replies per hundred impressions; no
      impressions (a falsy count) give 0. */
  function EngagementRate(likes: int, retweets: int, replies: int, impressions: int): (r: real)
    ensures impressions == 0 ==> r == 0.0
    ensures impressions != 0 ==> r * impressions as real == 100.0 * (likes + retweets + replies) as real
  {
    if impressions == 0 then 0.0
    else ((likes + retweets + replies) as real / impressions as real) * 100.0
  }

  /** With non-negative counts the rate is non-negative, and it is at most 100 exactly when
      the interactions do not outnumber the impressions. */
  lemma EngagementRateBounds(likes: nat, retweets: nat, replies: nat, impressions: nat)
    requires impressions > 0
    ensures EngagementRate(likes, retweets, replies, impressions) >= 0.0
    ensures EngagementRate(likes, retweets, replies, impressions) <= 100.0 <==> likes + retweets + replies <= impressions
  {
    var r := EngagementRate(likes, retweets, replies, impressions);
    var p := impressions as real;
    assert r * p == 100.0 * (likes + retweets + replies) as real;
    if r <= 100.0 {
      assert r * p <= 100.0 * p;
    } else {
      assert r * p > 100.0 * p;
    }
  }

  datatype Direction = Up | Down | Neutral

  /** `{ direction, percent }`; the percentage is kept exact (its `toFixed(1)` text is not
      modelled). */
  datatype Trend = Trend(direction: Direction, percent: real)

  function Abs(x: int): nat {
    if x < 0 then -x else x
  }

  /** `getTrend`: the relative change from `previous` to `current` in percent; a zero
      `previous` gives a neutral trend. */
  function GetTrend(current: int, previous: int): (r: Trend)
    ensures previous == 0 ==> r == Trend(Neutral, 0.0)
    ensures r.percent >= 0.0
    ensures previous != 0 ==> r.percent * Abs(previous) as real == 100.0 * Abs(current - previous) as real
    ensures previous != 0 ==> (r.direction == Up <==> (current - previous) * previous > 0)
    ensures previous != 0 ==> (r.direction == Down <==> (current - previous) * previous < 0)
  {
    if previous == 0 then Trend(Neutral, 0.0)
    else
      var percent := ((current - previous) as real / previous as real) * 100.0;
      assert percent * previous as real == 100.0 * (current - previous) as real;
      assert percent > 0.0 <==> (current - previous) * previous > 0 by {
        SignOfQuotient(current - previous, previous, percent / 100.0);
      }
      assert percent < 0.0 <==> (current - previous) * previous < 0 by {
        SignOfQuotient(current - previous, previous, percent / 100.0);
      }
      Trend(if percent > 0.0 then Up else if percent < 0.0 then Down else Neutral,
            if percent < 0.0 then -percent else percent)
  }

  /** The sign of a quotient is the sign of the product of its operands. */
  lemma SignOfQuotient(a: int, b: int, q: real)
    requires b != 0 && q * b as real == a as real
    ensures q > 0.0 <==> a * b > 0
    ensures q < 0.0 <==> a * b < 0
  {
    assert (a * b) as real == q * (b as real) * (b as real);
    assert (b as real) * (b as real) > 0.0;
  }

  /** For a positive previous value the trend goes up exactly when the value grew. */
  lemma TrendOfPositive(current: int, previous: int)
    requires previous > 0
    ensures GetTrend(current, previous).direction == Up <==> current > previous
    ensures GetTrend(current, previous).direction == Down <==> current < previous
    ensures GetTrend(current, previous).direction == Neutral <==> current == previous
  {
    var d := current - previous;
    if d > 0 { assert d * previous > 0; }
    if d < 0 { assert d * previous < 0; }
  }

  /** `truncate`: the text when it fits in `maxLength`, otherwise its first `maxLength`
      characters (none for a negative length) followed by "...". */
  function Truncate(text: string, maxLength: int): (r: string)
    ensures |text| <= maxLength ==> r == text
    ensures |text| > maxLength ==>
      && |r| == (if maxLength > 0 then maxLength else 0) + 3
      && EndsWith(r, "...")
      && StartsWith(text, r[..|r| - 3])
  {
    if |text| <= maxLength then text
    else text[..if maxLength > 0 then maxLength else 0] + "..."
  }

  /** A truncated text fits three characters past the limit, so truncating it again at that
      width leaves it alone. */
  lemma TruncateFits(text: string, maxLength: nat)
    ensures |Truncate(text, maxLength)| <= maxLength + 3
    ensures Truncate(Truncate(text, maxLength), maxLength + 3) == Truncate(text, maxLength)
  {
  }

  /** The suffix `formatNumber` chooses. */
  datatype Tier = Plain | Thousands | Millions

  function TierRank(t: Tier): nat {
    match t
    case Plain => 0
    case Thousands => 1
    case Millions => 2
  }

  /** `formatNumber`'s choice of suffix: 'M' from a million, 'K' from a thousand, the plain
      digits below that. */
  function NumberTier(num: int): (r: Tier)
    ensures r == Millions <==> num >= 1000000
    ensures r == Thousands <==> 1000 <= num < 1000000
    ensures r == Plain <==> num < 1000
  {
    if num >= 1000000 then Millions else if num >= 1000 then Thousands else Plain
  }

  /** A larger number never gets a smaller suffix. */
  lemma NumberTierMonotone(a: int, b: int)
    requires a <= b
    ensures TierRank(NumberTier(a)) <= TierRank(NumberTier(b))
  {
  }

  /** One colour set of `getTypeColors`. */
  datatype Palette = Palette(border: string, bg: string, icon: string, badge: string)

  const InsightPalette := Palette("border-blue-500/50", "bg-blue-500/10", "text-blue-400", "bg-blue-500/20 text-blue-400")

  const TypePalettes: map<string, Palette> := map[
    "success" := Palette("border-green-500/50", "bg-green-500/10", "text-green-400", "bg-green-500/20 text-green-400"),
    "warning" := Palette("border-orange-500/50", "bg-orange-500/10", "text-orange-400", "bg-orange-500/20 text-orange-400"),
    "opportunity" := Palette("border-violet-500/50", "bg-violet-500/10", "text-violet-400", "bg-violet-500/20 text-violet-400"),
    "insight" := InsightPalette]

  /** `getTypeColors`: the colours of a known type, the 'insight' colours otherwise. */
  function TypeColors(kind: string): (r: Palette)
    ensures r in TypePalettes.Values
    ensures kind in TypePalettes ==> r == TypePalettes[kind]
    ensures kind !in TypePalettes ==> r == TypePalettes["insight"]
  {
    var key := if kind in TypePalettes then kind else "insight";
    assert key in TypePalettes;
    TypePalettes[key]
  }

  const LowPriority := "bg-gray-500/20 text-gray-400"

  const PriorityPalettes: map<string, string> := map[
    "high" := "bg-red-500/20 text-red-400",
    "medium" := "bg-yellow-500/20 text-yellow-400",
    "low" := LowPriority]

  /** `getPriorityColors`: the colours of a known priority, the 'low' colours otherwise. */
  function PriorityColors(priority: string): (r: string)
    ensures r in PriorityPalettes.Values
    ensures priority in PriorityPalettes ==> r == PriorityPalettes[priority]
    ensures priority !in PriorityPalettes ==> r == PriorityPalettes["low"]
  {
    var key := if priority in PriorityPalettes then priority else "low";
    assert key in PriorityPalettes;
    PriorityPalettes[key]
  }
}
