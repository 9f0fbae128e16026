/** String primitives of the JavaScript runtime that the dashboard's transforms rely on:
    `trim`, `toLowerCase`, `includes`, `startsWith`/`endsWith`, and `parseInt(s, 10)`. */
module Text {
  import opened Wrappers

  /** White space as `String.prototype.trim` and the regular-expression class `\s` see it:
      the WhiteSpace and LineTerminator code points of ECMAScript. */
  predicate IsSpace(c: char) {
    || c == ' ' || c == '\t' || c == '\n' || c == '\r' || c == '\U{B}' || c == '\U{C}'
    || c == '\U{A0}' || c == '\U{1680}' || ('\U{2000}' <= c <= '\U{200A}')
    || c == '\U{2028}' || c == '\U{2029}' || c == '\U{202F}' || c == '\U{205F}'
    || c == '\U{3000}' || c == '\U{FEFF}'
  }

  /** Drops the leading white space. */
  function TrimStart(s: string): (r: string)
    ensures |r| <= |s| && r == s[|s| - |r|..]
    ensures forall i :: 0 <= i < |s| - |r| ==> IsSpace(s[i])
    ensures |r| > 0 ==> !IsSpace(r[0])
  {
    if |s| > 0 && IsSpace(s[0]) then TrimStart(s[1..]) else s
  }

  /** Drops the trailing white space. */
  function TrimEnd(s: string): (r: string)
    ensures |r| <= |s| && r == s[..|r|]
    ensures forall i :: |r| <= i < |s| ==> IsSpace(s[i])
    ensures |r| > 0 ==> !IsSpace(r[|r| - 1])
  {
    if |s| > 0 && IsSpace(s[|s| - 1]) then TrimEnd(s[..|s| - 1]) else s
  }

  /** `s.trim()`: the result neither starts nor ends with white space. */
  function Trim(s: string): (r: string)
    ensures |r| <= |s|
    ensures |r| > 0 ==> !IsSpace(r[0]) && !IsSpace(r[|r| - 1])
  {
    TrimEnd(TrimStart(s))
  }

  /** Neither end of `s` is white space. */
  predicate Trimmed(s: string) {
    |s| == 0 || (!IsSpace(s[0]) && !IsSpace(s[|s| - 1]))
  }

  /** `s.trim()` is a slice of `s`. */
  lemma TrimSlice(s: string)
    ensures exists a, b :: 0 <= a <= b <= |s| && Trim(s) == s[a..b]
  {
    var t := TrimStart(s);
    var a := |s| - |t|;
    var r := TrimEnd(t);
    assert r == t[..|r|] && t == s[a..];
    assert r == s[a..a + |r|];
  }

  /** Trimming introduces no character. */
  lemma {:induction false} TrimLacks(s: string, c: char)
    requires c !in s
    ensures c !in Trim(s)
  {
    TrimSlice(s);
    var a, b :| 0 <= a <= b <= |s| && Trim(s) == s[a..b];
    assert forall i :: 0 <= i < b - a ==> s[a..b][i] == s[a + i];
  }

  /** Trimming a string whose ends are not white space changes nothing. */
  lemma TrimOfTrimmed(s: string)
    requires Trimmed(s)
    ensures Trim(s) == s
  {
  }

  /** Trimming twice is trimming once. */
  lemma TrimIdempotent(s: string)
    ensures Trim(Trim(s)) == Trim(s)
  {
    TrimOfTrimmed(Trim(s));
  }

  /** A string without any white space is its own trim. */
  lemma TrimNoSpace(s: string)
    requires forall i :: 0 <= i < |s| ==> !IsSpace(s[i])
    ensures Trim(s) == s
  {
    TrimOfTrimmed(s);
  }

  /** `toLowerCase` on one character: ASCII capitals move to lower case, the rest stay. */
  function LowerChar(c: char): char {
    if 'A' <= c <= 'Z' then (c as int + 32) as char else c
  }

  /** `s.toLowerCase()`, character by character. */
  function ToLower(s: string): (r: string)
    ensures |r| == |s|
  {
    seq(|s|, i requires 0 <= i < |s| => LowerChar(s[i]))
  }

  /** Lowering an already lowered string changes nothing, and no ASCII capital survives. */
  lemma LowerIdempotent(s: string)
    ensures ToLower(ToLower(s)) == ToLower(s)
    ensures forall i :: 0 <= i < |s| ==> !('A' <= ToLower(s)[i] <= 'Z')
  {
  }

  /** `p` occurs in `s` starting at index `i`. */
  predicate OccursAt(s: string, p: string, i: int) {
    0 <= i <= |s| - |p| && s[i..i + |p|] == p
  }

  /** `s.includes(p)`. */
  predicate Contains(s: string, p: string) {
    exists i | 0 <= i <= |s| - |p| :: OccursAt(s, p, i)
  }

  /** `s.startsWith(p)`. */
  predicate StartsWith(s: string, p: string) {
    |p| <= |s| && s[..|p|] == p
  }

  /** `s.endsWith(p)`. */
  predicate EndsWith(s: string, p: string) {
    |p| <= |s| && s[|s| - |p|..] == p
  }

  /** A one-character pattern occurs exactly when that character does. */
  lemma ContainsChar(s: string, c: char)
    ensures Contains(s, [c]) <==> c in s
  {
    if c in s {
      var i :| 0 <= i < |s| && s[i] == c;
      assert OccursAt(s, [c], i);
    }
    if Contains(s, [c]) {
      var i :| 0 <= i <= |s| - 1 && OccursAt(s, [c], i);
      OccursChar(s, [c], i, 0);
    }
  }

  /** An occurrence fixes the text's characters under the pattern. */
  lemma OccursChar(s: string, p: string, i: int, k: int)
    requires OccursAt(s, p, i) && 0 <= k < |p|
    ensures s[i + k] == p[k]
  {
    assert s[i..i + |p|][k] == s[i + k];
  }

  /** A pattern cannot occur in a text that lacks its opening two-character pair anywhere. */
  lemma AbsentPair(s: string, p: string)
    requires |p| >= 2
    requires forall i :: 0 <= i < |s| - 1 ==> s[i] != p[0] || s[i + 1] != p[1]
    ensures !Contains(s, p)
  {
    forall i | 0 <= i <= |s| - |p|
      ensures !OccursAt(s, p, i)
    {
      if OccursAt(s, p, i) {
        OccursChar(s, p, i, 0);
        OccursChar(s, p, i, 1);
      }
    }
  }

  /** A pattern cannot occur in a text that lacks one of the pattern's characters. */
  lemma AbsentChar(s: string, p: string, c: char)
    requires c in p && c !in s
    ensures !Contains(s, p)
  {
  }

  /** An occurrence at a known index is an occurrence. */
  lemma Found(s: string, p: string, i: int)
    requires OccursAt(s, p, i)
    ensures Contains(s, p)
  {
  }

  /** The ASCII decimal digits, the class `\d` of a JavaScript regular expression. */
  predicate IsDigit(c: char) {
    '0' <= c <= '9'
  }

  predicate AllDigits(s: string) {
    forall i :: 0 <= i < |s| ==> IsDigit(s[i])
  }

  /** Length of the run of digits that `s` starts with. */
  function DigitRun(s: string): (n: nat)
    ensures n <= |s| && AllDigits(s[..n])
    ensures n < |s| ==> !IsDigit(s[n])
  {
    if |s| > 0 && IsDigit(s[0]) then 1 + DigitRun(s[1..]) else 0
  }

  /** The value of a string of decimal digits, most significant first. */
  function DigitsValue(s: string): nat
    requires AllDigits(s)
  {
    if |s| == 0 then 0 else DigitsValue(s[..|s| - 1]) * 10 + (s[|s| - 1] as int - '0' as int)
  }

  function DigitChar(d: int): char
    requires 0 <= d < 10
  {
    ('0' as int + d) as char
  }

  /** `n.toString()` for a non-negative integer. */
  function NatToDecimal(n: nat): (r: string)
    ensures |r| >= 1 && AllDigits(r)
  {
    if n < 10 then [DigitChar(n)] else NatToDecimal(n / 10) + [DigitChar(n % 10)]
  }

  /** `n.toString()` for any integer. */
  function Decimal(n: int): string {
    if n < 0 then "-" + NatToDecimal(-n) else NatToDecimal(n)
  }

  /** `parseInt(s, 10)`: skips leading white space, takes an optional sign and the longest run
      of digits after it; `None` stands for `NaN`, which the source gets when no digit follows. */
  function ParseInt(s: string): Option<int> {
    var t := TrimStart(s);
    var signed := |t| > 0 && (t[0] == '-' || t[0] == '+');
    var body := if signed then t[1..] else t;
    var n := DigitRun(body);
    if n == 0 then None
    else
      var magnitude: int := DigitsValue(body[..n]);
      Some(if signed && t[0] == '-' then -magnitude else magnitude)
  }

  lemma {:induction false} DigitsValueOfDecimal(n: nat)
    ensures DigitsValue(NatToDecimal(n)) == n
  {
    if n >= 10 {
      var d := NatToDecimal(n / 10);
      var r := d + [DigitChar(n % 10)];
      assert r[..|r| - 1] == d;
      DigitsValueOfDecimal(n / 10);
    }
  }

  lemma {:induction false} DigitRunOfDigits(d: string, tail: string)
    requires AllDigits(d)
    requires |tail| == 0 || !IsDigit(tail[0])
    ensures DigitRun(d + tail) == |d|
  {
    if |d| > 0 {
      assert (d + tail)[1..] == d[1..] + tail;
      DigitRunOfDigits(d[1..], tail);
    }
  }

  /** `parseInt` reads back what `toString` writes, and ignores whatever follows the number when
      that does not begin with a digit. */
  lemma ParseIntOfDecimal(n: int, tail: string)
    requires |tail| == 0 || !IsDigit(tail[0])
    ensures ParseInt(Decimal(n) + tail) == Some(n)
  {
    var m: nat := if n < 0 then -n else n;
    var d := NatToDecimal(m);
    DigitsValueOfDecimal(m);
    if n < 0 {
      assert Decimal(n) + tail == "-" + d + tail;
      ParseNegative(d, tail);
    } else {
      assert Decimal(n) + tail == d + tail;
      ParseUnsigned(d, tail);
    }
  }

  /** A run of digits and a tail that does not go on with a digit. */
  lemma {:induction false} ParseUnsigned(d: string, tail: string)
    requires |d| >= 1 && AllDigits(d)
    requires |tail| == 0 || !IsDigit(tail[0])
    ensures ParseInt(d + tail) == Some(DigitsValue(d))
  {
    var s := d + tail;
    assert s[0] == d[0];
    ParseDigitsFirst(s);
    DigitRunOfDigits(d, tail);
    assert s[..|d|] == d;
  }

  /** A minus sign, a run of digits and a tail that does not go on with a digit. */
  lemma {:induction false} ParseNegative(d: string, tail: string)
    requires |d| >= 1 && AllDigits(d)
    requires |tail| == 0 || !IsDigit(tail[0])
    ensures ParseInt("-" + d + tail) == Some(-(DigitsValue(d) as int))
  {
    var rest := d + tail;
    var s := "-" + d + tail;
    assert s == ['-'] + rest;
    assert s[0] == '-' && s[1..] == rest && rest[0] == d[0];
    ParseMinusFirst(s);
    DigitRunOfDigits(d, tail);
    assert rest[..|d|] == d;
  }

  /** `parseInt` of a text that starts with a digit reads the leading run of digits. */
  lemma {:induction false} ParseDigitsFirst(s: string)
    requires |s| > 0 && IsDigit(s[0])
    ensures ParseInt(s) == Some(DigitsValue(s[..DigitRun(s)]))
  {
    assert s[0] != '-' && s[0] != '+' && !IsSpace(s[0]);
    assert TrimStart(s) == s;
  }

  /** `parseInt` of a text that starts with a minus and a digit reads the negated run. */
  lemma {:induction false} ParseMinusFirst(s: string)
    requires |s| > 1 && s[0] == '-' && IsDigit(s[1])
    ensures ParseInt(s) == Some(-(DigitsValue(s[1..][..DigitRun(s[1..])]) as int))
  {
    assert TrimStart(s) == s;
  }
}
