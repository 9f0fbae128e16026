/** The CSV decoder of `src/utils/csvParser.js`: `parseCSVLine` (a quote-toggling field
    splitter) and `parseCSV` (line split, header normalisation, and rows kept only when their
    field count matches the header's). A parsed row is a map from normalised header name to
    cell text. */
module CsvText {
  import opened Wrappers
  import opened Text
  import opened Lists

  // ---- parseCSVLine ----

  /** The loop state of `parseCSVLine`: the fields pushed so far, the field being read, and
      whether the reader is inside a quoted span. */
  datatype LineState = LineState(done: seq<string>, current: string, inQuotes: bool)

  const Start := LineState([], "", false)

  /** One iteration: a quote toggles the quoted flag and is dropped; a comma outside quotes
      ends the field (trimmed); any other character is kept. */
  function Step(st: LineState, c: char): LineState {
    if c == '"' then st.(inQuotes := !st.inQuotes)
    else if c == ',' && !st.inQuotes then LineState(st.done + [Trim(st.current)], "", st.inQuotes)
    else st.(current := st.current + [c])
  }

  /** The loop over the characters of `s`, from state `st`. */
  function ScanFrom(st: LineState, s: string): LineState {
    if |s| == 0 then st else Step(ScanFrom(st, s[..|s| - 1]), s[|s| - 1])
  }

  /** `parseCSVLine`: the fields of one line; the last field is pushed after the loop. */
  function ParseLine(line: string): (r: seq<string>)
    ensures |r| >= 1
  {
    var st := ScanFrom(Start, line);
    st.done + [Trim(st.current)]
  }

  /** Scanning a concatenation is scanning its halves in turn. */
  lemma {:induction false} ScanAppend(st: LineState, a: string, b: string)
    ensures ScanFrom(st, a + b) == ScanFrom(ScanFrom(st, a), b)
  {
    if |b| == 0 {
      assert a + b == a;
    } else {
      assert (a + b)[..|a + b| - 1] == a + b[..|b| - 1];
      ScanAppend(st, a, b[..|b| - 1]);
    }
  }

  /** Number of quote characters in `s`. */
  function Quotes(s: string): nat {
    if |s| == 0 then 0 else Quotes(s[..|s| - 1]) + (if s[|s| - 1] == '"' then 1 else 0)
  }

  /** Reference count: the commas of `s` preceded by an even number of quotes. */
  function UnquotedCommas(s: string): nat {
    if |s| == 0 then 0
    else
      var init := s[..|s| - 1];
      UnquotedCommas(init) + (if s[|s| - 1] == ',' && Quotes(init) % 2 == 0 then 1 else 0)
  }

  /** One step keeps the quote parity and the count of ended fields in line with the
      reference counts. */
  lemma StepCounts(init: string, c: char)
    requires ScanFrom(Start, init).inQuotes <==> Quotes(init) % 2 == 1
    requires |ScanFrom(Start, init).done| == UnquotedCommas(init)
    ensures ScanFrom(Start, init + [c]).inQuotes <==> Quotes(init + [c]) % 2 == 1
    ensures |ScanFrom(Start, init + [c]).done| == UnquotedCommas(init + [c])
  {
    var s := init + [c];
    assert s[..|s| - 1] == init && s[|s| - 1] == c;
    assert ScanFrom(Start, s) == Step(ScanFrom(Start, init), c);
    assert Quotes(s) == Quotes(init) + (if c == '"' then 1 else 0);
    assert UnquotedCommas(s) == UnquotedCommas(init) + (if c == ',' && Quotes(init) % 2 == 0 then 1 else 0);
  }

  /** The reader is inside quotes after an odd number of quotes, and has ended one field per
      unquoted comma. */
  lemma {:induction false} ScanCounts(s: string)
    ensures ScanFrom(Start, s).inQuotes <==> Quotes(s) % 2 == 1
    ensures |ScanFrom(Start, s).done| == UnquotedCommas(s)
  {
    if |s| > 0 {
      var init := s[..|s| - 1];
      ScanCounts(init);
      StepCounts(init, s[|s| - 1]);
      assert init + [s[|s| - 1]] == s;
    }
  }

  /** A line has one field more than it has commas outside quoted spans. */
  lemma ParseLineCount(line: string)
    ensures |ParseLine(line)| == UnquotedCommas(line) + 1
  {
    ScanCounts(line);
  }

  /** No quote character is kept, and every ended field is trimmed. */
  ghost predicate Clean(st: LineState) {
    '"' !in st.current && forall i :: 0 <= i < |st.done| ==> '"' !in st.done[i] && Trimmed(st.done[i])
  }

  lemma StepClean(st: LineState, c: char)
    requires Clean(st)
    ensures Clean(Step(st, c))
  {
    var r := Step(st, c);
    if c == '"' {
      assert r.done == st.done && r.current == st.current;
    } else if c == ',' && !st.inQuotes {
      var t := Trim(st.current);
      TrimLacks(st.current, '"');
      assert r.done == st.done + [t] && r.current == "";
      forall i | 0 <= i < |r.done| ensures '"' !in r.done[i] && Trimmed(r.done[i]) {
        if i < |st.done| {
          assert r.done[i] == st.done[i];
        } else {
          assert r.done[i] == t;
        }
      }
    } else {
      assert r.done == st.done && r.current == st.current + [c];
    }
  }

  lemma {:induction false} ScanClean(s: string)
    ensures Clean(ScanFrom(Start, s))
  {
    if |s| > 0 {
      ScanClean(s[..|s| - 1]);
      StepClean(ScanFrom(Start, s[..|s| - 1]), s[|s| - 1]);
    }
  }

  /** Quote characters never reach a field and every field is trimmed. */
  lemma ParseLineClean(line: string)
    ensures forall i :: 0 <= i < |ParseLine(line)| ==> '"' !in ParseLine(line)[i] && Trimmed(ParseLine(line)[i])
  {
    var st := ScanFrom(Start, line);
    ScanClean(line);
    var t := Trim(st.current);
    TrimLacks(st.current, '"');
    var r := ParseLine(line);
    assert r == st.done + [t];
    forall i | 0 <= i < |r| ensures '"' !in r[i] && Trimmed(r[i]) {
      if i < |st.done| {
        assert r[i] == st.done[i];
      } else {
        assert r[i] == t;
      }
    }
  }

  /** Inside quotes, every character other than a quote is kept, commas included. */
  lemma {:induction false} ScanQuoted(st: LineState, f: string)
    requires st.inQuotes && '"' !in f
    ensures ScanFrom(st, f) == st.(current := st.current + f)
  {
    if |f| > 0 {
      ScanQuoted(st, f[..|f| - 1]);
      assert st.current + f[..|f| - 1] + [f[|f| - 1]] == st.current + f;
    }
  }

  /** A field wrapped in quotes. */
  function Quote(f: string): string {
    "\"" + f + "\""
  }

  /** Fields written as a line: each quoted, separated by commas. */
  function Join(fields: seq<string>): string
    requires |fields| >= 1
  {
    if |fields| == 1 then Quote(fields[0])
    else Join(fields[..|fields| - 1]) + "," + Quote(fields[|fields| - 1])
  }

  /** Reading a quoted field appends its text to the current field and leaves the quotes
      closed. */
  lemma ScanQuote(st: LineState, f: string)
    requires !st.inQuotes && '"' !in f
    ensures ScanFrom(st, Quote(f)) == st.(current := st.current + f)
  {
    ScanAppend(st, "\"" + f, "\"");
    ScanAppend(st, "\"", f);
    assert ScanFrom(st, "\"") == st.(inQuotes := true) by {
      assert "\""[..0] == "";
    }
    ScanQuoted(st.(inQuotes := true), f);
    var mid := st.(inQuotes := true, current := st.current + f);
    assert ScanFrom(mid, "\"") == Step(mid, '"') by {
      assert "\""[..0] == "";
    }
  }

  /** Reading a comma outside quotes ends the current field. */
  lemma ScanComma(st: LineState)
    requires !st.inQuotes
    ensures ScanFrom(st, ",") == LineState(st.done + [Trim(st.current)], "", false)
  {
    assert ","[..0] == "";
    assert ScanFrom(st, ",") == Step(ScanFrom(st, ""), ',');
  }

  /** Reading a comma and one more quoted field, after a field still being read. */
  lemma ScanNext(done: seq<string>, cur: string, f: string)
    requires Trimmed(cur) && '"' !in f
    ensures ScanFrom(LineState(done, cur, false), "," + Quote(f)) == LineState(done + [cur], f, false)
  {
    var st := LineState(done, cur, false);
    ScanAppend(st, ",", Quote(f));
    ScanComma(st);
    TrimOfTrimmed(cur);
    ScanQuote(LineState(done + [cur], "", false), f);
    assert "" + f == f;
  }

  /** The state after reading joined fields: every field but the last ended, the last one
      still being read. */
  lemma {:induction false} ScanJoin(fields: seq<string>)
    requires |fields| >= 1
    requires forall i :: 0 <= i < |fields| ==> '"' !in fields[i] && Trimmed(fields[i])
    ensures ScanFrom(Start, Join(fields)) == LineState(fields[..|fields| - 1], fields[|fields| - 1], false)
  {
    var n := |fields|;
    if n == 1 {
      ScanQuote(Start, fields[0]);
      assert "" + fields[0] == fields[0];
    } else {
      var init := fields[..n - 1];
      ScanJoin(init);
      assert Join(fields) == Join(init) + ("," + Quote(fields[n - 1]));
      ScanAppend(Start, Join(init), "," + Quote(fields[n - 1]));
      ScanNext(init[..n - 2], init[n - 2], fields[n - 1]);
      assert init[..n - 2] + [init[n - 2]] == init;
    }
  }

  lemma SplitLast(s: seq<string>)
    requires |s| >= 1
    ensures s[..|s| - 1] + [s[|s| - 1]] == s
  {
  }

  lemma ParseLineOf(line: string, done: seq<string>, cur: string)
    requires ScanFrom(Start, line) == LineState(done, cur, false)
    ensures ParseLine(line) == done + [Trim(cur)]
  {
  }

  /** Round trip: trimmed fields without quote characters, written quoted and comma-separated,
      read back as themselves, commas inside them included. */
  lemma {:induction false} ParseJoin(fields: seq<string>)
    requires |fields| >= 1
    requires forall i :: 0 <= i < |fields| ==> '"' !in fields[i] && Trimmed(fields[i])
    ensures ParseLine(Join(fields)) == fields
  {
    var n := |fields|;
    var line := Join(fields);
    ScanJoin(fields);
    assert Trimmed(fields[n - 1]);
    TrimOfTrimmed(fields[n - 1]);
    ParseLineOf(line, fields[..n - 1], fields[n - 1]);
    SplitLast(fields);
  }

  // ---- line splitting ----

  /** `s.split(sep)`: the pieces between separators; an empty string gives one empty piece. */
  function Split(s: string, sep: char): (r: seq<string>)
    ensures |r| >= 1
  {
    if |s| == 0 then [""]
    else
      var parts := Split(s[..|s| - 1], sep);
      if s[|s| - 1] == sep then parts + [""]
      else parts[..|parts| - 1] + [parts[|parts| - 1] + [s[|s| - 1]]]
  }

  /** Number of occurrences of `c` in `s`. */
  function Occurrences(s: string, c: char): nat {
    if |s| == 0 then 0 else Occurrences(s[..|s| - 1], c) + (if s[|s| - 1] == c then 1 else 0)
  }

  /** Joins pieces back with the separator between them. */
  function Unsplit(parts: seq<string>, sep: char): string
    requires |parts| >= 1
  {
    if |parts| == 1 then parts[0] else Unsplit(parts[..|parts| - 1], sep) + [sep] + parts[|parts| - 1]
  }

  /** Splitting yields one piece more than there are separators, no piece holds a separator,
      and joining the pieces back gives the text. */
  lemma SplitSpec(s: string, sep: char)
    ensures |Split(s, sep)| == Occurrences(s, sep) + 1
    ensures forall i :: 0 <= i < |Split(s, sep)| ==> sep !in Split(s, sep)[i]
    ensures Unsplit(Split(s, sep), sep) == s
  {
    SplitCount(s, sep);
    SplitClean(s, sep);
    SplitJoin(s, sep);
  }

  lemma {:induction false} SplitCount(s: string, sep: char)
    ensures |Split(s, sep)| == Occurrences(s, sep) + 1
  {
    if |s| > 0 {
      SplitCount(s[..|s| - 1], sep);
    }
  }

  lemma {:induction false} SplitClean(s: string, sep: char)
    ensures forall i :: 0 <= i < |Split(s, sep)| ==> sep !in Split(s, sep)[i]
  {
    if |s| > 0 {
      var c := s[|s| - 1];
      var parts := Split(s[..|s| - 1], sep);
      SplitClean(s[..|s| - 1], sep);
      var r := Split(s, sep);
      if c == sep {
        assert r == parts + [""];
        forall i | 0 <= i < |r| ensures sep !in r[i] {
          if i < |parts| {
            assert r[i] == parts[i];
          }
        }
      } else {
        var m := |parts| - 1;
        assert r == parts[..m] + [parts[m] + [c]];
        forall i | 0 <= i < |r| ensures sep !in r[i] {
          if i < m {
            assert r[i] == parts[i];
          } else {
            assert r[i] == parts[m] + [c];
          }
        }
      }
    }
  }

  lemma {:induction false} SplitJoin(s: string, sep: char)
    ensures Unsplit(Split(s, sep), sep) == s
  {
    if |s| > 0 {
      var init := s[..|s| - 1];
      var c := s[|s| - 1];
      var parts := Split(init, sep);
      SplitJoin(init, sep);
      assert s == init + [c];
      if c == sep {
        var r := parts + [""];
        assert Split(s, sep) == r;
        assert r[..|parts|] == parts;
        assert Unsplit(r, sep) == Unsplit(parts, sep) + [sep] + "";
      } else {
        var m := |parts| - 1;
        var r := parts[..m] + [parts[m] + [c]];
        assert Split(s, sep) == r;
        if m > 0 {
          assert r[..m] == parts[..m];
          assert Unsplit(r, sep) == Unsplit(parts[..m], sep) + [sep] + (parts[m] + [c]);
          assert Unsplit(parts, sep) == Unsplit(parts[..m], sep) + [sep] + parts[m];
        }
      }
    }
  }

  /** A text without the separator is a single piece. */
  lemma NoSeparatorOnePiece(s: string, sep: char)
    ensures |Split(s, sep)| == 1 <==> sep !in s
  {
    SplitSpec(s, sep);
    OccurrencesSpec(s, sep);
  }

  lemma {:induction false} OccurrencesSpec(s: string, c: char)
    ensures Occurrences(s, c) == 0 <==> c !in s
  {
    if |s| > 0 {
      OccurrencesSpec(s[..|s| - 1], c);
      assert s == s[..|s| - 1] + [s[|s| - 1]];
    }
  }

  // ---- header names ----

  /** `replace(/\s+/g, '_')`: every maximal run of white space becomes one underscore. */
  function Collapse(s: string): (r: string)
    ensures forall i :: 0 <= i < |r| ==> !IsSpace(r[i])
    ensures forall i :: 0 <= i < |r| ==> r[i] == '_' || r[i] in s
    decreases |s|
  {
    if |s| == 0 then ""
    else if IsSpace(s[0]) then
      var rest := TrimStart(s);
      var tail := Collapse(rest);
      FromSuffix(tail, rest, s);
      "_" + tail
    else
      var tail := Collapse(s[1..]);
      FromSuffix(tail, s[1..], s);
      [s[0]] + tail
  }

  /** What comes from a suffix of `s`, or is an underscore, comes from `s` or is an underscore. */
  lemma FromSuffix(tail: string, rest: string, s: string)
    requires |rest| <= |s| && rest == s[|s| - |rest|..]
    requires forall i :: 0 <= i < |tail| ==> tail[i] == '_' || tail[i] in rest
    ensures forall i :: 0 <= i < |tail| ==> tail[i] == '_' || tail[i] in s
  {
    forall i | 0 <= i < |tail| && tail[i] != '_' ensures tail[i] in s {
      var j :| 0 <= j < |rest| && rest[j] == tail[i];
      assert s[|s| - |rest| + j] == rest[j];
    }
  }

  /** A text without white space is left alone. */
  lemma {:induction false} CollapseNoSpace(s: string)
    requires forall i :: 0 <= i < |s| ==> !IsSpace(s[i])
    ensures Collapse(s) == s
  {
    if |s| > 0 {
      CollapseNoSpace(s[1..]);
    }
  }

  /** A run made only of white space becomes a single underscore. */
  lemma CollapseSpaceRun(w: string)
    requires |w| > 0 && forall i :: 0 <= i < |w| ==> IsSpace(w[i])
    ensures Collapse(w) == "_"
  {
    assert |TrimStart(w)| == 0;
  }

  /** Leading white space that covers all of `a` is dropped together with that of `b`. */
  lemma {:induction false} TrimStartSpaces(a: string, b: string)
    requires |TrimStart(a)| == 0
    ensures TrimStart(a + b) == TrimStart(b)
  {
    if |a| == 0 {
      assert a + b == b;
    } else {
      assert IsSpace(a[0]);
      assert (a + b)[1..] == a[1..] + b;
      TrimStartSpaces(a[1..], b);
    }
  }

  /** When `a` holds something besides white space, its leading white space is all there is. */
  lemma {:induction false} TrimStartAppend(a: string, b: string)
    requires |TrimStart(a)| > 0
    ensures TrimStart(a + b) == TrimStart(a) + b
  {
    if IsSpace(a[0]) {
      assert (a + b)[1..] == a[1..] + b;
      TrimStartAppend(a[1..], b);
    }
  }

  /** Collapsing works piece by piece when the cut does not split a run of white space, that
      is, when one side of the cut is not white space. With `CollapseSpaceRun` and
      `CollapseNoSpace` this pins down the result for every text. */
  lemma {:induction false} CollapseAppend(a: string, b: string)
    requires (|a| > 0 && !IsSpace(a[|a| - 1])) || (|b| > 0 && !IsSpace(b[0]))
    ensures Collapse(a + b) == Collapse(a) + Collapse(b)
    decreases |a|, 1
  {
    if |a| == 0 {
      assert a + b == b;
    } else if IsSpace(a[0]) {
      CollapseAppendSpace(a, b);
    } else {
      assert (a + b)[0] == a[0] && (a + b)[1..] == a[1..] + b;
      if |a| == 1 {
        assert a[1..] + b == b;
        assert Collapse(a) == [a[0]] + Collapse(a[1..]);
      } else {
        CollapseAppend(a[1..], b);
      }
    }
  }

  /** The case of `CollapseAppend` where `a` opens with white space. */
  lemma {:induction false} CollapseAppendSpace(a: string, b: string)
    requires |a| > 0 && IsSpace(a[0])
    requires !IsSpace(a[|a| - 1]) || (|b| > 0 && !IsSpace(b[0]))
    ensures Collapse(a + b) == Collapse(a) + Collapse(b)
    decreases |a|, 0
  {
    var t := TrimStart(a);
    if |t| == 0 {
      CollapseSpacesThen(a, b);
    } else {
      assert t[|t| - 1] == a[|a| - 1];
      CollapseAppend(t, b);
      CollapseSpaceStep(a, b);
    }
  }

  /** White space alone, then a text that opens with something else. */
  lemma CollapseSpacesThen(a: string, b: string)
    requires |a| > 0 && IsSpace(a[0]) && |TrimStart(a)| == 0
    requires |b| > 0 && !IsSpace(b[0])
    ensures Collapse(a + b) == Collapse(a) + Collapse(b)
  {
    assert (a + b)[0] == a[0];
    TrimStartSpaces(a, b);
    CollapseSpaceRun(a);
    assert TrimStart(b) == b;
  }

  /** Leading white space followed by more text: the law for the rest gives the law for all. */
  lemma CollapseSpaceStep(a: string, b: string)
    requires |a| > 0 && IsSpace(a[0]) && |TrimStart(a)| > 0
    requires Collapse(TrimStart(a) + b) == Collapse(TrimStart(a)) + Collapse(b)
    ensures Collapse(a + b) == Collapse(a) + Collapse(b)
  {
    var ab, t := a + b, TrimStart(a);
    TrimStartAppend(a, b);
    CollapseOpenSpace(a);
    assert ab[0] == a[0];
    CollapseOpenSpace(ab);
    AppendAssoc("_", Collapse(t), Collapse(b));
  }

  lemma AppendAssoc(x: string, y: string, z: string)
    ensures x + (y + z) == (x + y) + z
  {
  }

  /** Text that opens with white space collapses to an underscore and the rest. */
  lemma CollapseOpenSpace(s: string)
    requires |s| > 0 && IsSpace(s[0])
    ensures Collapse(s) == "_" + Collapse(TrimStart(s))
  {
  }

  /** `header.trim().toLowerCase().replace(/\s+/g, '_')`. */
  function NormalizeKey(h: string): (r: string)
    ensures forall i :: 0 <= i < |r| ==> !IsSpace(r[i]) && !('A' <= r[i] <= 'Z')
  {
    var lowered := ToLower(Trim(h));
    LowerIdempotent(Trim(h));
    Collapse(lowered)
  }

  /** A normalised name is its own normal form. */
  lemma NormalizeIdempotent(h: string)
    ensures NormalizeKey(NormalizeKey(h)) == NormalizeKey(h)
  {
    var k := NormalizeKey(h);
    TrimNoSpace(k);
    assert ToLower(k) == k;
    CollapseNoSpace(k);
  }

  // ---- parseCSV ----

  /** A data row: normalised header name to cell text. */
  type Row = map<string, string>

  /** The `headers.forEach` that fills a row: a later column with the same name overwrites an
      earlier one. */
  function BuildRow(keys: seq<string>, values: seq<string>): (r: Row)
    requires |keys| == |values|
    ensures r.Keys == set k | k in keys
  {
    if |keys| == 0 then map[]
    else
      var n := |keys| - 1;
      var prev := BuildRow(keys[..n], values[..n]);
      assert keys == keys[..n] + [keys[n]];
      prev[keys[n] := values[n]]
  }

  /** A column whose name no later column repeats supplies that name's cell. */
  lemma {:induction false} BuildRowLast(keys: seq<string>, values: seq<string>, j: int)
    requires |keys| == |values| && 0 <= j < |keys|
    requires forall i :: j < i < |keys| ==> keys[i] != keys[j]
    ensures BuildRow(keys, values)[keys[j]] == values[j]
  {
    var n := |keys| - 1;
    if j < n {
      BuildRowLast(keys[..n], values[..n], j);
    }
  }

  /** The fields of each data line, as `parseCSVLine` reads them. */
  function Fields(lines: seq<string>): (r: seq<seq<string>>)
    ensures |r| == |lines| && forall i :: 0 <= i < |lines| ==> r[i] == ParseLine(lines[i])
  {
    seq(|lines|, i requires 0 <= i < |lines| => ParseLine(lines[i]))
  }

  /** The rows built from the data lines' fields, in order, for lines whose field count
      matches the header's. */
  function DataRows(keys: seq<string>, values: seq<seq<string>>): (r: seq<Row>)
    ensures |r| <= |values|
  {
    if |values| == 0 then []
    else
      (if |values[0]| == |keys| then [BuildRow(keys, values[0])] else []) + DataRows(keys, values[1..])
  }

  /** A line with a mismatched field count contributes nothing; a matching one contributes its
      row, after the rows of the lines before it. */
  lemma {:induction false} DataRowsSnoc(keys: seq<string>, values: seq<seq<string>>, line: seq<string>)
    ensures DataRows(keys, values + [line]) == DataRows(keys, values) +
      (if |line| == |keys| then [BuildRow(keys, line)] else [])
  {
    if |values| == 0 {
      assert values + [line] == [line];
    } else {
      assert (values + [line])[1..] == values[1..] + [line];
      DataRowsSnoc(keys, values[1..], line);
    }
  }

  /** Every row has exactly the normalised header names as keys. */
  lemma {:induction false} DataRowsKeys(keys: seq<string>, values: seq<seq<string>>)
    ensures forall r :: r in DataRows(keys, values) ==> r.Keys == set k | k in keys
  {
    if |values| > 0 {
      DataRowsKeys(keys, values[1..]);
    }
  }

  /** The field lists of length `n`, in order. */
  function Fitting(n: nat, values: seq<seq<string>>): seq<seq<string>> {
    Filter(values, (v: seq<string>) => |v| == n)
  }

  /** The rows are the fitting lines, one row each, in order: the `if` inside the loop is a
      filter followed by a map. */
  lemma {:induction false} DataRowsFitting(keys: seq<string>, values: seq<seq<string>>)
    ensures var fit := Fitting(|keys|, values);
      && |DataRows(keys, values)| == |fit|
      && (forall k :: 0 <= k < |fit| ==> |fit[k]| == |keys| && DataRows(keys, values)[k] == BuildRow(keys, fit[k]))
  {
    if |values| > 0 {
      DataRowsFitting(keys, values[1..]);
      var fits := (v: seq<string>) => |v| == |keys|;
      var rest, fit := Fitting(|keys|, values[1..]), Fitting(|keys|, values);
      var rows, tail := DataRows(keys, values), DataRows(keys, values[1..]);
      assert fit == (if fits(values[0]) then [values[0]] else []) + rest;
      if |values[0]| == |keys| {
        assert rows == [BuildRow(keys, values[0])] + tail;
        forall k | 1 <= k < |fit| ensures |fit[k]| == |keys| && rows[k] == BuildRow(keys, fit[k]) {
          assert fit[k] == rest[k - 1] && rows[k] == tail[k - 1];
        }
      } else {
        assert rows == tail && fit == rest;
      }
    }
  }

  /** The normalised names of a header line's fields. */
  function HeaderKeys(line: string): (keys: seq<string>)
    ensures |keys| == |ParseLine(line)|
  {
    var headers := ParseLine(line);
    seq(|headers|, i requires 0 <= i < |headers| => NormalizeKey(headers[i]))
  }

  /** `parseCSV`: trims the text and splits it into lines; fewer than two lines is an error;
      otherwise the header line gives the normalised keys and each data line whose field count
      matches becomes a row. */
  function ParseCsv(text: string): (r: Result<seq<Row>, string>)
    ensures r.Err? ==> r.error == "CSV file is empty or invalid"
    ensures r.Ok? ==>
      var lines := Split(Trim(text), '\n');
      var keys := HeaderKeys(lines[0]);
      var fit := Fitting(|keys|, Fields(lines[1..]));
      && |lines| >= 2 && |r.value| == |fit|
      && (forall k :: 0 <= k < |fit| ==> |fit[k]| == |keys| && r.value[k] == BuildRow(keys, fit[k]))
      && (forall row :: row in r.value ==> row.Keys == set k | k in keys)
  {
    var lines := Split(Trim(text), '\n');
    if |lines| < 2 then Err("CSV file is empty or invalid")
    else
      var keys := HeaderKeys(lines[0]);
      var values := Fields(lines[1..]);
      DataRowsFitting(keys, values);
      DataRowsKeys(keys, values);
      Ok(DataRows(keys, values))
  }

  /** The error happens exactly when the trimmed text holds no line break. */
  lemma ParseCsvError(text: string)
    ensures ParseCsv(text).Err? <==> '\n' !in Trim(text)
  {
    NoSeparatorOnePiece(Trim(text), '\n');
  }
}
