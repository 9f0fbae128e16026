/** The PKCE helpers of `src/utils/pkce.js`: the base64url encoding of random bytes (the
    code verifier and the state), and the session-store handling of the two values. The
    encoding is modelled twice: as the source computes it (standard base64 with padding, then
    `+`/`/` replaced and trailing `=` removed) and as section 5 of RFC 4648 defines the URL-safe
    alphabet, without padding as Appendix A of RFC 7636 asks; the two agree. */
module Pkce {
  import opened Wrappers

  /** A byte of the input buffer. */
  type Byte = x: int | 0 <= x < 256

  /** The character of a 6-bit value in the standard alphabet (section 4 of RFC 4648). */
  function StdDigit(v: int): char
    requires 0 <= v < 64
  {
    if v < 26 then ('A' as int + v) as char
    else if v < 52 then ('a' as int + (v - 26)) as char
    else if v < 62 then ('0' as int + (v - 52)) as char
    else if v == 62 then '+'
    else '/'
  }

  /** The character of a 6-bit value in the URL-safe alphabet (section 5 of RFC 4648). */
  function UrlDigit(v: int): char
    requires 0 <= v < 64
  {
    if v < 62 then StdDigit(v) else if v == 62 then '-' else '_'
  }

  /** A character of the URL-safe alphabet `[A-Za-z0-9-_]`. */
  predicate UrlSafe(c: char) {
    ('A' <= c <= 'Z') || ('a' <= c <= 'z') || ('0' <= c <= '9') || c == '-' || c == '_'
  }

  /** The value of a URL-safe character. */
  function UrlValue(c: char): (v: int)
    requires UrlSafe(c)
    ensures 0 <= v < 64 && UrlDigit(v) == c
  {
    if 'A' <= c <= 'Z' then c as int - 'A' as int
    else if 'a' <= c <= 'z' then c as int - 'a' as int + 26
    else if '0' <= c <= '9' then c as int - '0' as int + 52
    else if c == '-' then 62
    else 63
  }

  lemma {:induction false} UrlValueOfDigit(v: int)
    requires 0 <= v < 64
    ensures UrlSafe(UrlDigit(v)) && UrlValue(UrlDigit(v)) == v
  {
  }

  /** The four 6-bit values of a 3-byte group (a shorter group pads with zero bits). */
  function Sextets(b0: Byte, b1: Byte, b2: Byte): (r: seq<int>)
    ensures |r| == 4 && forall i :: 0 <= i < 4 ==> 0 <= r[i] < 64
  {
    [b0 / 4, (b0 % 4) * 16 + b1 / 16, (b1 % 16) * 4 + b2 / 64, b2 % 64]
  }

  /** `btoa`: standard base64 with `=` padding. */
  function StdBase64(bytes: seq<Byte>): (r: string)
    ensures |r| == 4 * ((|bytes| + 2) / 3)
    decreases |bytes|
  {
    if |bytes| == 0 then ""
    else if |bytes| == 1 then
      var v := Sextets(bytes[0], 0, 0);
      [StdDigit(v[0]), StdDigit(v[1]), '=', '=']
    else if |bytes| == 2 then
      var v := Sextets(bytes[0], bytes[1], 0);
      [StdDigit(v[0]), StdDigit(v[1]), StdDigit(v[2]), '=']
    else
      var v := Sextets(bytes[0], bytes[1], bytes[2]);
      assert (|bytes| + 2) / 3 == (|bytes[3..]| + 2) / 3 + 1;
      [StdDigit(v[0]), StdDigit(v[1]), StdDigit(v[2]), StdDigit(v[3])] + StdBase64(bytes[3..])
  }

  /** One character of `.replace(/\+/g, '-').replace(/\//g, '_')`. */
  function UrlChar(c: char): char {
    if c == '+' then '-' else if c == '/' then '_' else c
  }

  /** `.replace(/\+/g, '-').replace(/\//g, '_')`. */
  function UrlChars(s: string): (r: string)
    ensures |r| == |s| && forall i :: 0 <= i < |s| ==> r[i] == UrlChar(s[i])
    ensures '+' !in r && '/' !in r
    ensures forall i :: 0 <= i < |s| && s[i] != '+' && s[i] != '/' ==> r[i] == s[i]
  {
    seq(|s|, i requires 0 <= i < |s| => UrlChar(s[i]))
  }

  /** One global `replace` of character `a` by `b`. */
  function ReplaceChar(s: string, a: char, b: char): (r: string)
    ensures |r| == |s|
    ensures a != b ==> a !in r
    ensures forall i :: 0 <= i < |s| && s[i] != a ==> r[i] == s[i]
  {
    if |s| == 0 then [] else ReplaceChar(s[..|s| - 1], a, b) + [if s[|s| - 1] == a then b else s[|s| - 1]]
  }

  /** The two passes of the source, `+` first and then `/`, make one character-wise mapping. */
  lemma {:induction false} UrlCharsTwoPasses(s: string)
    ensures ReplaceChar(ReplaceChar(s, '+', '-'), '/', '_') == UrlChars(s)
  {
    if |s| > 0 {
      var init, last := s[..|s| - 1], s[|s| - 1];
      UrlCharsTwoPasses(init);
      var first := if last == '+' then '-' else last;
      var once := ReplaceChar(s, '+', '-');
      assert once == ReplaceChar(init, '+', '-') + [first];
      assert once[..|s| - 1] == ReplaceChar(init, '+', '-');
      assert ReplaceChar(once, '/', '_') == ReplaceChar(once[..|s| - 1], '/', '_') + [UrlChar(last)];
      assert UrlChars(s) == UrlChars(init) + [UrlChar(last)];
    }
  }

  /** A standard digit with its two special characters swapped is the URL-safe digit. */
  lemma {:induction false} DigitSwap(v: int)
    requires 0 <= v < 64
    ensures UrlChar(StdDigit(v)) == UrlDigit(v)
    ensures UrlChar('=') == '=' && UrlDigit(v) != '='
  {
  }

  /** `.replace(/=+$/, '')`: drops the run of `=` at the end. */
  function StripPadding(s: string): (r: string)
    ensures |r| <= |s| && r == s[..|r|]
    ensures |r| > 0 ==> r[|r| - 1] != '='
    ensures forall i :: |r| <= i < |s| ==> s[i] == '='
  {
    if |s| > 0 && s[|s| - 1] == '=' then StripPadding(s[..|s| - 1]) else s
  }

  /** `base64UrlEncode` as the source writes it. */
  function Base64UrlEncode(bytes: seq<Byte>): string {
    StripPadding(UrlChars(StdBase64(bytes)))
  }

  /** Reference definition: the URL-safe alphabet, four characters per full group, and two
      or three for a final group of one or two bytes. */
  function Encode(bytes: seq<Byte>): (r: string)
    ensures |r| == (4 * |bytes| + 2) / 3
    ensures forall i :: 0 <= i < |r| ==> UrlSafe(r[i])
    decreases |bytes|
  {
    if |bytes| == 0 then ""
    else if |bytes| == 1 then
      var v := Sextets(bytes[0], 0, 0);
      UrlValueOfDigit(v[0]);
      UrlValueOfDigit(v[1]);
      [UrlDigit(v[0]), UrlDigit(v[1])]
    else if |bytes| == 2 then
      var v := Sextets(bytes[0], bytes[1], 0);
      UrlValueOfDigit(v[0]);
      UrlValueOfDigit(v[1]);
      UrlValueOfDigit(v[2]);
      [UrlDigit(v[0]), UrlDigit(v[1]), UrlDigit(v[2])]
    else
      var v := Sextets(bytes[0], bytes[1], bytes[2]);
      UrlValueOfDigit(v[0]);
      UrlValueOfDigit(v[1]);
      UrlValueOfDigit(v[2]);
      UrlValueOfDigit(v[3]);
      [UrlDigit(v[0]), UrlDigit(v[1]), UrlDigit(v[2]), UrlDigit(v[3])] + Encode(bytes[3..])
  }

  /** Replacing characters works piece by piece. */
  lemma {:induction false} UrlCharsAppend(a: string, b: string)
    ensures UrlChars(a + b) == UrlChars(a) + UrlChars(b)
  {
  }

  /** Stripping the padding never reaches into a prefix without `=`. */
  lemma {:induction false} StripPaddingAppend(p: string, q: string)
    requires '=' !in p
    ensures StripPadding(p + q) == p + StripPadding(q)
  {
    if |q| == 0 {
      assert p + q == p;
      if |p| > 0 {
        assert p[|p| - 1] in p;
      }
    } else if q[|q| - 1] == '=' {
      assert (p + q)[..|p + q| - 1] == p + q[..|q| - 1];
      StripPaddingAppend(p, q[..|q| - 1]);
    }
  }

  /** A final group of one byte. */
  lemma {:induction false} EncodeOne(bytes: seq<Byte>)
    requires |bytes| == 1
    ensures Base64UrlEncode(bytes) == Encode(bytes)
  {
    var v := Sextets(bytes[0], 0, 0);
    var u0, u1 := UrlDigit(v[0]), UrlDigit(v[1]);
    UrlValueOfDigit(v[0]);
    UrlValueOfDigit(v[1]);
    DigitSwap(v[0]);
    DigitSwap(v[1]);
    var padded := StdBase64(bytes);
    assert padded == [StdDigit(v[0]), StdDigit(v[1]), '=', '='];
    assert UrlChars(padded) == [u0, u1, '=', '='];
    assert [u0, u1, '=', '='][..3] == [u0, u1, '='];
    assert [u0, u1, '='][..2] == [u0, u1];
    assert StripPadding([u0, u1, '=', '=']) == StripPadding([u0, u1, '=']);
    assert StripPadding([u0, u1, '=']) == StripPadding([u0, u1]);
  }

  /** A final group of two bytes. */
  lemma {:induction false} EncodeTwo(bytes: seq<Byte>)
    requires |bytes| == 2
    ensures Base64UrlEncode(bytes) == Encode(bytes)
  {
    var v := Sextets(bytes[0], bytes[1], 0);
    var u0, u1, u2 := UrlDigit(v[0]), UrlDigit(v[1]), UrlDigit(v[2]);
    UrlValueOfDigit(v[0]);
    UrlValueOfDigit(v[1]);
    UrlValueOfDigit(v[2]);
    DigitSwap(v[0]);
    DigitSwap(v[1]);
    DigitSwap(v[2]);
    var padded := StdBase64(bytes);
    assert padded == [StdDigit(v[0]), StdDigit(v[1]), StdDigit(v[2]), '='];
    assert UrlChars(padded) == [u0, u1, u2, '='];
    assert [u0, u1, u2, '='][..3] == [u0, u1, u2];
    assert StripPadding([u0, u1, u2, '=']) == [u0, u1, u2];
  }

  /** A full group followed by the rest. */
  lemma {:induction false} EncodeGroup(bytes: seq<Byte>)
    requires |bytes| >= 3
    requires Base64UrlEncode(bytes[3..]) == Encode(bytes[3..])
    ensures Base64UrlEncode(bytes) == Encode(bytes)
  {
    var v := Sextets(bytes[0], bytes[1], bytes[2]);
    var block := [StdDigit(v[0]), StdDigit(v[1]), StdDigit(v[2]), StdDigit(v[3])];
    var urlBlock := [UrlDigit(v[0]), UrlDigit(v[1]), UrlDigit(v[2]), UrlDigit(v[3])];
    UrlValueOfDigit(v[0]);
    UrlValueOfDigit(v[1]);
    UrlValueOfDigit(v[2]);
    UrlValueOfDigit(v[3]);
    DigitSwap(v[0]);
    DigitSwap(v[1]);
    DigitSwap(v[2]);
    DigitSwap(v[3]);
    assert StdBase64(bytes) == block + StdBase64(bytes[3..]);
    UrlCharsAppend(block, StdBase64(bytes[3..]));
    assert UrlChars(block) == urlBlock;
    assert '=' !in urlBlock;
    StripPaddingAppend(urlBlock, UrlChars(StdBase64(bytes[3..])));
    assert Encode(bytes) == urlBlock + Encode(bytes[3..]);
  }

  /** The source's encoding is the URL-safe base64 of RFC 4648 without padding. */
  lemma {:induction false} EncodeAsWritten(bytes: seq<Byte>)
    ensures Base64UrlEncode(bytes) == Encode(bytes)
    decreases |bytes|
  {
    if |bytes| == 1 {
      EncodeOne(bytes);
    } else if |bytes| == 2 {
      EncodeTwo(bytes);
    } else if |bytes| >= 3 {
      EncodeAsWritten(bytes[3..]);
      EncodeGroup(bytes);
    }
  }

  /** `generateCodeVerifier`: 32 random bytes encode to 43 characters, the shortest verifier
      section 4.1 of RFC 7636 allows (43 to 128 characters of the unreserved set). */
  lemma {:induction false} VerifierLength(bytes: seq<Byte>)
    requires |bytes| == 32
    ensures |Base64UrlEncode(bytes)| == 43
    ensures forall i :: 0 <= i < 43 ==> UrlSafe(Base64UrlEncode(bytes)[i])
  {
    EncodeAsWritten(bytes);
  }

  /** `generateState`: 16 random bytes encode to 22 characters. */
  lemma {:induction false} StateLength(bytes: seq<Byte>)
    requires |bytes| == 16
    ensures |Base64UrlEncode(bytes)| == 22
    ensures forall i :: 0 <= i < 22 ==> UrlSafe(Base64UrlEncode(bytes)[i])
  {
    EncodeAsWritten(bytes);
  }

  // ---- decoding, the inverse of the reference encoding ----

  /** The three bytes of four 6-bit values. */
  function Octets(v0: int, v1: int, v2: int, v3: int): (r: seq<int>)
    requires 0 <= v0 < 64 && 0 <= v1 < 64 && 0 <= v2 < 64 && 0 <= v3 < 64
    ensures |r| == 3 && forall i :: 0 <= i < 3 ==> 0 <= r[i] < 256
  {
    [v0 * 4 + v1 / 16, (v1 % 16) * 16 + v2 / 4, (v2 % 4) * 64 + v3]
  }

  /** Splitting a group into 6-bit values and joining them back gives the bytes again. */
  lemma {:induction false} OctetsOfSextets(b0: Byte, b1: Byte, b2: Byte)
    ensures var v := Sextets(b0, b1, b2); Octets(v[0], v[1], v[2], v[3]) == [b0, b1, b2]
  {
  }

  /** The first (up to) four characters of `s` are all URL-safe. */
  predicate GroupSafe(s: string) {
    && (|s| < 1 || UrlSafe(s[0]))
    && (|s| < 2 || UrlSafe(s[1]))
    && (|s| < 3 || UrlSafe(s[2]))
    && (|s| < 4 || UrlSafe(s[3]))
  }

  /** The bytes of one group of two to four characters: one, two or three of them. */
  function GroupBytes(s: string): (r: seq<Byte>)
    requires 2 <= |s| && GroupSafe(s)
    ensures |r| == (if |s| >= 4 then 3 else |s| - 1)
  {
    var o := Octets(UrlValue(s[0]), UrlValue(s[1]),
      if |s| >= 3 then UrlValue(s[2]) else 0, if |s| >= 4 then UrlValue(s[3]) else 0);
    if |s| == 2 then [o[0] as Byte]
    else if |s| == 3 then [o[0] as Byte, o[1] as Byte]
    else [o[0] as Byte, o[1] as Byte, o[2] as Byte]
  }

  /** Decodes URL-safe base64 without padding; `None` for a character outside the alphabet or
      a length that leaves one character over. */
  function Decode(s: string): (r: Option<seq<Byte>>)
    decreases |s|
  {
    if |s| == 0 then Some([])
    else if |s| == 1 || !GroupSafe(s) then None
    else if |s| <= 3 then Some(GroupBytes(s))
    else
      var rest := Decode(s[4..]);
      if rest.None? then None else Some(GroupBytes(s) + rest.value)
  }

  /** Decoding a final group of one byte. */
  lemma {:induction false} DecodeOne(bytes: seq<Byte>)
    requires |bytes| == 1
    ensures Decode(Encode(bytes)) == Some(bytes)
  {
    var v := Sextets(bytes[0], 0, 0);
    UrlValueOfDigit(v[0]);
    UrlValueOfDigit(v[1]);
    OctetsOfSextets(bytes[0], 0, 0);
    var e := Encode(bytes);
    assert e == [UrlDigit(v[0]), UrlDigit(v[1])];
    assert GroupSafe(e);
    assert GroupBytes(e) == bytes;
  }

  /** Decoding a final group of two bytes. */
  lemma {:induction false} DecodeTwo(bytes: seq<Byte>)
    requires |bytes| == 2
    ensures Decode(Encode(bytes)) == Some(bytes)
  {
    var v := Sextets(bytes[0], bytes[1], 0);
    UrlValueOfDigit(v[0]);
    UrlValueOfDigit(v[1]);
    UrlValueOfDigit(v[2]);
    OctetsOfSextets(bytes[0], bytes[1], 0);
    var e := Encode(bytes);
    assert e == [UrlDigit(v[0]), UrlDigit(v[1]), UrlDigit(v[2])];
    assert GroupSafe(e);
    assert GroupBytes(e) == bytes;
  }

  /** The four characters of a full group decode to its three bytes. */
  lemma {:induction false} GroupRoundTrip(b0: Byte, b1: Byte, b2: Byte, s: string)
    requires |s| >= 4
    requires var v := Sextets(b0, b1, b2);
      s[0] == UrlDigit(v[0]) && s[1] == UrlDigit(v[1]) && s[2] == UrlDigit(v[2]) && s[3] == UrlDigit(v[3])
    ensures GroupSafe(s) && GroupBytes(s) == [b0, b1, b2]
  {
    var v := Sextets(b0, b1, b2);
    UrlValueOfDigit(v[0]);
    UrlValueOfDigit(v[1]);
    UrlValueOfDigit(v[2]);
    UrlValueOfDigit(v[3]);
    OctetsOfSextets(b0, b1, b2);
  }

  /** Decoding a full group followed by the rest. */
  lemma {:induction false} DecodeGroup(bytes: seq<Byte>)
    requires |bytes| >= 3
    requires Decode(Encode(bytes[3..])) == Some(bytes[3..])
    ensures Decode(Encode(bytes)) == Some(bytes)
  {
    SplitThree(bytes);
    var e := Encode(bytes);
    EncodeFront(bytes);
    GroupRoundTrip(bytes[0], bytes[1], bytes[2], e);
    DecodeStep(e);
  }

  lemma SplitThree(bytes: seq<Byte>)
    requires |bytes| >= 3
    ensures [bytes[0], bytes[1], bytes[2]] + bytes[3..] == bytes
  {
  }

  /** A full group encodes to four digits in front of the encoding of the rest. */
  lemma EncodeFront(bytes: seq<Byte>)
    requires |bytes| >= 3
    ensures var e := Encode(bytes); var v := Sextets(bytes[0], bytes[1], bytes[2]);
      && |e| >= 4 && e[4..] == Encode(bytes[3..])
      && e[0] == UrlDigit(v[0]) && e[1] == UrlDigit(v[1]) && e[2] == UrlDigit(v[2]) && e[3] == UrlDigit(v[3])
  {
    var v := Sextets(bytes[0], bytes[1], bytes[2]);
    var head := [UrlDigit(v[0]), UrlDigit(v[1]), UrlDigit(v[2]), UrlDigit(v[3])];
    assert Encode(bytes) == head + Encode(bytes[3..]);
  }

  /** One step of decoding past a full group. */
  lemma DecodeStep(s: string)
    requires |s| >= 4 && GroupSafe(s) && Decode(s[4..]).Some?
    ensures Decode(s) == Some(GroupBytes(s) + Decode(s[4..]).value)
  {
  }

  /** Round trip: decoding the encoding gives the bytes back. */
  lemma {:induction false} DecodeEncode(bytes: seq<Byte>)
    ensures Decode(Encode(bytes)) == Some(bytes)
    decreases |bytes|
  {
    if |bytes| == 1 {
      DecodeOne(bytes);
    } else if |bytes| == 2 {
      DecodeTwo(bytes);
    } else if |bytes| >= 3 {
      DecodeEncode(bytes[3..]);
      DecodeGroup(bytes);
    }
  }

  // ---- session storage ----

  /** `sessionStorage`, as a map from key to stored text. */
  type Store = map<string, string>

  const VerifierKey := "x_code_verifier"
  const StateKey := "x_oauth_state"

  /** `getItem`: `None` stands for `null`. */
  function GetItem(store: Store, key: string): (r: Option<string>)
    ensures r.Some? <==> key in store
    ensures r.Some? ==> r.value == store[key]
  {
    if key in store then Some(store[key]) else None
  }

  /** `storePkceValues`. */
  function StorePkce(store: Store, verifier: string, state: string): (r: Store)
    ensures GetItem(r, VerifierKey) == Some(verifier) && GetItem(r, StateKey) == Some(state)
    ensures forall k :: k in store && k != VerifierKey && k != StateKey ==> k in r && r[k] == store[k]
  {
    store[VerifierKey := verifier][StateKey := state]
  }

  /** What `retrievePkceValues` returns, and the store it leaves behind. */
  datatype Retrieved = Retrieved(codeVerifier: Option<string>, state: Option<string>, store: Store)

  /** `retrievePkceValues`: reads both values, then removes both keys. */
  function RetrievePkce(store: Store): (r: Retrieved)
    ensures r.codeVerifier == GetItem(store, VerifierKey) && r.state == GetItem(store, StateKey)
    ensures VerifierKey !in r.store && StateKey !in r.store
    ensures forall k :: k != VerifierKey && k != StateKey ==> (k in r.store <==> k in store)
    ensures forall k :: k in r.store ==> r.store[k] == store[k]
  {
    Retrieved(GetItem(store, VerifierKey), GetItem(store, StateKey), store - {VerifierKey, StateKey})
  }

  /** `verifyState(received)`: strict equality of the stored state and the received one, where
      `null === null` holds. */
  function VerifyState(store: Store, received: Option<string>): (r: bool)
    ensures r <==> GetItem(store, StateKey) == received
  {
    GetItem(store, StateKey) == received
  }

  /** Storing then retrieving gives back exactly the stored pair, and leaves neither key set. */
  lemma {:induction false} StoreRetrieve(store: Store, verifier: string, state: string)
    ensures var r := RetrievePkce(StorePkce(store, verifier, state));
      r.codeVerifier == Some(verifier) && r.state == Some(state) &&
      VerifierKey !in r.store && StateKey !in r.store
  {
  }

  /** After storing a state, a received state verifies exactly when it is that state. */
  lemma {:induction false} StoreVerify(store: Store, verifier: string, state: string, received: Option<string>)
    ensures VerifyState(StorePkce(store, verifier, state), received) <==> received == Some(state)
  {
  }

  /** Once the values are retrieved, no received state verifies, but a missing one does:
      `null === null`. */
  lemma {:induction false} RetrieveClearsState(store: Store, received: Option<string>)
    ensures VerifyState(RetrievePkce(store).store, received) <==> received.None?
  {
  }
}
