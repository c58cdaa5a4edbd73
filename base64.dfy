/**
 * The browser's `atob`: the forgiving-base64 decode of the WHATWG Infra
 * standard over the alphabet of section 4 of RFC 4648. It drops ASCII
 * whitespace, accepts missing padding, fails where the browser throws an
 * InvalidCharacterError, and yields a binary string (one code unit per byte).
 * `Encode` (section 4 of RFC 4648, with padding) is its partner.
 */
module Base64 {
  import opened JsStrings
  import opened Wrappers

  const PAD: CodeUnit := 0x3D  // '='

  /** ASCII whitespace of the Infra standard: TAB, LF, FF, CR, SPACE. */
  predicate IsAsciiWhitespace(u: CodeUnit)
  {
    u == 0x09 || u == 0x0A || u == 0x0C || u == 0x0D || u == 0x20
  }

  function RemoveAsciiWhitespace(s: JsString): (r: JsString)
    ensures |r| <= |s|
  {
    if s == [] then []
    else if IsAsciiWhitespace(s[|s| - 1]) then RemoveAsciiWhitespace(s[..|s| - 1])
    else RemoveAsciiWhitespace(s[..|s| - 1]) + [s[|s| - 1]]
  }

  /** The value of one character of the base64 alphabet (Table 1 of RFC 4648). */
  function SextetOf(u: CodeUnit): (r: Option<int>)
    ensures r.Some? ==> 0 <= r.value < 64
  {
    if 0x41 <= u <= 0x5A then Some(u as int - 0x41)
    else if 0x61 <= u <= 0x7A then Some(u as int - 0x61 + 26)
    else if 0x30 <= u <= 0x39 then Some(u as int - 0x30 + 52)
    else if u == 0x2B then Some(62)
    else if u == 0x2F then Some(63)
    else None
  }

  /** The alphabet character for a 6-bit value. */
  function Digit(v: int): (u: CodeUnit)
    requires 0 <= v < 64
    ensures SextetOf(u) == Some(v)
  {
    if v < 26 then (0x41 + v) as CodeUnit
    else if v < 52 then (0x61 + v - 26) as CodeUnit
    else if v < 62 then (0x30 + v - 52) as CodeUnit
    else if v == 62 then 0x2B
    else 0x2F
  }

  predicate AreSextets(v: seq<int>)
  {
    forall i :: 0 <= i < |v| ==> 0 <= v[i] < 64
  }

  /** The values of a string of alphabet characters; None if any character is outside it. */
  function Sextets(s: JsString): (r: Option<seq<int>>)
    ensures r.Some? ==> |r.value| == |s| && AreSextets(r.value)
  {
    if s == [] then Some([])
    else match (Sextets(s[..|s| - 1]), SextetOf(s[|s| - 1]))
      case (Some(init), Some(last)) => Some(init + [last])
      case _ => None
  }

  /** Three bytes from four sextets (the 24-bit buffer of the decoder). */
  function DecodeQuad(a: int, b: int, c: int, d: int): JsString
    requires 0 <= a < 64 && 0 <= b < 64 && 0 <= c < 64 && 0 <= d < 64
  {
    [(a * 4 + b / 16) as CodeUnit, (b % 16 * 16 + c / 4) as CodeUnit, (c % 4 * 64 + d) as CodeUnit]
  }

  /**
   * The byte string of a run of sextets; a final group of 2 or 3 sextets
   * yields 1 or 2 bytes and its leftover bits are discarded (a lone final
   * sextet, which `Atob` rejects before decoding, yields nothing).
   */
  function DecodeSextets(v: seq<int>): JsString
    requires AreSextets(v)
    decreases |v|
  {
    if |v| >= 4 then DecodeQuad(v[0], v[1], v[2], v[3]) + DecodeSextets(v[4..])
    else if |v| == 3 then [(v[0] * 4 + v[1] / 16) as CodeUnit, (v[1] % 16 * 16 + v[2] / 4) as CodeUnit]
    else if |v| == 2 then [(v[0] * 4 + v[1] / 16) as CodeUnit]
    else []
  }

  /** Step 2 of the forgiving decode: drop one or two final '=' from a whole number of quads. */
  function StripPadding(d: JsString): JsString
  {
    if |d| % 4 == 0 && |d| >= 2 && d[|d| - 1] == PAD && d[|d| - 2] == PAD then d[..|d| - 2]
    else if |d| % 4 == 0 && |d| >= 1 && d[|d| - 1] == PAD then d[..|d| - 1]
    else d
  }

  /** `atob(s)`: the decoded binary string, or None where the browser throws. */
  function Atob(s: JsString): (r: Option<JsString>)
    ensures r.Some? ==> forall i :: 0 <= i < |r.value| ==> r.value[i] < 0x100
  {
    var d := StripPadding(RemoveAsciiWhitespace(s));
    if |d| % 4 == 1 then None
    else match Sextets(d)
      case None => None
      case Some(v) => DecodedIsBinary(v); Some(DecodeSextets(v))
  }

  lemma {:induction false} DecodedIsBinary(v: seq<int>)
    requires AreSextets(v)
    ensures forall i :: 0 <= i < |DecodeSextets(v)| ==> DecodeSextets(v)[i] < 0x100
    decreases |v|
  {
    if |v| >= 4 {
      DecodedIsBinary(v[4..]);
    }
  }

  /** A JavaScript binary string: every code unit is a byte value. */
  predicate IsBinaryString(s: JsString)
  {
    forall i :: 0 <= i < |s| ==> s[i] < 0x100
  }

  /** The four sextets of three bytes (the 24-bit group of the encoder). */
  function EncodeQuad(a: int, b: int, c: int): (q: seq<int>)
    requires 0 <= a < 256 && 0 <= b < 256 && 0 <= c < 256
    ensures |q| == 4 && AreSextets(q)
  {
    [a / 4, a % 4 * 16 + b / 16, b % 16 * 4 + c / 64, c % 64]
  }

  /** The sextets of section 4 of RFC 4648: each group of 3 bytes gives 4, a final 1 or 2 bytes give 2 or 3. */
  function EncodeSextets(s: JsString): (v: seq<int>)
    requires IsBinaryString(s)
    ensures AreSextets(v)
    ensures |v| == EncodedLength(|s|)
    decreases |s|
  {
    if |s| == 0 then []
    else if |s| == 1 then EncodeQuad(s[0] as int, 0, 0)[..2]
    else if |s| == 2 then EncodeQuad(s[0] as int, s[1] as int, 0)[..3]
    else
      var q := EncodeQuad(s[0] as int, s[1] as int, s[2] as int);
      var rest := EncodeSextets(s[3..]);
      assert forall i :: 0 <= i < |q + rest| ==> (q + rest)[i] == if i < 4 then q[i] else rest[i - 4];
      q + rest
  }

  /** The number of sextets of `n` bytes. */
  function EncodedLength(n: nat): nat
  {
    if n == 0 then 0 else if n == 1 then 2 else if n == 2 then 3 else 4 + EncodedLength(n - 3)
  }

  /** The sextets of `n` bytes fill whole quads, except for a final 2 or 3 after 1 or 2 leftover bytes. */
  lemma {:induction false} EncodedLengthMod(n: nat)
    ensures EncodedLength(n) % 4 == (if n % 3 == 0 then 0 else n % 3 + 1)
    ensures EncodedLength(n) >= n
    decreases n
  {
    if n >= 3 {
      EncodedLengthMod(n - 3);
    }
  }

  /** The padding of section 4 of RFC 4648 that completes the last quad. */
  function Padding(n: nat): JsString
  {
    if n % 3 == 1 then [PAD, PAD] else if n % 3 == 2 then [PAD] else []
  }

  /** Section 4 of RFC 4648: the alphabet characters of the sextets, then '=' padding. */
  function Encode(s: JsString): (r: JsString)
    requires IsBinaryString(s)
  {
    Digits(EncodeSextets(s)) + Padding(|s|)
  }

  function Digits(v: seq<int>): (r: JsString)
    requires AreSextets(v)
    ensures |r| == |v|
    ensures Sextets(r) == Some(v)
  {
    if v == [] then []
    else
      var r := Digits(v[..|v| - 1]) + [Digit(v[|v| - 1])];
      assert r[..|r| - 1] == Digits(v[..|v| - 1]);
      assert v[..|v| - 1] + [v[|v| - 1]] == v;
      r
  }

  /** Three bytes survive the trip through their four sextets. */
  lemma QuadRoundTrip(a: int, b: int, c: int)
    requires 0 <= a < 256 && 0 <= b < 256 && 0 <= c < 256
    ensures DecodeQuad(EncodeQuad(a, b, c)[0], EncodeQuad(a, b, c)[1], EncodeQuad(a, b, c)[2], EncodeQuad(a, b, c)[3])
         == [a as CodeUnit, b as CodeUnit, c as CodeUnit]
  {
    assert a / 4 * 4 + (a % 4 * 16 + b / 16) / 16 == a;
    assert (a % 4 * 16 + b / 16) % 16 * 16 + (b % 16 * 4 + c / 64) / 4 == b;
    assert (b % 16 * 4 + c / 64) % 4 * 64 + c % 64 == c;
  }

  /** A final byte survives the trip through its two sextets. */
  lemma OneRoundTrip(a: int)
    requires 0 <= a < 256
    ensures EncodeQuad(a, 0, 0)[0] * 4 + EncodeQuad(a, 0, 0)[1] / 16 == a
  {
    assert a % 4 * 16 / 16 == a % 4;
  }

  /** A final two bytes survive the trip through their three sextets. */
  lemma TwoRoundTrip(a: int, b: int)
    requires 0 <= a < 256 && 0 <= b < 256
    ensures EncodeQuad(a, b, 0)[0] * 4 + EncodeQuad(a, b, 0)[1] / 16 == a
    ensures EncodeQuad(a, b, 0)[1] % 16 * 16 + EncodeQuad(a, b, 0)[2] / 4 == b
  {
    assert (a % 4 * 16 + b / 16) / 16 == a % 4;
    assert (a % 4 * 16 + b / 16) % 16 == b / 16;
    assert b % 16 * 4 / 4 == b % 16;
  }

  /** A final one or two bytes survive the trip through their two or three sextets. */
  lemma TailRoundTrip(s: JsString)
    requires IsBinaryString(s) && 1 <= |s| <= 2
    ensures DecodeSextets(EncodeSextets(s)) == s
  {
    if |s| == 1 {
      OneByteRoundTrip(s);
    } else {
      TwoBytesRoundTrip(s);
    }
  }

  lemma OneByteRoundTrip(s: JsString)
    requires IsBinaryString(s) && |s| == 1
    ensures DecodeSextets(EncodeSextets(s)) == s
  {
    var a := s[0] as int;
    var q := EncodeQuad(a, 0, 0);
    var v := q[..2];
    assert EncodeSextets(s) == v;
    OneRoundTrip(a);
    assert v[0] == q[0] && v[1] == q[1];
    assert (v[0] * 4 + v[1] / 16) as CodeUnit == s[0];
    assert DecodeSextets(v) == [s[0]];
    assert [s[0]] == s;
  }

  lemma TwoBytesRoundTrip(s: JsString)
    requires IsBinaryString(s) && |s| == 2
    ensures DecodeSextets(EncodeSextets(s)) == s
  {
    var a := s[0] as int;
    var b := s[1] as int;
    var q := EncodeQuad(a, b, 0);
    var v := q[..3];
    assert EncodeSextets(s) == v;
    TwoRoundTrip(a, b);
    assert v[0] == q[0] && v[1] == q[1] && v[2] == q[2];
    assert (v[0] * 4 + v[1] / 16) as CodeUnit == s[0];
    assert (v[1] % 16 * 16 + v[2] / 4) as CodeUnit == s[1];
    assert DecodeSextets(v) == [s[0], s[1]];
    assert [s[0], s[1]] == s;
  }

  lemma {:induction false} DecodeEncodeSextets(s: JsString)
    requires IsBinaryString(s)
    ensures DecodeSextets(EncodeSextets(s)) == s
    decreases |s|
  {
    if |s| >= 3 {
      var v := EncodeSextets(s);
      var q := EncodeQuad(s[0] as int, s[1] as int, s[2] as int);
      assert v == q + EncodeSextets(s[3..]);
      assert v[..4] == q && v[4..] == EncodeSextets(s[3..]);
      QuadRoundTrip(s[0] as int, s[1] as int, s[2] as int);
      DecodeEncodeSextets(s[3..]);
      assert DecodeSextets(v) == DecodeQuad(q[0], q[1], q[2], q[3]) + DecodeSextets(v[4..]);
      assert s == s[..3] + s[3..];
    } else if |s| > 0 {
      TailRoundTrip(s);
    }
  }

  lemma {:induction false} NoWhitespaceUnchanged(s: JsString)
    requires forall i :: 0 <= i < |s| ==> !IsAsciiWhitespace(s[i])
    ensures RemoveAsciiWhitespace(s) == s
    decreases |s|
  {
    if s != [] {
      NoWhitespaceUnchanged(s[..|s| - 1]);
    }
  }

  /** Every character of `Digits(v)` is in the alphabet. */
  lemma DigitsInAlphabet(v: seq<int>, i: int)
    requires AreSextets(v) && 0 <= i < |v|
    ensures SextetOf(Digits(v)[i]).Some?
  {
    var r := Digits(v);
    var w := Sextets(r);
    assert w == Some(v);
    SextetsAt(r, i);
  }

  lemma {:induction false} SextetsAt(s: JsString, i: int)
    requires Sextets(s).Some? && 0 <= i < |s|
    ensures SextetOf(s[i]).Some?
    decreases |s|
  {
    if i < |s| - 1 {
      assert s[..|s| - 1][i] == s[i];
      SextetsAt(s[..|s| - 1], i);
    }
  }

  /** The first step of the decoder leaves a string of whole quads ending in an alphabet character alone. */
  lemma StripUnpadded(d: JsString)
    requires |d| == 0 || |d| % 4 != 0 || SextetOf(d[|d| - 1]).Some?
    ensures StripPadding(d) == d
  {
  }

  lemma StripTwoPads(d: JsString)
    requires |d| % 4 == 2
    ensures StripPadding(d + [PAD, PAD]) == d
  {
    var e := d + [PAD, PAD];
    assert e[..|e| - 2] == d;
  }

  lemma StripOnePad(d: JsString)
    requires |d| % 4 == 3 && SextetOf(d[|d| - 1]).Some?
    ensures StripPadding(d + [PAD]) == d
  {
    var e := d + [PAD];
    assert e[|e| - 2] == d[|d| - 1];
    assert e[..|e| - 1] == d;
  }

  /** The padding `Encode` adds is exactly what step 2 of the decoder drops. */
  lemma StripEncodePadding(s: JsString)
    requires IsBinaryString(s)
    ensures StripPadding(Encode(s)) == Digits(EncodeSextets(s))
  {
    var v := EncodeSextets(s);
    var d := Digits(v);
    EncodedLengthMod(|s|);
    if |s| % 3 == 0 {
      assert Encode(s) == d;
      if |d| > 0 {
        DigitsInAlphabet(v, |d| - 1);
      }
      StripUnpadded(d);
    } else if |s| % 3 == 2 {
      assert Encode(s) == d + [PAD];
      DigitsInAlphabet(v, |d| - 1);
      StripOnePad(d);
    } else {
      assert Encode(s) == d + [PAD, PAD];
      StripTwoPads(d);
    }
  }

  /** Decoding what `Encode` writes gives back the binary string. */
  lemma AtobEncode(s: JsString)
    requires IsBinaryString(s)
    ensures Atob(Encode(s)) == Some(s)
  {
    var v := EncodeSextets(s);
    var e := Encode(s);
    EncodedLengthMod(|s|);
    forall i | 0 <= i < |e| ensures !IsAsciiWhitespace(e[i]) {
      if i < |v| {
        DigitsInAlphabet(v, i);
        assert e[i] == Digits(v)[i];
      }
    }
    NoWhitespaceUnchanged(e);
    StripEncodePadding(s);
    DecodeEncodeSextets(s);
  }
}
