/** The URL- and filename-safe base64 alphabet of RFC 4648 section 5, without the
    padding of section 3.2, as the `BASE64_URL_SAFE_NO_PAD` engine of the `base64`
    crate encodes and decodes it: decoding refuses padding, characters outside the
    alphabet, a final group of one character, and non-zero bits left over in the
    last character of a short final group. */
module Base64Url {
  import opened Common

  /** The character for a 6-bit value. */
  function Sextet(v: int): (c: char)
    requires 0 <= v < 64
  {
    if v < 26 then ('A' as int + v) as char
    else if v < 52 then ('a' as int + (v - 26)) as char
    else if v < 62 then ('0' as int + (v - 52)) as char
    else if v == 62 then '-'
    else '_'
  }

  /** The 6-bit value of a character of the alphabet, None for any other character. */
  function SextetValue(c: char): (r: Option<int>)
    ensures r.Some? ==> 0 <= r.value < 64 && Sextet(r.value) == c
  {
    if 'A' <= c <= 'Z' then Some(c as int - 'A' as int)
    else if 'a' <= c <= 'z' then Some(c as int - 'a' as int + 26)
    else if '0' <= c <= '9' then Some(c as int - '0' as int + 52)
    else if c == '-' then Some(62)
    else if c == '_' then Some(63)
    else None
  }

  predicate InAlphabet(c: char) {
    SextetValue(c).Some?
  }

  lemma SextetRoundTrip(v: int)
    requires 0 <= v < 64
    ensures SextetValue(Sextet(v)) == Some(v)
  {
  }

  /** Number of characters the unpadded encoding of `n` bytes has. */
  function EncodedLength(n: nat): nat {
    (4 * n + 2) / 3
  }

  /** Three bytes as four characters. */
  function EncodeTriple(b0: Byte, b1: Byte, b2: Byte): (s: string)
    ensures |s| == 4
  {
    [Sextet(b0 / 4), Sextet((b0 % 4) * 16 + b1 / 16), Sextet((b1 % 16) * 4 + b2 / 64), Sextet(b2 % 64)]
  }

  /** The unpadded encoding. */
  function Encode(b: Bytes): (s: string)
    ensures |s| == EncodedLength(|b|)
    ensures forall i :: 0 <= i < |s| ==> InAlphabet(s[i])
  {
    if |b| >= 3 then
      var rest := Encode(b[3..]);
      SextetRoundTrip(b[0] / 4);
      SextetRoundTrip((b[0] % 4) * 16 + b[1] / 16);
      SextetRoundTrip((b[1] % 16) * 4 + b[2] / 64);
      SextetRoundTrip(b[2] % 64);
      EncodeTriple(b[0], b[1], b[2]) + rest
    else if |b| == 2 then
      SextetRoundTrip(b[0] / 4);
      SextetRoundTrip((b[0] % 4) * 16 + b[1] / 16);
      SextetRoundTrip((b[1] % 16) * 4);
      [Sextet(b[0] / 4), Sextet((b[0] % 4) * 16 + b[1] / 16), Sextet((b[1] % 16) * 4)]
    else if |b| == 1 then
      SextetRoundTrip(b[0] / 4);
      SextetRoundTrip((b[0] % 4) * 16);
      [Sextet(b[0] / 4), Sextet((b[0] % 4) * 16)]
    else
      []
  }

  /** Four 6-bit values as three bytes. */
  function DecodeQuad(c0: int, c1: int, c2: int, c3: int): (b: Bytes)
    requires 0 <= c0 < 64 && 0 <= c1 < 64 && 0 <= c2 < 64 && 0 <= c3 < 64
    ensures |b| == 3
  {
    [c0 * 4 + c1 / 16, (c1 % 16) * 16 + c2 / 4, (c2 % 4) * 64 + c3]
  }

  /** The unpadded decoding; None for every input the crate refuses. */
  function Decode(s: string): (r: Option<Bytes>)
    ensures r.Some? ==> |s| % 4 != 1 && |r.value| == 3 * |s| / 4
    ensures r.Some? ==> forall i :: 0 <= i < |s| ==> InAlphabet(s[i])
    decreases |s|
  {
    if |s| == 0 then Some([])
    else if |s| == 1 then None
    else if |s| == 2 then
      var v0, v1 := SextetValue(s[0]), SextetValue(s[1]);
      if v0.Some? && v1.Some? && v1.value % 16 == 0 then
        Some([v0.value * 4 + v1.value / 16])
      else None
    else if |s| == 3 then
      var v0, v1, v2 := SextetValue(s[0]), SextetValue(s[1]), SextetValue(s[2]);
      if v0.Some? && v1.Some? && v2.Some? && v2.value % 4 == 0 then
        Some([v0.value * 4 + v1.value / 16, (v1.value % 16) * 16 + v2.value / 4])
      else None
    else
      var v0, v1, v2, v3 := SextetValue(s[0]), SextetValue(s[1]), SextetValue(s[2]), SextetValue(s[3]);
      var rest := Decode(s[4..]);
      if v0.Some? && v1.Some? && v2.Some? && v3.Some? && rest.Some? then
        DecodedLengthStep(|s|);
        assert forall i :: 4 <= i < |s| ==> s[i] == s[4..][i - 4];
        Some(DecodeQuad(v0.value, v1.value, v2.value, v3.value) + rest.value)
      else None
  }

  /** A group of four characters adds three bytes to the decoded length. */
  lemma DecodedLengthStep(n: int)
    requires n >= 4
    ensures (n - 4) % 4 == n % 4 && 3 + 3 * (n - 4) / 4 == 3 * n / 4
  {
  }

  /** Splitting three bytes into four sextets and joining them back is the identity. */
  lemma TripleArithmetic(b0: Byte, b1: Byte, b2: Byte)
    ensures DecodeQuad(b0 / 4, (b0 % 4) * 16 + b1 / 16, (b1 % 16) * 4 + b2 / 64, b2 % 64) == [b0, b1, b2]
  {
    var c1, c2 := (b0 % 4) * 16 + b1 / 16, (b1 % 16) * 4 + b2 / 64;
    assert c1 / 16 == b0 % 4 && c1 % 16 == b1 / 16;
    assert c2 / 4 == b1 % 16 && c2 % 4 == b2 / 64;
  }

  /** Joining four sextets into three bytes and splitting them again is the identity. */
  lemma QuadArithmetic(c0: int, c1: int, c2: int, c3: int)
    requires 0 <= c0 < 64 && 0 <= c1 < 64 && 0 <= c2 < 64 && 0 <= c3 < 64
    ensures var b := DecodeQuad(c0, c1, c2, c3);
      b[0] / 4 == c0 && (b[0] % 4) * 16 + b[1] / 16 == c1 && (b[1] % 16) * 4 + b[2] / 64 == c2 && b[2] % 64 == c3
  {
    var b0, b1, b2 := c0 * 4 + c1 / 16, (c1 % 16) * 16 + c2 / 4, (c2 % 4) * 64 + c3;
    assert b0 / 4 == c0 && b0 % 4 == c1 / 16;
    assert b1 / 16 == c1 % 16 && b1 % 16 == c2 / 4;
    assert b2 / 64 == c2 % 4 && b2 % 64 == c3;
  }

  /** A full group of three bytes decodes back in front of whatever follows it. */
  lemma DecodeTriple(b0: Byte, b1: Byte, b2: Byte, rest: string)
    requires Decode(rest).Some?
    ensures Decode(EncodeTriple(b0, b1, b2) + rest) == Some([b0, b1, b2] + Decode(rest).value)
  {
    var s := EncodeTriple(b0, b1, b2) + rest;
    SextetRoundTrip(b0 / 4);
    SextetRoundTrip((b0 % 4) * 16 + b1 / 16);
    SextetRoundTrip((b1 % 16) * 4 + b2 / 64);
    SextetRoundTrip(b2 % 64);
    TripleArithmetic(b0, b1, b2);
    assert s[4..] == rest;
  }

  /** The two-byte tail decodes back. */
  lemma DecodePair(b0: Byte, b1: Byte)
    ensures Decode(Encode([b0, b1])) == Some([b0, b1])
  {
    var c1, c2 := (b0 % 4) * 16 + b1 / 16, (b1 % 16) * 4;
    SextetRoundTrip(b0 / 4);
    SextetRoundTrip(c1);
    SextetRoundTrip(c2);
    assert c1 / 16 == b0 % 4 && c1 % 16 == b1 / 16;
    assert c2 / 4 == b1 % 16 && c2 % 4 == 0;
  }

  /** The one-byte tail decodes back. */
  lemma DecodeSingle(b0: Byte)
    ensures Decode(Encode([b0])) == Some([b0])
  {
    var c1 := (b0 % 4) * 16;
    SextetRoundTrip(b0 / 4);
    SextetRoundTrip(c1);
    assert c1 / 16 == b0 % 4 && c1 % 16 == 0;
  }

  /** Decoding undoes encoding (RFC 4648: the encoding is reversible). */
  lemma {:induction false} DecodeEncode(b: Bytes)
    ensures Decode(Encode(b)) == Some(b)
    decreases |b|
  {
    if |b| >= 3 {
      DecodeEncode(b[3..]);
      EncodeFront(b);
      DecodeTriple(b[0], b[1], b[2], Encode(b[3..]));
      assert b == [b[0], b[1], b[2]] + b[3..];
    } else if |b| == 2 {
      DecodePair(b[0], b[1]);
      assert b == [b[0], b[1]];
    } else if |b| == 1 {
      DecodeSingle(b[0]);
      assert b == [b[0]];
    }
  }

  /** The encoding of the bytes of one accepted group of four characters. */
  lemma QuadCanonical(s: string)
    requires |s| >= 4 && InAlphabet(s[0]) && InAlphabet(s[1]) && InAlphabet(s[2]) && InAlphabet(s[3])
    ensures var b := DecodeQuad(SextetValue(s[0]).value, SextetValue(s[1]).value, SextetValue(s[2]).value, SextetValue(s[3]).value);
      EncodeTriple(b[0], b[1], b[2]) == s[..4]
  {
    QuadArithmetic(SextetValue(s[0]).value, SextetValue(s[1]).value, SextetValue(s[2]).value, SextetValue(s[3]).value);
  }

  /** The two-byte tail: three characters whose last one carries no stray bits. */
  lemma PairCanonical(c0: int, c1: int, c2: int)
    requires 0 <= c0 < 64 && 0 <= c1 < 64 && 0 <= c2 < 64 && c2 % 4 == 0
    ensures var b0, b1 := c0 * 4 + c1 / 16, (c1 % 16) * 16 + c2 / 4;
      b0 / 4 == c0 && (b0 % 4) * 16 + b1 / 16 == c1 && (b1 % 16) * 4 == c2
  {
    var b0, b1 := c0 * 4 + c1 / 16, (c1 % 16) * 16 + c2 / 4;
    assert b0 / 4 == c0 && b0 % 4 == c1 / 16;
    assert b1 / 16 == c1 % 16 && b1 % 16 == c2 / 4;
  }

  /** The one-byte tail: two characters whose last one carries no stray bits. */
  lemma SingleCanonical(c0: int, c1: int)
    requires 0 <= c0 < 64 && 0 <= c1 < 64 && c1 % 16 == 0
    ensures var b0 := c0 * 4 + c1 / 16;
      b0 / 4 == c0 && (b0 % 4) * 16 == c1
  {
  }

  /** Encoding three or more bytes: the first group, then the rest. */
  lemma EncodeFront(b: Bytes)
    requires |b| >= 3
    ensures Encode(b) == EncodeTriple(b[0], b[1], b[2]) + Encode(b[3..])
  {
  }

  /** An accepted string of four or more characters decodes to its first
      group's three bytes followed by the decoding of the rest. */
  lemma DecodeFront(s: string)
    requires |s| >= 4 && Decode(s).Some?
    ensures Decode(s[4..]).Some?
    ensures Decode(s).value == DecodeQuad(SextetValue(s[0]).value, SextetValue(s[1]).value,
                                          SextetValue(s[2]).value, SextetValue(s[3]).value)
                               + Decode(s[4..]).value
  {
  }

  /** One accepted group of four characters encodes back, given that the rest
      of the string does. */
  lemma EncodeDecodeGroup(s: string)
    requires |s| >= 4 && Decode(s).Some?
    requires Decode(s[4..]).Some? && Encode(Decode(s[4..]).value) == s[4..]
    ensures Encode(Decode(s).value) == s
  {
    var b := Decode(s).value;
    DecodeFront(s);
    var q := DecodeQuad(SextetValue(s[0]).value, SextetValue(s[1]).value, SextetValue(s[2]).value, SextetValue(s[3]).value);
    var rest := Decode(s[4..]).value;
    assert b[..3] == q && b[3..] == rest;
    assert EncodeTriple(b[0], b[1], b[2]) == s[..4] by {
      assert b[0] == q[0] && b[1] == q[1] && b[2] == q[2];
      QuadCanonical(s);
    }
    EncodeFront(b);
    assert s == s[..4] + s[4..];
  }

  /** An accepted tail of three characters encodes back. */
  lemma EncodeDecodePair(s: string)
    requires |s| == 3 && Decode(s).Some?
    ensures Encode(Decode(s).value) == s
  {
    var c0, c1, c2 := SextetValue(s[0]).value, SextetValue(s[1]).value, SextetValue(s[2]).value;
    var b0: Byte, b1: Byte := c0 * 4 + c1 / 16, (c1 % 16) * 16 + c2 / 4;
    assert Decode(s) == Some([b0, b1]);
    PairCanonical(c0, c1, c2);
    EncodePairForm(b0, b1);
    assert s == [Sextet(c0), Sextet(c1), Sextet(c2)];
  }

  /** The encoding of a two-byte tail. */
  lemma EncodePairForm(b0: Byte, b1: Byte)
    ensures Encode([b0, b1]) == [Sextet(b0 / 4), Sextet((b0 % 4) * 16 + b1 / 16), Sextet((b1 % 16) * 4)]
  {
  }

  /** An accepted tail of two characters encodes back. */
  lemma EncodeDecodeSingle(s: string)
    requires |s| == 2 && Decode(s).Some?
    ensures Encode(Decode(s).value) == s
  {
    SingleCanonical(SextetValue(s[0]).value, SextetValue(s[1]).value);
  }

  /** The decoder accepts only canonical encodings: every accepted string is the
      encoding of what it decodes to. */
  lemma {:induction false} EncodeDecode(s: string)
    requires Decode(s).Some?
    ensures Encode(Decode(s).value) == s
    decreases |s|
  {
    if |s| >= 4 {
      DecodeFront(s);
      EncodeDecode(s[4..]);
      EncodeDecodeGroup(s);
    } else if |s| == 3 {
      EncodeDecodePair(s);
    } else if |s| == 2 {
      EncodeDecodeSingle(s);
    }
  }

  /** Two different accepted strings never decode to the same bytes. */
  lemma DecodeInjective(s: string, t: string)
    requires Decode(s).Some? && Decode(s) == Decode(t)
    ensures s == t
  {
    EncodeDecode(s);
    EncodeDecode(t);
  }
}
