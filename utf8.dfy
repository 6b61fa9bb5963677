/** UTF-8 encoding of Rust strings (RFC 3629). Rust's `str::len` and `as_bytes` see
    a string through this encoding. */
module Utf8 {
  import opened Common

  predicate IsAscii(c: char) {
    c as int < 0x80
  }

  /** The bytes of one Unicode scalar value. */
  function EncodeChar(c: char): (b: Bytes)
    ensures 1 <= |b| <= 4
    ensures |b| == 1 <==> IsAscii(c)
    ensures IsAscii(c) ==> b == [c as int]
  {
    var v := c as int;
    if v < 0x80 then [v]
    else if v < 0x800 then [0xC0 + v / 64, 0x80 + v % 64]
    else if v < 0x1_0000 then [0xE0 + v / 4096, 0x80 + (v / 64) % 64, 0x80 + v % 64]
    else [0xF0 + v / 262144, 0x80 + (v / 4096) % 64, 0x80 + (v / 64) % 64, 0x80 + v % 64]
  }

  /** `str::as_bytes`. */
  function Encode(s: string): (b: Bytes)
    ensures |b| >= |s|
  {
    if s == [] then [] else EncodeChar(s[0]) + Encode(s[1..])
  }

  /** `str::len`: the length in bytes. */
  function ByteLength(s: string): nat {
    |Encode(s)|
  }

  /** On ASCII text the byte view is the character view. */
  lemma {:induction false} EncodeAscii(s: string)
    requires forall i :: 0 <= i < |s| ==> IsAscii(s[i])
    ensures Encode(s) == seq(|s|, i requires 0 <= i < |s| => s[i] as int)
    ensures ByteLength(s) == |s|
  {
    if s != [] {
      EncodeAscii(s[1..]);
    }
  }

  /** A string with a character outside ASCII is longer in bytes than in characters. */
  lemma {:induction false} NonAsciiLonger(s: string, k: nat)
    requires k < |s| && !IsAscii(s[k])
    ensures ByteLength(s) > |s|
  {
    if k > 0 {
      NonAsciiLonger(s[1..], k - 1);
    }
  }

  lemma {:induction false} EncodeConcat(s: string, t: string)
    ensures Encode(s + t) == Encode(s) + Encode(t)
  {
    if s == [] {
      assert s + t == t;
    } else {
      var c := EncodeChar(s[0]);
      assert (s + t)[0] == s[0] && (s + t)[1..] == s[1..] + t;
      assert Encode(s + t) == c + Encode(s[1..] + t);
      EncodeConcat(s[1..], t);
      assert c + (Encode(s[1..]) + Encode(t)) == (c + Encode(s[1..])) + Encode(t);
    }
  }

  predicate IsContinuation(x: int) {
    0x80 <= x < 0xC0
  }

  /** The byte at `i`, or 0 (never a continuation byte) past the end. */
  function At(b: Bytes, i: nat): int {
    if i < |b| then b[i] else 0
  }

  /** One step of `String::from_utf8_lossy`: the length of the next well-formed
      character or of the maximal prefix of one that breaks off, and the character
      (None for the broken prefix, which reads as U+FFFD). The second-byte ranges are
      those of RFC 3629 section 4, which exclude overlong forms, surrogates and
      values above U+10FFFF. */
  function NextChunk(b: Bytes): (r: (nat, Option<char>))
    requires |b| > 0
    ensures 1 <= r.0 <= |b| && r.0 <= 4
  {
    var b0, b1, b2, b3 := b[0], At(b, 1), At(b, 2), At(b, 3);
    if b0 < 0x80 then (1, Some(b0 as char))
    else if 0xC2 <= b0 <= 0xDF then
      if IsContinuation(b1) then (2, Some(((b0 - 0xC0) * 64 + (b1 - 0x80)) as char)) else (1, None)
    else if 0xE0 <= b0 <= 0xEF then
      if !((b0 == 0xE0 && 0xA0 <= b1 < 0xC0) || (0xE1 <= b0 <= 0xEC && IsContinuation(b1)) ||
           (b0 == 0xED && 0x80 <= b1 < 0xA0) || (0xEE <= b0 <= 0xEF && IsContinuation(b1))) then (1, None)
      else if !IsContinuation(b2) then (2, None)
      else (3, Some(((b0 - 0xE0) * 4096 + (b1 - 0x80) * 64 + (b2 - 0x80)) as char))
    else if 0xF0 <= b0 <= 0xF4 then
      if !((b0 == 0xF0 && 0x90 <= b1 < 0xC0) || (0xF1 <= b0 <= 0xF3 && IsContinuation(b1)) ||
           (b0 == 0xF4 && 0x80 <= b1 < 0x90)) then (1, None)
      else if !IsContinuation(b2) then (2, None)
      else if !IsContinuation(b3) then (3, None)
      else (4, Some(((b0 - 0xF0) * 262144 + (b1 - 0x80) * 4096 + (b2 - 0x80) * 64 + (b3 - 0x80)) as char))
    else (1, None)
  }

  const Replacement: char := '\U{FFFD}'

  /** `String::from_utf8_lossy`. */
  function DecodeLossy(b: Bytes): string
    decreases |b|
  {
    if b == [] then []
    else
      var (n, c) := NextChunk(b);
      [if c.Some? then c.value else Replacement] + DecodeLossy(b[n..])
  }

  lemma TwoByteForm(v: int)
    requires 0x80 <= v < 0x800
    ensures var b0, b1 := 0xC0 + v / 64, 0x80 + v % 64;
      0xC2 <= b0 <= 0xDF && IsContinuation(b1) && (b0 - 0xC0) * 64 + (b1 - 0x80) == v
  {
  }

  lemma ThreeByteForm(v: int)
    requires 0x800 <= v < 0x1_0000
    ensures var b0, b1, b2 := 0xE0 + v / 4096, 0x80 + (v / 64) % 64, 0x80 + v % 64;
      0xE0 <= b0 <= 0xEF && IsContinuation(b1) && IsContinuation(b2) &&
      (b0 == 0xE0 ==> b1 >= 0xA0) && (b0 == 0xED && v < 0xD800 ==> b1 < 0xA0) && (b0 == 0xED ==> v < 0xE000) &&
      (b0 - 0xE0) * 4096 + (b1 - 0x80) * 64 + (b2 - 0x80) == v
  {
    var q, r := v / 4096, v % 4096;
    var r1, r2 := r / 64, r % 64;
    DivMod(v, 4096, q, r);
    DivMod(r, 64, r1, r2);
    DivMod(v, 64, q * 64 + r1, r2);
    DivMod(v / 64, 64, q, r1);
  }

  lemma DivMod(v: int, d: int, q: int, r: int)
    requires d > 0 && 0 <= r < d && v == q * d + r
    ensures v / d == q && v % d == r
  {
    var q', r' := v / d, v % d;
    assert (q - q') * d == r' - r;
    if q > q' {
      MulAtLeast(q - q', d);
    } else if q < q' {
      MulAtLeast(q' - q, d);
    }
  }

  lemma MulAtLeast(k: int, d: int)
    requires k >= 1 && d > 0
    ensures k * d >= d
  {
    assert k * d == (k - 1) * d + d;
    assert (k - 1) * d >= 0;
  }

  lemma FourByteForm(v: int)
    requires 0x1_0000 <= v < 0x11_0000
    ensures var b0, b1, b2, b3 := 0xF0 + v / 262144, 0x80 + (v / 4096) % 64, 0x80 + (v / 64) % 64, 0x80 + v % 64;
      0xF0 <= b0 <= 0xF4 && IsContinuation(b1) && IsContinuation(b2) && IsContinuation(b3) &&
      (b0 == 0xF0 ==> b1 >= 0x90) && (b0 == 0xF4 ==> b1 < 0x90) &&
      (b0 - 0xF0) * 262144 + (b1 - 0x80) * 4096 + (b2 - 0x80) * 64 + (b3 - 0x80) == v
  {
    var x0, x1, x2, x3 := v / 262144, (v / 4096) % 64, (v / 64) % 64, v % 64;
    var t := v / 64;
    DivMod(v, 64, t, x3);
    var u := t / 64;
    DivMod(t, 64, u, x2);
    DivMod(u, 64, u / 64, x1);
    assert v == u * 4096 + x2 * 64 + x3;
    assert u == (u / 64) * 64 + x1;
    DivMod(v, 4096, u, x2 * 64 + x3);
    DivMod(v, 262144, u / 64, x1 * 4096 + x2 * 64 + x3);
  }

  /** The lossy decoder reads the encoding of a character back as that character. */
  lemma NextChunkOfEncoded(c: char, rest: Bytes)
    ensures NextChunk(EncodeChar(c) + rest) == (|EncodeChar(c)|, Some(c))
  {
    var v := c as int;
    var b := EncodeChar(c) + rest;
    if v < 0x80 {
    } else if v < 0x800 {
      TwoByteForm(v);
    } else if v < 0x1_0000 {
      ThreeByteForm(v);
      assert v < 0xD800 || v >= 0xE000;
    } else {
      FourByteForm(v);
    }
  }

  /** Valid UTF-8 decodes without replacement: lossy decoding undoes encoding. */
  lemma {:induction false} DecodeLossyEncode(s: string)
    ensures DecodeLossy(Encode(s)) == s
  {
    if s != [] {
      var b := Encode(s);
      NextChunkOfEncoded(s[0], Encode(s[1..]));
      assert b[|EncodeChar(s[0])|..] == Encode(s[1..]);
      DecodeLossyEncode(s[1..]);
    }
  }
}
