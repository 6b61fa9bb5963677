/** The `application/x-www-form-urlencoded` serializer of the WHATWG URL Standard
    (section 5.2), as the `form_urlencoded` crate implements it, and the parsing
    that undoes it. Names and values are UTF-8 encoded; ASCII alphanumerics and
    `*-._` stand for themselves, a space becomes `+`, and every other byte becomes
    `%` and two upper-case hexadecimal digits. */
module FormUrlEncoded {
  import opened Common
  import Utf8

  /** Bytes that the serializer leaves as they are. */
  predicate IsUnreserved(x: Byte) {
    x == 0x2A || x == 0x2D || x == 0x2E || x == 0x5F ||
    (0x30 <= x <= 0x39) || (0x41 <= x <= 0x5A) || (0x61 <= x <= 0x7A)
  }

  /** An upper-case hexadecimal digit. */
  function HexDigit(d: int): (c: char)
    requires 0 <= d < 16
    ensures IsHexDigit(c) && HexValue(c) == d
  {
    if d < 10 then ('0' as int + d) as char else ('A' as int + d - 10) as char
  }

  predicate IsHexDigit(c: char) {
    '0' <= c <= '9' || 'A' <= c <= 'F' || 'a' <= c <= 'f'
  }

  function HexValue(c: char): (v: int)
    requires IsHexDigit(c)
    ensures 0 <= v < 16
  {
    if '0' <= c <= '9' then c as int - '0' as int
    else if 'A' <= c <= 'F' then c as int - 'A' as int + 10
    else c as int - 'a' as int + 10
  }

  /** The serialization of one byte. */
  function SerializeByte(x: Byte): (s: string)
    ensures 1 <= |s| <= 3
    ensures forall i :: 0 <= i < |s| ==> s[i] != '&' && s[i] != '='
  {
    if IsUnreserved(x) then [x as char]
    else if x == 0x20 then "+"
    else ['%', HexDigit(x / 16), HexDigit(x % 16)]
  }

  /** `byte_serialize`. */
  function ByteSerialize(b: Bytes): (s: string)
    ensures forall i :: 0 <= i < |s| ==> s[i] != '&' && s[i] != '='
  {
    if b == [] then "" else SerializeByte(b[0]) + ByteSerialize(b[1..])
  }

  /** The text of one `name=value` pair. */
  function PairText(name: string, value: string): (s: string)
    ensures |s| > 0
  {
    ByteSerialize(Utf8.Encode(name)) + "=" + ByteSerialize(Utf8.Encode(value))
  }

  /** The pairs joined by `&`, in order. */
  function Query(pairs: seq<(string, string)>): (q: string)
    ensures q == "" <==> pairs == []
  {
    if pairs == [] then ""
    else
      var init, last := pairs[..|pairs| - 1], pairs[|pairs| - 1];
      Query(init) + (if init == [] then "" else "&") + PairText(last.0, last.1)
  }

  /** `form_urlencoded::Serializer` over a `String` that starts empty: pairs
      are appended to the target, separated by `&`. No other member drives
      this class: it shows that appending pairs one by one builds exactly
      `Query` of the pairs (its `Valid`), and the callers that build a query
      (the authorization URL and the login redirect) use `Query` directly. */
  class Serializer {
    var target: string
    /** The pairs appended so far. */
    ghost var pairs: seq<(string, string)>

    /** The target is the serialization of the pairs appended. */
    ghost predicate Valid()
      reads this
    {
      target == Query(pairs)
    }

    constructor()
      ensures Valid() && target == "" && pairs == []
    {
      target := "";
      pairs := [];
    }

    /** `append_pair`. */
    method AppendPair(name: string, value: string)
      requires Valid()
      modifies this
      ensures Valid() && pairs == old(pairs) + [(name, value)]
      ensures target == old(target) + (if old(target) == "" then "" else "&") + PairText(name, value)
    {
      QueryAppend(pairs, name, value);
      if target != "" {
        target := target + "&";
      }
      target := target + ByteSerialize(Utf8.Encode(name)) + "=" + ByteSerialize(Utf8.Encode(value));
      pairs := pairs + [(name, value)];
    }

    /** `finish`. */
    method Finish() returns (s: string)
      requires Valid()
      ensures s == target && s == Query(pairs)
    {
      s := target;
    }
  }

  /** Appending a pair to the serialization of some pairs serializes them all. */
  lemma QueryAppend(pairs: seq<(string, string)>, name: string, value: string)
    ensures Query(pairs + [(name, value)]) ==
      Query(pairs) + (if Query(pairs) == "" then "" else "&") + PairText(name, value)
  {
    assert (pairs + [(name, value)])[..|pairs|] == pairs;
  }

  // Parsing, as `form_urlencoded::parse` does it for the text produced above.

  /** Percent-decoding with `+` read as a space. */
  function Unescape(s: string): Bytes
    decreases |s|
  {
    if s == [] then []
    else if s[0] == '+' then [0x20] + Unescape(s[1..])
    else if s[0] == '%' && |s| >= 3 && IsHexDigit(s[1]) && IsHexDigit(s[2]) then
      [HexValue(s[1]) * 16 + HexValue(s[2])] + Unescape(s[3..])
    else Utf8.EncodeChar(s[0]) + Unescape(s[1..])
  }

  lemma UnescapeByte(x: Byte, rest: string)
    ensures Unescape(SerializeByte(x) + rest) == [x] + Unescape(rest)
  {
    var s := SerializeByte(x) + rest;
    if IsUnreserved(x) {
      assert s[0] == x as char && s[1..] == rest;
    } else if x == 0x20 {
      assert s[1..] == rest;
    } else {
      assert s[3..] == rest;
      assert x == (x / 16) * 16 + x % 16;
    }
  }

  /** Parsing undoes serialization: the bytes come back unchanged. */
  lemma {:induction false} UnescapeSerialize(b: Bytes)
    ensures Unescape(ByteSerialize(b)) == b
  {
    if b != [] {
      UnescapeByte(b[0], ByteSerialize(b[1..]));
      UnescapeSerialize(b[1..]);
    }
  }

  /** The pieces of `s` between the occurrences of `sep`, in order. */
  function SplitOn(s: string, sep: char): (r: seq<string>)
    ensures |r| >= 1
  {
    if s == [] then [""]
    else
      var r := SplitOn(s[..|s| - 1], sep);
      if s[|s| - 1] == sep then r + [""] else r[..|r| - 1] + [r[|r| - 1] + [s[|s| - 1]]]
  }

  /** A text free of the separator is a single piece. */
  lemma {:induction false} SplitOnNone(s: string, sep: char)
    requires forall i :: 0 <= i < |s| ==> s[i] != sep
    ensures SplitOn(s, sep) == [s]
  {
    if s != [] {
      SplitOnNone(s[..|s| - 1], sep);
      assert s[..|s| - 1] + [s[|s| - 1]] == s;
    }
  }

  /** Splitting after a separator followed by a piece free of it adds that piece. */
  lemma {:induction false} SplitOnAppend(a: string, sep: char, b: string)
    requires forall i :: 0 <= i < |b| ==> b[i] != sep
    ensures SplitOn(a + [sep] + b, sep) == SplitOn(a, sep) + [b]
  {
    if b == [] {
      assert (a + [sep] + b)[..|a|] == a;
    } else {
      var b' := b[..|b| - 1];
      assert (a + [sep] + b)[..|a + [sep] + b| - 1] == a + [sep] + b';
      SplitOnAppend(a, sep, b');
      assert b' + [b[|b| - 1]] == b;
    }
  }

  /** The text before the first `c`, and the text after it (empty if none). */
  function Before(s: string, c: char): string {
    if s == [] || s[0] == c then "" else [s[0]] + Before(s[1..], c)
  }

  function After(s: string, c: char): string {
    if s == [] then "" else if s[0] == c then s[1..] else After(s[1..], c)
  }

  lemma {:induction false} SplitFirst(a: string, c: char, b: string)
    requires forall i :: 0 <= i < |a| ==> a[i] != c
    ensures Before(a + [c] + b, c) == a && After(a + [c] + b, c) == b
  {
    if a != [] {
      assert (a + [c] + b)[1..] == a[1..] + [c] + b;
      SplitFirst(a[1..], c, b);
    }
  }

  /** `form_urlencoded::parse`: the query split at `&`, each piece at its first
      `=`, both sides decoded. */
  function ParsePieces(pieces: seq<string>): seq<(Bytes, Bytes)> {
    if pieces == [] then []
    else
      var init, last := pieces[..|pieces| - 1], pieces[|pieces| - 1];
      ParsePieces(init) + [(Unescape(Before(last, '=')), Unescape(After(last, '=')))]
  }

  function Parse(q: string): seq<(Bytes, Bytes)> {
    if q == "" then [] else ParsePieces(SplitOn(q, '&'))
  }

  /** The pairs as UTF-8 bytes. */
  function EncodedPairs(pairs: seq<(string, string)>): (r: seq<(Bytes, Bytes)>)
    ensures |r| == |pairs|
    ensures forall i :: 0 <= i < |pairs| ==> r[i] == (Utf8.Encode(pairs[i].0), Utf8.Encode(pairs[i].1))
  {
    if pairs == [] then []
    else EncodedPairs(pairs[..|pairs| - 1]) + [(Utf8.Encode(pairs[|pairs| - 1].0), Utf8.Encode(pairs[|pairs| - 1].1))]
  }

  lemma PairPiece(name: string, value: string)
    ensures Unescape(Before(PairText(name, value), '=')) == Utf8.Encode(name)
    ensures Unescape(After(PairText(name, value), '=')) == Utf8.Encode(value)
  {
    SplitFirst(ByteSerialize(Utf8.Encode(name)), '=', ByteSerialize(Utf8.Encode(value)));
    UnescapeSerialize(Utf8.Encode(name));
    UnescapeSerialize(Utf8.Encode(value));
  }

  /** The texts of the pairs, in order. */
  function Texts(pairs: seq<(string, string)>): seq<string> {
    if pairs == [] then [] else Texts(pairs[..|pairs| - 1]) + [PairText(pairs[|pairs| - 1].0, pairs[|pairs| - 1].1)]
  }

  lemma NoAmpersand(name: string, value: string)
    ensures forall i :: 0 <= i < |PairText(name, value)| ==> PairText(name, value)[i] != '&'
  {
    var a, b := ByteSerialize(Utf8.Encode(name)), ByteSerialize(Utf8.Encode(value));
    assert PairText(name, value) == a + "=" + b;
  }

  /** Splitting a serialized query at `&` gives back the pair texts. */
  lemma {:induction false} QuerySplit(pairs: seq<(string, string)>)
    requires pairs != []
    ensures SplitOn(Query(pairs), '&') == Texts(pairs)
  {
    var init, last := pairs[..|pairs| - 1], pairs[|pairs| - 1];
    var text := PairText(last.0, last.1);
    NoAmpersand(last.0, last.1);
    assert Texts(pairs) == Texts(init) + [text];
    if init == [] {
      assert Query(pairs) == text;
      SplitOnNone(text, '&');
    } else {
      assert Query(pairs) == Query(init) + ['&'] + text;
      QuerySplit(init);
      SplitOnAppend(Query(init), '&', text);
    }
  }

  lemma {:induction false} ParseTexts(pairs: seq<(string, string)>)
    ensures ParsePieces(Texts(pairs)) == EncodedPairs(pairs)
  {
    if pairs != [] {
      var init, last := pairs[..|pairs| - 1], pairs[|pairs| - 1];
      ParseTexts(init);
      PairPiece(last.0, last.1);
      var t := Texts(pairs);
      assert t[..|t| - 1] == Texts(init);
    }
  }

  /** Every pair of a serialized query parses back, in order, to its name and
      value. */
  lemma ParseQuery(pairs: seq<(string, string)>)
    ensures Parse(Query(pairs)) == EncodedPairs(pairs)
  {
    if pairs != [] {
      QuerySplit(pairs);
      ParseTexts(pairs);
    }
  }
}
