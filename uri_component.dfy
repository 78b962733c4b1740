/**
 * ECMAScript `encodeURIComponent`: the percent-encoding of section 2.1 of
 * RFC 3986 applied to the UTF-8 bytes of every character outside the
 * unreserved set of section 2.3 of RFC 3986 and the five marks
 * `! * ' ( )`. Hex digits are upper case. `Decode` is `decodeURIComponent`
 * as the receiving side applies it, and `DecodeEncode` is the round trip.
 */
module UriComponent {
  import opened Wrappers

  /** The characters `encodeURIComponent` leaves as they are. */
  predicate IsUnescaped(c: char) {
    ('A' <= c <= 'Z') || ('a' <= c <= 'z') || ('0' <= c <= '9') ||
    c == '-' || c == '_' || c == '.' || c == '~' ||
    c == '!' || c == '*' || c == '\'' || c == '(' || c == ')'
  }

  predicate IsHexDigit(c: char) {
    ('0' <= c <= '9') || ('A' <= c <= 'F') || ('a' <= c <= 'f')
  }

  function HexDigit(d: nat): (c: char)
    requires d < 16
    ensures IsHexDigit(c) && IsUnescaped(c)
  {
    if d < 10 then (('0' as int) + d) as char else (('A' as int) + d - 10) as char
  }

  function HexValue(c: char): (d: nat)
    requires IsHexDigit(c)
    ensures d < 16
  {
    if '0' <= c <= '9' then c as int - '0' as int
    else if 'A' <= c <= 'F' then c as int - 'A' as int + 10
    else c as int - 'a' as int + 10
  }

  lemma HexValueOfDigit(d: nat)
    requires d < 16
    ensures HexValue(HexDigit(d)) == d
  {
  }

  /** The UTF-8 encoding of one Unicode scalar value (RFC 3629). */
  function Utf8(c: char): (bytes: seq<nat>)
    ensures 1 <= |bytes| <= 4
    ensures forall k :: 0 <= k < |bytes| ==> bytes[k] < 256
  {
    var cp := c as int;
    var q1 := cp / 64;
    var q2 := q1 / 64;
    if cp < 0x80 then [cp]
    else if cp < 0x800 then [0xC0 + q1, 0x80 + cp % 64]
    else if cp < 0x10000 then [0xE0 + q2, 0x80 + q1 % 64, 0x80 + cp % 64]
    else [0xF0 + q2 / 64, 0x80 + q2 % 64, 0x80 + q1 % 64, 0x80 + cp % 64]
  }

  /** One byte as `%XY`. */
  function Triplet(b: nat): string
    requires b < 256
  {
    ['%', HexDigit(b / 16), HexDigit(b % 16)]
  }

  function EscapeBytes(bytes: seq<nat>): (r: string)
    requires forall k :: 0 <= k < |bytes| ==> bytes[k] < 256
    ensures |r| == 3 * |bytes|
    ensures forall i :: 0 <= i < |r| ==> IsUnescaped(r[i]) || r[i] == '%'
    decreases |bytes|
  {
    if bytes == [] then [] else Triplet(bytes[0]) + EscapeBytes(bytes[1..])
  }

  /**
   * One character: an unescaped character stands for itself, any other one
   * becomes the `%XY` triplets of its UTF-8 bytes.
   */
  function EncodeChar(c: char): (r: string)
    ensures IsUnescaped(c) ==> r == [c]
    ensures !IsUnescaped(c) ==> r == EscapeBytes(Utf8(c)) && 3 <= |r| <= 12 && r[0] == '%'
    ensures forall i :: 0 <= i < |r| ==> IsUnescaped(r[i]) || r[i] == '%'
  {
    if IsUnescaped(c) then [c] else EscapeBytes(Utf8(c))
  }

  /** `encodeURIComponent(s)`: every character it emits is unescaped or `%`. */
  function Encode(s: string): (r: string)
    ensures forall i :: 0 <= i < |r| ==> IsUnescaped(r[i]) || r[i] == '%'
    decreases |s|
  {
    if s == [] then [] else EncodeChar(s[0]) + Encode(s[1..])
  }

  /** Text made of unescaped characters only is sent as it is. */
  lemma {:induction false} EncodeKeepsUnescaped(s: string)
    requires forall i :: 0 <= i < |s| ==> IsUnescaped(s[i])
    ensures Encode(s) == s
    decreases |s|
  {
    if s != [] {
      EncodeKeepsUnescaped(s[1..]);
      assert s == [s[0]] + s[1..];
    }
  }

  /** Encoding works character by character: it distributes over concatenation. */
  lemma {:induction false} EncodeConcat(a: string, b: string)
    ensures Encode(a + b) == Encode(a) + Encode(b)
    decreases |a|
  {
    if a != [] {
      assert (a + b)[1..] == a[1..] + b;
      EncodeConcat(a[1..], b);
    } else {
      assert a + b == b;
    }
  }

  lemma EncodeCons(c: char, t: string)
    ensures Encode([c] + t) == EncodeChar(c) + Encode(t)
  {
    assert ([c] + t)[1..] == t;
  }

  /** Each character of the text is encoded in its place, by `EncodeChar`. */
  lemma EncodeAt(before: string, c: char, after: string)
    ensures Encode(before + [c] + after) == Encode(before) + EncodeChar(c) + Encode(after)
  {
    assert before + [c] + after == before + ([c] + after);
    EncodeConcat(before, [c] + after);
    EncodeCons(c, after);
  }

  /* ---------------------------------------------------------------------
   * decoding
   * ------------------------------------------------------------------- */

  /** The byte written as `%XY` at position `i` of `s`, if there is one. */
  function ByteAt(s: string, i: nat): (r: Option<nat>)
    ensures r.Some? ==> r.value < 256
  {
    if i + 3 <= |s| && s[i] == '%' && IsHexDigit(s[i + 1]) && IsHexDigit(s[i + 2])
    then Some(HexValue(s[i + 1]) * 16 + HexValue(s[i + 2]))
    else None
  }

  /** The payload of a UTF-8 continuation byte `10xxxxxx` at position `i`. */
  function ContinuationAt(s: string, i: nat): (r: Option<nat>)
    ensures r.Some? ==> r.value < 64
  {
    match ByteAt(s, i)
    case Some(b) => if 0x80 <= b < 0xC0 then Some(b - 0x80) else None
    case None => None
  }

  /**
   * The character whose code point is `cp`, with the number of characters
   * of `s` it took; refused when it is an overlong form, a surrogate or
   * beyond U+10FFFF, as `decodeURIComponent` refuses them.
   */
  function ScalarOf(cp: int, least: int, width: nat): Option<(char, nat)> {
    if 0 <= least <= cp < 0x11_0000 && !(0xD800 <= cp < 0xE000)
    then Some((cp as char, width))
    else None
  }

  /** Reads one character written as one to four `%XY` triplets. */
  function EscapedChar(s: string): (r: Option<(char, nat)>)
    ensures r.Some? ==> 3 <= r.value.1 <= |s|
  {
    match ByteAt(s, 0)
    case None => None
    case Some(b0) =>
      if b0 < 0x80 then Some((b0 as char, 3))
      else if 0xC0 <= b0 < 0xE0 then
        match ContinuationAt(s, 3)
        case None => None
        case Some(c1) => ScalarOf((b0 - 0xC0) * 64 + c1, 0x80, 6)
      else if 0xE0 <= b0 < 0xF0 then
        match (ContinuationAt(s, 3), ContinuationAt(s, 6))
        case (Some(c1), Some(c2)) => ScalarOf(((b0 - 0xE0) * 64 + c1) * 64 + c2, 0x800, 9)
        case _ => None
      else if 0xF0 <= b0 < 0xF8 then
        match (ContinuationAt(s, 3), ContinuationAt(s, 6), ContinuationAt(s, 9))
        case (Some(c1), Some(c2), Some(c3)) =>
          ScalarOf((((b0 - 0xF0) * 64 + c1) * 64 + c2) * 64 + c3, 0x10000, 12)
        case _ => None
      else None
  }

  function Prepend(c: char, r: Option<string>): Option<string> {
    match r
    case None => None
    case Some(t) => Some([c] + t)
  }

  /** `decodeURIComponent(s)`; `None` where it throws `URIError`. */
  function Decode(s: string): Option<string>
    decreases |s|
  {
    if s == [] then Some([])
    else if s[0] != '%' then Prepend(s[0], Decode(s[1..]))
    else
      match EscapedChar(s)
      case None => None
      case Some((c, width)) => Prepend(c, Decode(s[width..]))
  }

  /* ---------------------------------------------------------------------
   * the round trip
   * ------------------------------------------------------------------- */

  lemma {:induction false} EscapeBytesAt(bytes: seq<nat>, k: nat)
    requires forall j :: 0 <= j < |bytes| ==> bytes[j] < 256
    requires k < |bytes|
    ensures EscapeBytes(bytes)[3 * k..3 * k + 3] == Triplet(bytes[k])
    decreases k
  {
    if k > 0 {
      EscapeBytesAt(bytes[1..], k - 1);
      var rest := EscapeBytes(bytes[1..]);
      assert EscapeBytes(bytes)[3 * k..3 * k + 3] == rest[3 * (k - 1)..3 * (k - 1) + 3];
    }
  }

  lemma TripletValue(b: nat)
    requires b < 256
    ensures HexValue(HexDigit(b / 16)) * 16 + HexValue(HexDigit(b % 16)) == b
  {
    HexValueOfDigit(b / 16);
    HexValueOfDigit(b % 16);
  }

  lemma ByteAtTriplet(s: string, i: nat, b: nat)
    requires b < 256 && i + 3 <= |s| && s[i..i + 3] == Triplet(b)
    ensures ByteAt(s, i) == Some(b)
  {
    assert s[i] == s[i..i + 3][0] == '%';
    assert s[i + 1] == s[i..i + 3][1] == HexDigit(b / 16);
    assert s[i + 2] == s[i..i + 3][2] == HexDigit(b % 16);
    TripletValue(b);
  }

  /** The `k`-th triplet of an escaped byte sequence reads back as the `k`-th byte. */
  lemma ByteAtEscaped(bytes: seq<nat>, rest: string, k: nat)
    requires forall j :: 0 <= j < |bytes| ==> bytes[j] < 256
    requires k < |bytes|
    ensures ByteAt(EscapeBytes(bytes) + rest, 3 * k) == Some(bytes[k])
  {
    var e := EscapeBytes(bytes);
    var lo := 3 * k;
    assert lo + 3 <= |e|;
    EscapeBytesAt(bytes, k);
    assert e[lo..lo + 3] == Triplet(bytes[k]);
    assert (e + rest)[lo..lo + 3] == e[lo..lo + 3];
    ByteAtTriplet(e + rest, lo, bytes[k]);
  }

  /** How the code point is rebuilt from the UTF-8 bytes of a character. */
  lemma Utf8Fields(c: char)
    ensures var cp, b := c as int, Utf8(c);
      && (cp < 0x80 ==> |b| == 1 && b[0] == cp)
      && (0x80 <= cp < 0x800 ==>
            |b| == 2 && 0xC0 <= b[0] < 0xE0 && 0x80 <= b[1] < 0xC0 &&
            (b[0] - 0xC0) * 64 + (b[1] - 0x80) == cp)
      && (0x800 <= cp < 0x10000 ==>
            |b| == 3 && 0xE0 <= b[0] < 0xF0 && 0x80 <= b[1] < 0xC0 && 0x80 <= b[2] < 0xC0 &&
            ((b[0] - 0xE0) * 64 + (b[1] - 0x80)) * 64 + (b[2] - 0x80) == cp)
      && (0x10000 <= cp ==>
            |b| == 4 && 0xF0 <= b[0] < 0xF8 && 0x80 <= b[1] < 0xC0 &&
            0x80 <= b[2] < 0xC0 && 0x80 <= b[3] < 0xC0 &&
            (((b[0] - 0xF0) * 64 + (b[1] - 0x80)) * 64 + (b[2] - 0x80)) * 64 + (b[3] - 0x80) == cp)
  {
    var cp := c as int;
    var q1 := cp / 64;
    var q2 := q1 / 64;
    var q3 := q2 / 64;
    assert cp == q1 * 64 + cp % 64;
    assert q1 == q2 * 64 + q1 % 64;
    assert q2 == q3 * 64 + q2 % 64;
    assert cp < 0x11_0000;
  }

  lemma EscapedTwoBytes(c: char, rest: string)
    requires !IsUnescaped(c) && 0x80 <= c as int < 0x800
    ensures EscapedChar(EscapeBytes(Utf8(c)) + rest) == Some((c, 6))
  {
    var b := Utf8(c);
    var s := EscapeBytes(b) + rest;
    Utf8Fields(c);
    ByteAtEscaped(b, rest, 0);
    ByteAtEscaped(b, rest, 1);
    assert ContinuationAt(s, 3) == Some(b[1] - 0x80);
  }

  lemma EscapedThreeBytes(c: char, rest: string)
    requires !IsUnescaped(c) && 0x800 <= c as int < 0x10000
    ensures EscapedChar(EscapeBytes(Utf8(c)) + rest) == Some((c, 9))
  {
    var b := Utf8(c);
    var s := EscapeBytes(b) + rest;
    Utf8Fields(c);
    ByteAtEscaped(b, rest, 0);
    ByteAtEscaped(b, rest, 1);
    ByteAtEscaped(b, rest, 2);
    assert ContinuationAt(s, 3) == Some(b[1] - 0x80);
    assert ContinuationAt(s, 6) == Some(b[2] - 0x80);
  }

  lemma EscapedFourBytes(c: char, rest: string)
    requires !IsUnescaped(c) && 0x10000 <= c as int
    ensures EscapedChar(EscapeBytes(Utf8(c)) + rest) == Some((c, 12))
  {
    var b := Utf8(c);
    var s := EscapeBytes(b) + rest;
    Utf8Fields(c);
    ByteAtEscaped(b, rest, 0);
    ByteAtEscaped(b, rest, 1);
    ByteAtEscaped(b, rest, 2);
    ByteAtEscaped(b, rest, 3);
    assert ContinuationAt(s, 3) == Some(b[1] - 0x80);
    assert ContinuationAt(s, 6) == Some(b[2] - 0x80);
    assert ContinuationAt(s, 9) == Some(b[3] - 0x80);
  }

  /** An escaped character is read back whole, with the width of its escape. */
  lemma EscapedCharOfEscape(c: char, rest: string)
    requires !IsUnescaped(c)
    ensures EscapedChar(EscapeBytes(Utf8(c)) + rest) == Some((c, 3 * |Utf8(c)|))
  {
    Utf8Fields(c);
    var cp := c as int;
    if cp < 0x80 {
      ByteAtEscaped(Utf8(c), rest, 0);
    } else if cp < 0x800 {
      EscapedTwoBytes(c, rest);
    } else if cp < 0x10000 {
      EscapedThreeBytes(c, rest);
    } else {
      EscapedFourBytes(c, rest);
    }
  }

  lemma DecodeEncodedChar(c: char, rest: string)
    ensures Decode(EncodeChar(c) + rest) == Prepend(c, Decode(rest))
  {
    var s := EncodeChar(c) + rest;
    if IsUnescaped(c) {
      assert s[1..] == rest;
    } else {
      EscapedCharOfEscape(c, rest);
      assert s[0] == '%' by { EscapeBytesAt(Utf8(c), 0); }
      assert s[3 * |Utf8(c)|..] == rest;
    }
  }

  /** `decodeURIComponent(encodeURIComponent(s)) == s` for every string. */
  lemma {:induction false} DecodeEncode(s: string)
    ensures Decode(Encode(s)) == Some(s)
    decreases |s|
  {
    if s != [] {
      DecodeEncode(s[1..]);
      DecodeEncodedChar(s[0], Encode(s[1..]));
      assert s == [s[0]] + s[1..];
    }
  }

  /** The encoding never contains the URL delimiters `/`, `?` or `#`. */
  lemma EncodeHasNoDelimiters(s: string)
    ensures '/' !in Encode(s) && '?' !in Encode(s) && '#' !in Encode(s)
  {
  }
}
