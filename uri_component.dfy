/**
 * `encodeURIComponent` of ECMAScript: every character outside the unreserved
 * set of section 2.3 of RFC 2396 (ASCII letters, digits and `- _ . ! ~ * ' ( )`)
 * is replaced by the percent-encoding (section 2.1 of RFC 3986) of each byte
 * of its UTF-8 encoding, hexadecimal digits in upper case.  Its inverse,
 * `Decode`, reads the percent-escapes back into bytes and the bytes back into
 * characters; `DecodeEncode` proves the round trip.
 */
module UriComponent {
  import opened Ecma

  type Byte = b: int | 0 <= b < 256

  /** The characters `encodeURIComponent` copies unchanged. */
  predicate IsUnreserved(c: char) {
    || ('A' <= c <= 'Z') || ('a' <= c <= 'z') || ('0' <= c <= '9')
    || c == '-' || c == '_' || c == '.' || c == '!' || c == '~'
    || c == '*' || c == '\'' || c == '(' || c == ')'
  }

  // ---------------------------------------------------------------------------
  // UTF-8

  /** The UTF-8 encoding of one Unicode scalar value (section 3 of RFC 3629). */
  function Utf8(c: char): (bs: seq<Byte>)
    ensures 1 <= |bs| <= 4
    ensures (c as int < 0x80) == (|bs| == 1)
  {
    var cp := c as int;
    if cp < 0x80 then [cp]
    else if cp < 0x800 then [0xC0 + cp / 64, 0x80 + cp % 64]
    else if cp < 0x10000 then [0xE0 + cp / 4096, 0x80 + (cp / 64) % 64, 0x80 + cp % 64]
    else [0xF0 + cp / 262144, 0x80 + (cp / 4096) % 64, 0x80 + (cp / 64) % 64, 0x80 + cp % 64]
  }

  function Utf8Encode(s: string): seq<Byte> {
    if s == [] then [] else Utf8(s[0]) + Utf8Encode(s[1..])
  }

  /** The length of the UTF-8 sequence a lead byte announces, or 0 when the
      byte cannot start one. */
  function SequenceLength(lead: Byte): nat {
    if lead < 0x80 then 1
    else if 0xC0 <= lead < 0xE0 then 2
    else if 0xE0 <= lead < 0xF0 then 3
    else if 0xF0 <= lead < 0xF8 then 4
    else 0
  }

  predicate IsContinuation(b: Byte) { 0x80 <= b < 0xC0 }

  /** The scalar value one complete UTF-8 sequence stands for. */
  function ScalarOf(bs: seq<Byte>): Option<char>
    requires 1 <= |bs| <= 4 && SequenceLength(bs[0]) == |bs|
  {
    if exists i | 1 <= i < |bs| :: !IsContinuation(bs[i]) then None
    else
      var v := ScalarValue(bs);
      if (0 <= v < 0xD800) || (0xE000 <= v < 0x110000) then Some(v as char) else None
  }

  /** The code point a complete sequence of `|bs|` bytes spells. */
  function ScalarValue(bs: seq<Byte>): int
    requires 1 <= |bs| <= 4
  {
    var b0: int := bs[0];
    if |bs| == 1 then b0
    else if |bs| == 2 then Combine2(b0 - 0xC0, bs[1] as int - 0x80)
    else if |bs| == 3 then Combine3(b0 - 0xE0, bs[1] as int - 0x80, bs[2] as int - 0x80)
    else Combine4(b0 - 0xF0, bs[1] as int - 0x80, bs[2] as int - 0x80, bs[3] as int - 0x80)
  }

  function Combine2(a: int, b: int): int { a * 64 + b }
  function Combine3(a: int, b: int, c: int): int { a * 4096 + b * 64 + c }
  function Combine4(a: int, b: int, c: int, d: int): int { a * 262144 + b * 4096 + c * 64 + d }

  function DecodeUtf8(bs: seq<Byte>): Option<string>
    decreases |bs|
  {
    if bs == [] then Some([])
    else
      var n := SequenceLength(bs[0]);
      if n == 0 || |bs| < n then None
      else match ScalarOf(bs[..n])
        case None => None
        case Some(c) =>
          match DecodeUtf8(bs[n..])
          case None => None
          case Some(rest) => Some([c] + rest)
  }

  lemma Utf8OfChar(c: char)
    ensures SequenceLength(Utf8(c)[0]) == |Utf8(c)|
    ensures ScalarOf(Utf8(c)) == Some(c)
  {
    var cp := c as int;
    var bs := Utf8(c);
    if cp < 0x80 {
    } else if cp < 0x800 {
      TwoByteValue(cp);
    } else if cp < 0x10000 {
      ThreeByteValue(cp);
    } else {
      FourByteValue(cp);
    }
    assert ScalarValue(bs) == cp;
    assert (cp as char) == c;
  }

  lemma TwoByteValue(cp: int)
    requires 0x80 <= cp < 0x800
    ensures 0xC0 <= 0xC0 + cp / 64 < 0xE0 && 0 <= cp % 64 < 64
    ensures Combine2(cp / 64, cp % 64) == cp
  {
  }

  lemma ThreeByteValue(cp: int)
    requires 0x800 <= cp < 0x10000
    ensures 0xE0 <= 0xE0 + cp / 4096 < 0xF0 && 0 <= (cp / 64) % 64 < 64 && 0 <= cp % 64 < 64
    ensures Combine3(cp / 4096, (cp / 64) % 64, cp % 64) == cp
  {
    assert cp == (cp / 64) * 64 + cp % 64;
    assert cp / 64 == (cp / 4096) * 64 + (cp / 64) % 64;
  }

  lemma FourByteValue(cp: int)
    requires 0x10000 <= cp < 0x110000
    ensures 0xF0 <= 0xF0 + cp / 262144 < 0xF8
    ensures 0 <= (cp / 4096) % 64 < 64 && 0 <= (cp / 64) % 64 < 64 && 0 <= cp % 64 < 64
    ensures Combine4(cp / 262144, (cp / 4096) % 64, (cp / 64) % 64, cp % 64) == cp
  {
    assert cp == (cp / 64) * 64 + cp % 64;
    assert cp / 64 == (cp / 4096) * 64 + (cp / 64) % 64;
    assert cp / 4096 == (cp / 262144) * 64 + (cp / 4096) % 64;
    assert cp / 4096 == (cp / 64) / 64;
    assert cp / 262144 == (cp / 4096) / 64;
  }

  /** Decoding the UTF-8 encoding of a string gives the string back. */
  lemma {:induction false} DecodeUtf8OfEncode(s: string)
    ensures DecodeUtf8(Utf8Encode(s)) == Some(s)
  {
    if s != [] {
      var bs := Utf8Encode(s);
      var head := Utf8(s[0]);
      Utf8OfChar(s[0]);
      DecodeUtf8OfEncode(s[1..]);
      assert bs[..|head|] == head;
      assert bs[|head|..] == Utf8Encode(s[1..]);
      assert [s[0]] + s[1..] == s;
    }
  }

  // ---------------------------------------------------------------------------
  // Percent-encoding

  function HexDigit(d: nat): (c: char)
    requires d < 16
    ensures IsUnreserved(c)
  {
    "0123456789ABCDEF"[d]
  }

  function HexValue(c: char): Option<nat> {
    if '0' <= c <= '9' then Some(c as int - '0' as int)
    else if 'A' <= c <= 'F' then Some(c as int - 'A' as int + 10)
    else if 'a' <= c <= 'f' then Some(c as int - 'a' as int + 10)
    else None
  }

  lemma HexValueOfDigit(d: nat)
    requires d < 16
    ensures HexValue(HexDigit(d)) == Some(d)
  {
  }

  /** `%XY` for each byte. */
  function PercentEncode(bs: seq<Byte>): (r: string)
    ensures |r| == 3 * |bs|
    ensures forall i :: 0 <= i < |r| ==> r[i] == '%' || IsUnreserved(r[i])
  {
    if bs == [] then [] else ['%', HexDigit(bs[0] / 16), HexDigit(bs[0] % 16)] + PercentEncode(bs[1..])
  }

  function EncodeChar(c: char): (r: string)
    ensures forall i :: 0 <= i < |r| ==> r[i] == '%' || IsUnreserved(r[i])
  {
    if IsUnreserved(c) then [c] else PercentEncode(Utf8(c))
  }

  /** `encodeURIComponent(s)`: the result holds only unreserved characters
      and `%`, so in particular no `/`. */
  function Encode(s: string): (r: string)
    ensures forall i :: 0 <= i < |r| ==> r[i] == '%' || IsUnreserved(r[i])
  {
    if s == [] then [] else EncodeChar(s[0]) + Encode(s[1..])
  }

  /** Text made only of unreserved characters is copied unchanged. */
  lemma {:induction false} EncodeUnreserved(s: string)
    requires forall i :: 0 <= i < |s| ==> IsUnreserved(s[i])
    ensures Encode(s) == s
  {
    if s != [] {
      EncodeUnreserved(s[1..]);
      assert [s[0]] + s[1..] == s;
    }
  }

  /** A blank is escaped as `%20`. */
  lemma EncodeBlank()
    ensures Encode(" ") == "%20"
  {
    assert Utf8(' ') == [32];
    assert EncodeChar(' ') == "%20";
  }

  /** The bytes a percent-encoded string stands for: each `%XY` is one byte,
      every other character its UTF-8 bytes. */
  function PercentDecode(t: string): Option<seq<Byte>>
    decreases |t|
  {
    if t == [] then Some([])
    else if t[0] == '%' then
      if |t| < 3 then None
      else match (HexValue(t[1]), HexValue(t[2]))
        case (Some(hi), Some(lo)) =>
          (match PercentDecode(t[3..])
           case None => None
           case Some(rest) => Some([hi * 16 + lo] + rest))
        case _ => None
    else
      match PercentDecode(t[1..])
      case None => None
      case Some(rest) => Some(Utf8(t[0]) + rest)
  }

  /** `decodeURIComponent`, for percent-escapes that spell well-formed
      UTF-8. */
  function Decode(t: string): Option<string> {
    match PercentDecode(t)
    case None => None
    case Some(bs) => DecodeUtf8(bs)
  }

  lemma {:induction false} PercentDecodeOfEncoded(bs: seq<Byte>, tail: string, rest: seq<Byte>)
    requires PercentDecode(tail) == Some(rest)
    ensures PercentDecode(PercentEncode(bs) + tail) == Some(bs + rest)
  {
    if bs == [] {
      assert PercentEncode(bs) + tail == tail && bs + rest == rest;
    } else {
      var b := bs[0];
      PercentDecodeOfEncoded(bs[1..], tail, rest);
      var t' := PercentEncode(bs[1..]) + tail;
      PercentDecodeOfByte(b, t', bs[1..] + rest);
      assert PercentEncode(bs) + tail == ['%', HexDigit(b / 16), HexDigit(b % 16)] + t';
      SeqAssoc([b], bs[1..], rest);
      assert [b] + bs[1..] == bs;
    }
  }

  lemma PercentDecodeOfByte(b: Byte, tail: string, rest: seq<Byte>)
    requires PercentDecode(tail) == Some(rest)
    ensures PercentDecode(['%', HexDigit(b / 16), HexDigit(b % 16)] + tail) == Some([b] + rest)
  {
    var t := ['%', HexDigit(b / 16), HexDigit(b % 16)] + tail;
    HexValueOfDigit(b / 16);
    HexValueOfDigit(b % 16);
    assert t[3..] == tail;
    assert (b / 16) * 16 + b % 16 == b;
  }

  lemma SeqAssoc(a: seq<Byte>, b: seq<Byte>, c: seq<Byte>)
    ensures a + (b + c) == (a + b) + c
  {
  }

  lemma {:induction false} PercentDecodeOfEncode(s: string)
    ensures PercentDecode(Encode(s)) == Some(Utf8Encode(s))
  {
    if s != [] {
      var c := s[0];
      PercentDecodeOfEncode(s[1..]);
      var tail := Encode(s[1..]);
      if IsUnreserved(c) {
        assert Encode(s) == [c] + tail;
        assert ([c] + tail)[1..] == tail;
      } else {
        PercentDecodeOfEncoded(Utf8(c), tail, Utf8Encode(s[1..]));
      }
    }
  }

  /** `decodeURIComponent(encodeURIComponent(s)) == s`. */
  lemma DecodeEncode(s: string)
    ensures Decode(Encode(s)) == Some(s)
  {
    PercentDecodeOfEncode(s);
    DecodeUtf8OfEncode(s);
  }
}
