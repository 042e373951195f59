/**
  UTF-8 as defined in section 3 of RFC 3629: each Unicode scalar value is
  written as one to four octets. `Encode` is what Java's
  `String.getBytes(StandardCharsets.UTF_8)` produces for a string of scalar
  values; `Decode` accepts exactly the well-formed octet sequences of
  section 4 of RFC 3629 and serves as the inverse that `Encode` is proved
  against.
 */
module Utf8 {

  import opened Common

  newtype byte = x: int | 0 <= x < 256

  /** Continuation octets have the bit pattern 10xxxxxx. */
  predicate IsContinuation(b: byte) {
    0x80 <= b < 0xC0
  }

  /** The octets of one scalar value, by the table of section 3 of RFC 3629. */
  function EncodeChar(c: char): (bs: seq<byte>)
    ensures 1 <= |bs| <= 4
    ensures |bs| == 1 <==> c as int < 0x80
    ensures |bs| == 1 ==> bs[0] as int == c as int
    ensures forall i :: 1 <= i < |bs| ==> IsContinuation(bs[i])
  {
    var n := c as int;
    if n < 0x80 then
      [n as byte]
    else if n < 0x800 then
      [(0xC0 + n / 64) as byte, (0x80 + n % 64) as byte]
    else if n < 0x10000 then
      [(0xE0 + n / 4096) as byte, (0x80 + (n / 64) % 64) as byte, (0x80 + n % 64) as byte]
    else
      [(0xF0 + n / 262144) as byte, (0x80 + (n / 4096) % 64) as byte,
       (0x80 + (n / 64) % 64) as byte, (0x80 + n % 64) as byte]
  }

  /** The octets of a whole string: the concatenation of its characters' octets. */
  function Encode(s: string): (bs: seq<byte>)
    ensures |bs| >= |s|
  {
    if s == [] then [] else EncodeChar(s[0]) + Encode(s[1..])
  }

  /** A scalar value computed by the decoder, when it is one. */
  function ToChar(n: int): Option<char> {
    if 0 <= n < 0xD800 || 0xE000 <= n < 0x110000 then Some(n as char) else None
  }

  /**
    The scalar value at the head of `bs` and the number of octets it takes,
    or `None` when the head is not a well-formed UTF-8 sequence (a stray
    continuation octet, a truncated sequence, an over-long form, a
    surrogate or a value above U+10FFFF).
   */
  function DecodeChar(bs: seq<byte>): (r: Option<(char, nat)>)
    ensures r.Some? ==> 1 <= r.value.1 <= 4 && r.value.1 <= |bs|
  {
    if |bs| == 0 then None
    else
      var b0 := bs[0] as int;
      if b0 < 0x80 then
        Some((b0 as char, 1))
      else if 0xC2 <= b0 < 0xE0 then
        if |bs| >= 2 && IsContinuation(bs[1]) then
          var n := (b0 - 0xC0) * 64 + (bs[1] as int - 0x80);
          match ToChar(n)
          case Some(c) => Some((c, 2))
          case None => None
        else None
      else if 0xE0 <= b0 < 0xF0 then
        if |bs| >= 3 && IsContinuation(bs[1]) && IsContinuation(bs[2]) then
          var n := (b0 - 0xE0) * 4096 + (bs[1] as int - 0x80) * 64 + (bs[2] as int - 0x80);
          if n < 0x800 then None
          else match ToChar(n)
            case Some(c) => Some((c, 3))
            case None => None
        else None
      else if 0xF0 <= b0 < 0xF5 then
        if |bs| >= 4 && IsContinuation(bs[1]) && IsContinuation(bs[2]) && IsContinuation(bs[3]) then
          var n := (b0 - 0xF0) * 262144 + (bs[1] as int - 0x80) * 4096
                   + (bs[2] as int - 0x80) * 64 + (bs[3] as int - 0x80);
          if n < 0x10000 then None
          else match ToChar(n)
            case Some(c) => Some((c, 4))
            case None => None
        else None
      else None
  }

  /** The string that a well-formed octet sequence encodes, or `None`. */
  function Decode(bs: seq<byte>): Option<string>
    decreases |bs|
  {
    if bs == [] then Some([])
    else match DecodeChar(bs)
      case None => None
      case Some((c, k)) =>
        match Decode(bs[k..])
        case None => None
        case Some(s) => Some([c] + s)
  }

  /** The decoder reads back exactly the character that `EncodeChar` wrote, and no more. */
  lemma DecodeEncodeChar(c: char, rest: seq<byte>)
    ensures DecodeChar(EncodeChar(c) + rest) == Some((c, |EncodeChar(c)|))
  {
    var n := c as int;
    if n < 0x80 {
    } else if n < 0x800 {
      DecodeTwoOctets(c, rest);
    } else if n < 0x10000 {
      DecodeThreeOctets(c, rest);
    } else {
      DecodeFourOctets(c, rest);
    }
  }

  lemma DecodeTwoOctets(c: char, rest: seq<byte>)
    requires 0x80 <= c as int < 0x800
    ensures DecodeChar(EncodeChar(c) + rest) == Some((c, 2))
  {
    var n := c as int;
    var hi, lo := n / 64, n % 64;
    assert n == hi * 64 + lo && 2 <= hi < 32 && 0 <= lo < 64;
    var bs := EncodeChar(c) + rest;
    assert bs[0] as int == 0xC0 + hi && bs[1] as int == 0x80 + lo;
    assert ToChar(hi * 64 + lo) == Some(c);
  }

  lemma DecodeThreeOctets(c: char, rest: seq<byte>)
    requires 0x800 <= c as int < 0x10000
    ensures DecodeChar(EncodeChar(c) + rest) == Some((c, 3))
  {
    var n := c as int;
    var q, lo := n / 64, n % 64;
    var hi, mid := q / 64, q % 64;
    assert n == q * 64 + lo && 0 <= lo < 64;
    assert q == hi * 64 + mid && 0 <= mid < 64;
    assert n / 4096 == hi;
    assert n == hi * 4096 + mid * 64 + lo;
    var bs := EncodeChar(c) + rest;
    assert bs[0] as int == 0xE0 + hi && bs[1] as int == 0x80 + mid && bs[2] as int == 0x80 + lo;
    assert ToChar(hi * 4096 + mid * 64 + lo) == Some(c);
  }

  lemma DecodeFourOctets(c: char, rest: seq<byte>)
    requires 0x10000 <= c as int
    ensures DecodeChar(EncodeChar(c) + rest) == Some((c, 4))
  {
    var n := c as int;
    var q1, lo := n / 64, n % 64;
    var q2, mid := q1 / 64, q1 % 64;
    var hi, top := q2 / 64, q2 % 64;
    assert n == q1 * 64 + lo && 0 <= lo < 64;
    assert q1 == q2 * 64 + mid && 0 <= mid < 64;
    assert q2 == hi * 64 + top && 0 <= top < 64;
    assert n / 4096 == q2 && n / 262144 == hi;
    assert n == hi * 262144 + top * 4096 + mid * 64 + lo;
    var bs := EncodeChar(c) + rest;
    assert bs[0] as int == 0xF0 + hi && bs[1] as int == 0x80 + top;
    assert bs[2] as int == 0x80 + mid && bs[3] as int == 0x80 + lo;
    assert ToChar(hi * 262144 + top * 4096 + mid * 64 + lo) == Some(c);
  }

  /** Round trip: decoding the UTF-8 encoding of any string gives the string back. */
  lemma {:induction false} DecodeEncode(s: string)
    ensures Decode(Encode(s)) == Some(s)
  {
    if s != [] {
      var head := EncodeChar(s[0]);
      var tail := Encode(s[1..]);
      DecodeEncodeChar(s[0], tail);
      assert (head + tail)[|head|..] == tail;
      DecodeEncode(s[1..]);
      assert [s[0]] + s[1..] == s;
    }
  }

  /** An ASCII string is encoded octet for octet. */
  lemma {:induction false} EncodeAscii(s: string)
    requires forall i :: 0 <= i < |s| ==> s[i] as int < 0x80
    ensures |Encode(s)| == |s|
    ensures forall i :: 0 <= i < |s| ==> Encode(s)[i] as int == s[i] as int
  {
    if s != [] {
      EncodeAscii(s[1..]);
    }
  }
}
