/**
  Go's conversion `[]byte(s)` of a string to its bytes. A Go string read
  from JSON or written as a literal holds UTF-8, so the conversion is the
  UTF-8 encoding of the string's Unicode scalar values. The decoder is its
  inverse and is what gives the encoding a meaning here: the bytes of a
  text body decode back to exactly the text.
 */
module Utf8 {
  import opened Values

  /** Is `b` a continuation byte (10xxxxxx)? */
  predicate IsContinuation(b: byte)
  {
    0x80 <= b < 0xC0
  }

  /** The UTF-8 encoding of one Unicode scalar value: one to four bytes. */
  function EncodeChar(c: char): (r: seq<byte>)
    ensures 1 <= |r| <= 4
    ensures |r| == 1 <==> c as int < 0x80
    ensures |r| == 1 ==> r[0] as int == c as int
  {
    var n := c as int;
    if n < 0x80 then
      [n as byte]
    else if n < 0x800 then
      [(0xC0 + n / 64) as byte, (0x80 + n % 64) as byte]
    else if n < 0x10000 then
      [(0xE0 + n / 4096) as byte, (0x80 + (n / 64) % 64) as byte, (0x80 + n % 64) as byte]
    else
      [(0xF0 + n / 262144) as byte, (0x80 + (n / 4096) % 64) as byte,
       (0x80 + (n / 64) % 64) as byte, (0x80 + n % 64) as byte]
  }

  /** The UTF-8 encoding of a string: the encodings of its characters, in order. */
  function Encode(s: string): (r: seq<byte>)
    ensures |r| >= |s|
    ensures r == [] <==> s == []
  {
    if s == [] then [] else EncodeChar(s[0]) + Encode(s[1..])
  }

  /**
    Decodes the first character of `s`: the character and the number of
    bytes it occupies, or None when `s` does not start with a well-formed,
    shortest-form encoding of a scalar value.
   */
  function DecodeChar(s: seq<byte>): (r: Option<(char, nat)>)
    ensures r.Some? ==> 1 <= r.value.1 <= |s|
  {
    if |s| == 0 then None
    else
      var b0 := s[0] as int;
      if b0 < 0x80 then
        Some((b0 as char, 1))
      else if 0xC0 <= b0 < 0xE0 && |s| >= 2 && IsContinuation(s[1]) then
        var n := (b0 - 0xC0) * 64 + (s[1] as int - 0x80);
        if n < 0x80 then None else Some((n as char, 2))
      else if 0xE0 <= b0 < 0xF0 && |s| >= 3 && IsContinuation(s[1]) && IsContinuation(s[2]) then
        var n := (b0 - 0xE0) * 4096 + (s[1] as int - 0x80) * 64 + (s[2] as int - 0x80);
        if n < 0x800 || (0xD800 <= n < 0xE000) then None else Some((n as char, 3))
      else if 0xF0 <= b0 < 0xF8 && |s| >= 4
              && IsContinuation(s[1]) && IsContinuation(s[2]) && IsContinuation(s[3]) then
        var n := (b0 - 0xF0) * 262144 + (s[1] as int - 0x80) * 4096
                 + (s[2] as int - 0x80) * 64 + (s[3] as int - 0x80);
        if n < 0x10000 || n > 0x10FFFF then None else Some((n as char, 4))
      else
        None
  }

  /** Decodes a whole byte sequence, or None when it is not well-formed UTF-8. */
  function Decode(s: seq<byte>): (r: Option<string>)
    decreases |s|
  {
    if s == [] then Some("")
    else
      match DecodeChar(s)
      case None => None
      case Some((c, k)) =>
        match Decode(s[k..])
        case None => None
        case Some(t) => Some([c] + t)
  }

  /** Decoding the encoding of one character, whatever follows it, gives the character back. */
  lemma DecodeEncodeChar(c: char, rest: seq<byte>)
    ensures DecodeChar(EncodeChar(c) + rest) == Some((c, |EncodeChar(c)|))
  {
    var n := c as int;
    if n < 0x80 {
    } else if n < 0x800 {
      DecodeEncodeTwo(c, rest);
    } else if n < 0x10000 {
      DecodeEncodeThree(c, rest);
    } else {
      DecodeEncodeFour(c, rest);
    }
  }

  /** The two-byte case of DecodeEncodeChar. */
  lemma DecodeEncodeTwo(c: char, rest: seq<byte>)
    requires 0x80 <= c as int < 0x800
    ensures DecodeChar(EncodeChar(c) + rest) == Some((c, 2))
  {
    var n := c as int;
    var s := EncodeChar(c) + rest;
    var q, r := n / 64, n % 64;
    assert n == q * 64 + r;
    assert s[0] as int == 0xC0 + q && s[1] as int == 0x80 + r;
  }

  /** The three-byte case of DecodeEncodeChar. */
  lemma DecodeEncodeThree(c: char, rest: seq<byte>)
    requires 0x800 <= c as int < 0x10000
    ensures DecodeChar(EncodeChar(c) + rest) == Some((c, 3))
  {
    var n := c as int;
    var s := EncodeChar(c) + rest;
    var hi, mid, lo := n / 4096, (n / 64) % 64, n % 64;
    assert n == hi * 4096 + mid * 64 + lo;
    assert s[0] as int == 0xE0 + hi && s[1] as int == 0x80 + mid && s[2] as int == 0x80 + lo;
  }

  /** The four-byte case of DecodeEncodeChar. */
  lemma DecodeEncodeFour(c: char, rest: seq<byte>)
    requires 0x10000 <= c as int
    ensures DecodeChar(EncodeChar(c) + rest) == Some((c, 4))
  {
    var n := c as int;
    var s := EncodeChar(c) + rest;
    var top, hi, mid, lo := n / 262144, (n / 4096) % 64, (n / 64) % 64, n % 64;
    SplitFour(n);
    assert s[0] as int == 0xF0 + top && s[1] as int == 0x80 + hi;
    assert s[2] as int == 0x80 + mid && s[3] as int == 0x80 + lo;
    DecodeFour(s, top, hi, mid, lo);
  }

  /** A supplementary-plane scalar value is its leading 3-bit digit and three 6-bit digits. */
  lemma SplitFour(n: int)
    requires 0x10000 <= n <= 0x10FFFF
    ensures n == (n / 262144) * 262144 + ((n / 4096) % 64) * 4096 + ((n / 64) % 64) * 64 + n % 64
    ensures n / 262144 <= 4
  {
    var m1 := n / 64;
    var m2 := m1 / 64;
    assert n == m1 * 64 + n % 64;
    assert m1 == m2 * 64 + m1 % 64;
    assert n / 4096 == m2;
    assert m2 == (m2 / 64) * 64 + m2 % 64;
    assert n / 262144 == m2 / 64;
  }

  /** Four bytes carrying the digits of a supplementary-plane scalar value decode to it. */
  lemma DecodeFour(s: seq<byte>, top: int, hi: int, mid: int, lo: int)
    requires |s| >= 4
    requires 0 <= top <= 4 && 0 <= hi < 64 && 0 <= mid < 64 && 0 <= lo < 64
    requires 0x10000 <= top * 262144 + hi * 4096 + mid * 64 + lo <= 0x10FFFF
    requires s[0] as int == 0xF0 + top && s[1] as int == 0x80 + hi
    requires s[2] as int == 0x80 + mid && s[3] as int == 0x80 + lo
    ensures DecodeChar(s) == Some(((top * 262144 + hi * 4096 + mid * 64 + lo) as char, 4))
  {
  }

  /** Round trip: the bytes of a string decode back to exactly that string. */
  lemma {:induction false} DecodeEncode(s: string)
    ensures Decode(Encode(s)) == Some(s)
  {
    if s != [] {
      var e := EncodeChar(s[0]);
      DecodeEncodeChar(s[0], Encode(s[1..]));
      assert (e + Encode(s[1..]))[|e|..] == Encode(s[1..]);
      DecodeEncode(s[1..]);
      assert [s[0]] + s[1..] == s;
    }
  }

  /** A string of ASCII characters is its own byte sequence. */
  lemma {:induction false} EncodeAscii(s: string)
    requires forall i :: 0 <= i < |s| ==> s[i] as int < 0x80
    ensures |Encode(s)| == |s|
    ensures forall i :: 0 <= i < |s| ==> Encode(s)[i] as int == s[i] as int
  {
    if s != [] {
      EncodeAscii(s[1..]);
    }
  }
}
