/**
 * UTF-8 as Python's `str.encode('utf-8')` and strict `bytes.decode()` use it: a character
 * is one to four bytes; decoding refuses overlong forms, surrogates and code points past
 * U+10FFFF. Characters here are Unicode scalar values.
 */
module Utf8 {
  import opened Wrappers
  import opened Bytes

  /** A continuation byte, 10xxxxxx. */
  predicate IsCont(b: Byte) {
    0x80 <= b < 0xC0
  }

  /** The bytes of one character. */
  function EncodeChar(c: char): (r: seq<Byte>)
    ensures 1 <= |r| <= 4
    ensures |r| == 1 <==> c as int < 0x80
    ensures forall i :: 1 <= i < |r| ==> IsCont(r[i])
  {
    var cp := c as int;
    if cp < 0x80 then [cp]
    else if cp < 0x800 then [0xC0 + cp / 64, 0x80 + cp % 64]
    else if cp < 0x10000 then [0xE0 + cp / 64 / 64, 0x80 + cp / 64 % 64, 0x80 + cp % 64]
    else [0xF0 + cp / 64 / 64 / 64, 0x80 + cp / 64 / 64 % 64, 0x80 + cp / 64 % 64, 0x80 + cp % 64]
  }

  /** `s.encode('utf-8')`. */
  function Encode(s: string): (r: seq<Byte>)
    ensures |r| >= |s|
  {
    if |s| == 0 then [] else EncodeChar(s[0]) + Encode(s[1..])
  }

  /** The first character of `b` and the number of bytes it takes, or None for an ill-formed start. */
  function DecodeFirst(b: seq<Byte>): (r: Option<(char, nat)>)
    requires |b| > 0
    ensures r.Some? ==> 1 <= r.value.1 <= |b| && r.value.1 <= 4
  {
    var b0: int := b[0];
    if b0 < 0x80 then Some((b0 as char, 1))
    else if 0xC0 <= b0 < 0xE0 then
      if |b| >= 2 && IsCont(b[1]) then
        var cp := (b0 - 0xC0) * 64 + (b[1] as int - 0x80);
        if cp >= 0x80 then Some((cp as char, 2)) else None
      else None
    else if 0xE0 <= b0 < 0xF0 then
      if |b| >= 3 && IsCont(b[1]) && IsCont(b[2]) then
        var cp := (b0 - 0xE0) * 4096 + (b[1] as int - 0x80) * 64 + (b[2] as int - 0x80);
        if cp >= 0x800 && !(0xD800 <= cp < 0xE000) then Some((cp as char, 3)) else None
      else None
    else if 0xF0 <= b0 < 0xF8 then
      if |b| >= 4 && IsCont(b[1]) && IsCont(b[2]) && IsCont(b[3]) then
        var cp := (b0 - 0xF0) * 262144 + (b[1] as int - 0x80) * 4096 + (b[2] as int - 0x80) * 64 + (b[3] as int - 0x80);
        if 0x10000 <= cp < 0x110000 then Some((cp as char, 4)) else None
      else None
    else None
  }

  /** Strict `b.decode()`: None where Python raises UnicodeDecodeError. */
  function Decode(b: seq<Byte>): (r: Option<string>)
    decreases |b|
  {
    if |b| == 0 then Some("")
    else
      match DecodeFirst(b)
      case None => None
      case Some((c, n)) =>
        match Decode(b[n..])
        case None => None
        case Some(rest) => Some([c] + rest)
  }

  /** Decoding reads back the character that was encoded, and how many bytes it took. */
  lemma DecodeFirstEncode(c: char, rest: seq<Byte>)
    ensures DecodeFirst(EncodeChar(c) + rest) == Some((c, |EncodeChar(c)|))
  {
    var cp := c as int;
    if cp < 0x80 {
    } else if cp < 0x800 {
      DecodeTwo(c, rest);
    } else if cp < 0x10000 {
      DecodeThree(c, rest);
    } else {
      DecodeFour(c, rest);
    }
  }

  lemma DecodeTwo(c: char, rest: seq<Byte>)
    requires 0x80 <= c as int < 0x800
    ensures DecodeFirst(EncodeChar(c) + rest) == Some((c, 2))
  {
    var cp := c as int;
    var b := EncodeChar(c) + rest;
    assert b[0] == 0xC0 + cp / 64 && b[1] == 0x80 + cp % 64;
  }

  lemma DecodeThree(c: char, rest: seq<Byte>)
    requires 0x800 <= c as int < 0x10000
    ensures DecodeFirst(EncodeChar(c) + rest) == Some((c, 3))
  {
    var cp := c as int;
    var t := cp / 64;
    var b := EncodeChar(c) + rest;
    assert b[0] == 0xE0 + t / 64 && b[1] == 0x80 + t % 64 && b[2] == 0x80 + cp % 64;
    assert cp == t * 64 + cp % 64 && t == (t / 64) * 64 + t % 64;
  }

  lemma DecodeFour(c: char, rest: seq<Byte>)
    requires 0x10000 <= c as int
    ensures DecodeFirst(EncodeChar(c) + rest) == Some((c, 4))
  {
    var cp := c as int;
    var t := cp / 64;
    var u := t / 64;
    var b := EncodeChar(c) + rest;
    assert b[0] == 0xF0 + u / 64 && b[1] == 0x80 + u % 64;
    assert b[2] == 0x80 + t % 64 && b[3] == 0x80 + cp % 64;
    assert cp == t * 64 + cp % 64 && t == u * 64 + t % 64 && u == (u / 64) * 64 + u % 64;
  }

  /** Division by 64 of a number written in base 64. */
  lemma Split64(x: int, q: int, r: int)
    requires x == q * 64 + r && 0 <= r < 64
    ensures x / 64 == q && x % 64 == r
  {
  }

  /** Every string survives the round trip through its UTF-8 bytes. */
  lemma {:induction false} DecodeEncode(s: string)
    ensures Decode(Encode(s)) == Some(s)
  {
    if |s| > 0 {
      var e := EncodeChar(s[0]);
      DecodeFirstEncode(s[0], Encode(s[1..]));
      assert (e + Encode(s[1..]))[|e|..] == Encode(s[1..]);
      DecodeEncode(s[1..]);
      assert s == [s[0]] + s[1..];
    }
  }

  /** Decoding accepts only canonical bytes: whatever decodes is the encoding of its result. */
  lemma {:induction false} EncodeDecode(b: seq<Byte>)
    ensures Decode(b).Some? ==> Encode(Decode(b).value) == b
    decreases |b|
  {
    if |b| > 0 && DecodeFirst(b).Some? {
      var (c, n) := DecodeFirst(b).value;
      EncodeFirst(b);
      EncodeDecode(b[n..]);
      assert b == b[..n] + b[n..];
      if Decode(b).Some? {
        assert Decode(b).value == [c] + Decode(b[n..]).value;
        assert Encode([c] + Decode(b[n..]).value) == EncodeChar(c) + Encode(Decode(b[n..]).value) by {
          assert ([c] + Decode(b[n..]).value)[1..] == Decode(b[n..]).value;
        }
      }
    }
  }

  /** The bytes a decoded first character took are its encoding. */
  lemma EncodeFirst(b: seq<Byte>)
    requires |b| > 0
    ensures DecodeFirst(b).Some? ==> EncodeChar(DecodeFirst(b).value.0) == b[..DecodeFirst(b).value.1]
  {
    if DecodeFirst(b).Some? {
      var (c, n) := DecodeFirst(b).value;
      var cp := c as int;
      if n == 2 {
        Split64(cp, b[0] as int - 0xC0, b[1] as int - 0x80);
      } else if n == 3 {
        var t := (b[0] as int - 0xE0) * 64 + (b[1] as int - 0x80);
        Split64(cp, t, b[2] as int - 0x80);
        Split64(t, b[0] as int - 0xE0, b[1] as int - 0x80);
      } else if n == 4 {
        var u := (b[0] as int - 0xF0) * 64 + (b[1] as int - 0x80);
        var t := u * 64 + (b[2] as int - 0x80);
        Split64(cp, t, b[3] as int - 0x80);
        Split64(t, u, b[2] as int - 0x80);
        Split64(u, b[0] as int - 0xF0, b[1] as int - 0x80);
      }
    }
  }
}
