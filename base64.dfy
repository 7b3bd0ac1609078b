/**
 * Base 64 as in section 4 of RFC 4648 (the alphabet A-Z, a-z, 0-9, '+', '/', with '='
 * padding), as Python's `base64.b64encode` writes it. Decoding here is the strict reading:
 * whole four-character groups, alphabet characters only, padding only at the very end.
 */
module Base64 {
  import opened Wrappers
  import opened Bytes

  /** The character of a six-bit value. */
  function CharOf(v: int): (c: char)
    requires 0 <= v < 64
    ensures c != '='
  {
    if v < 26 then ('A' as int + v) as char
    else if v < 52 then ('a' as int + v - 26) as char
    else if v < 62 then ('0' as int + v - 52) as char
    else if v == 62 then '+'
    else '/'
  }

  /** The six-bit value of an alphabet character, or None outside the alphabet. */
  function ValueOf(c: char): (r: Option<int>)
    ensures r.Some? ==> 0 <= r.value < 64 && CharOf(r.value) == c
  {
    if 'A' <= c <= 'Z' then Some(c as int - 'A' as int)
    else if 'a' <= c <= 'z' then Some(c as int - 'a' as int + 26)
    else if '0' <= c <= '9' then Some(c as int - '0' as int + 52)
    else if c == '+' then Some(62)
    else if c == '/' then Some(63)
    else None
  }

  lemma ValueOfCharOf(v: int)
    requires 0 <= v < 64
    ensures ValueOf(CharOf(v)) == Some(v)
  {
  }

  /** `base64.b64encode(b)`, as text: three bytes to four characters, the tail padded with '='. */
  function Encode(b: seq<Byte>): (s: string)
    ensures |s| == 4 * ((|b| + 2) / 3)
  {
    if |b| == 0 then ""
    else if |b| == 1 then
      [CharOf(b[0] / 4), CharOf(b[0] % 4 * 16), '=', '=']
    else if |b| == 2 then
      [CharOf(b[0] / 4), CharOf(b[0] % 4 * 16 + b[1] / 16), CharOf(b[1] % 16 * 4), '=']
    else EncodeGroup(b[0], b[1], b[2]) + Encode(b[3..])
  }

  /** Three bytes as four characters. */
  function EncodeGroup(b0: Byte, b1: Byte, b2: Byte): (q: string)
    ensures |q| == 4
  {
    [CharOf(b0 / 4), CharOf(b0 % 4 * 16 + b1 / 16), CharOf(b1 % 16 * 4 + b2 / 64), CharOf(b2 % 64)]
  }

  /** The bytes of one group of four characters, or None when a character is out of place. */
  function DecodeGroup(q: string, last: bool): (r: Option<seq<Byte>>)
    requires |q| == 4
    ensures r.Some? ==> 1 <= |r.value| <= 3
    ensures r.Some? && !last ==> |r.value| == 3
  {
    var v0, v1 := ValueOf(q[0]), ValueOf(q[1]);
    if v0.None? || v1.None? then None
    else
      var x := v0.value * 4 + v1.value / 16;
      if last && q[2] == '=' && q[3] == '=' then Some([x])
      else
        var v2 := ValueOf(q[2]);
        if v2.None? then None
        else
          var y := v1.value % 16 * 16 + v2.value / 4;
          if last && q[3] == '=' then Some([x, y])
          else
            var v3 := ValueOf(q[3]);
            if v3.None? then None
            else Some([x, y, v2.value % 4 * 64 + v3.value])
  }

  /** `base64.b64decode(s)` on well-formed input; None where the input is not a padded base 64 text. */
  function Decode(s: string): (r: Option<seq<Byte>>)
    decreases |s|
  {
    if |s| == 0 then Some([])
    else if |s| < 4 then None
    else
      match DecodeGroup(s[..4], |s| == 4)
      case None => None
      case Some(g) =>
        match Decode(s[4..])
        case None => None
        case Some(rest) => Some(g + rest)
  }

  /** Division of `q * k + r` by a constant `k`, for the three group widths. */
  lemma Split4(x: int, q: int, r: int)
    requires x == q * 4 + r && 0 <= r < 4
    ensures x / 4 == q && x % 4 == r
  {
  }

  lemma Split16(x: int, q: int, r: int)
    requires x == q * 16 + r && 0 <= r < 16
    ensures x / 16 == q && x % 16 == r
  {
  }

  lemma Split64(x: int, q: int, r: int)
    requires x == q * 64 + r && 0 <= r < 64
    ensures x / 64 == q && x % 64 == r
  {
  }

  lemma DecodeOneGroup(b0: Byte)
    ensures DecodeGroup(Encode([b0]), true) == Some([b0])
  {
    ValueOfCharOf(b0 / 4);
    ValueOfCharOf(b0 % 4 * 16);
    Split16(b0 % 4 * 16, b0 % 4, 0);
  }

  lemma DecodeTwoGroup(b0: Byte, b1: Byte)
    ensures DecodeGroup(Encode([b0, b1]), true) == Some([b0, b1])
  {
    var v1, v2 := b0 % 4 * 16 + b1 / 16, b1 % 16 * 4;
    ValueOfCharOf(b0 / 4);
    ValueOfCharOf(v1);
    ValueOfCharOf(v2);
    Split16(v1, b0 % 4, b1 / 16);
    Split4(v2, b1 % 16, 0);
  }

  lemma DecodeThree(b0: Byte, b1: Byte, b2: Byte, last: bool)
    ensures DecodeGroup(EncodeGroup(b0, b1, b2), last) == Some([b0, b1, b2])
  {
    var v0, v1, v2, v3 := b0 / 4, b0 % 4 * 16 + b1 / 16, b1 % 16 * 4 + b2 / 64, b2 % 64;
    ValueOfCharOf(v0);
    ValueOfCharOf(v1);
    ValueOfCharOf(v2);
    ValueOfCharOf(v3);
    Split16(v1, b0 % 4, b1 / 16);
    Split4(v2, b1 % 16, b2 / 64);
  }

  /** A text of one group decodes as that group alone. */
  lemma DecodeSingleGroup(s: string)
    requires |s| == 4
    ensures Decode(s) == DecodeGroup(s, true)
  {
    assert s[..4] == s;
    assert Decode(s[4..]) == Some([]);
    match DecodeGroup(s, true)
    case None =>
    case Some(g) => assert g + [] == g;
  }

  /** One byte is one group with two padding characters. */
  lemma DecodeOne(b0: Byte)
    ensures Decode(Encode([b0])) == Some([b0])
  {
    DecodeSingleGroup(Encode([b0]));
    DecodeOneGroup(b0);
  }

  /** Two bytes are one group with one padding character. */
  lemma DecodeTwo(b0: Byte, b1: Byte)
    ensures Decode(Encode([b0, b1])) == Some([b0, b1])
  {
    DecodeSingleGroup(Encode([b0, b1]));
    DecodeTwoGroup(b0, b1);
  }

  /** A short tail is one padded group. */
  lemma DecodeEncodeTail(b: seq<Byte>)
    requires 1 <= |b| <= 2
    ensures Decode(Encode(b)) == Some(b)
  {
    if |b| == 1 {
      assert b == [b[0]];
      DecodeOne(b[0]);
    } else {
      assert b == [b[0], b[1]];
      DecodeTwo(b[0], b[1]);
    }
  }

  /** A full group followed by more text decodes group by group. */
  lemma DecodeFront(q: string, rest: string)
    requires |q| == 4 && |rest| > 0
    requires DecodeGroup(q, false).Some? && Decode(rest).Some?
    ensures Decode(q + rest) == Some(DecodeGroup(q, false).value + Decode(rest).value)
  {
    assert (q + rest)[..4] == q;
    assert (q + rest)[4..] == rest;
  }

  /** Three bytes or more: the first three make the first group. */
  lemma EncodeFront(b: seq<Byte>)
    requires |b| >= 3
    ensures Encode(b) == EncodeGroup(b[0], b[1], b[2]) + Encode(b[3..])
  {
  }

  /** Every byte string survives the round trip through its base 64 text. */
  lemma {:induction false} DecodeEncode(b: seq<Byte>)
    ensures Decode(Encode(b)) == Some(b)
    decreases |b|
  {
    if 1 <= |b| <= 2 {
      DecodeEncodeTail(b);
    } else if |b| >= 3 {
      var q := EncodeGroup(b[0], b[1], b[2]);
      EncodeFront(b);
      assert b == [b[0], b[1], b[2]] + b[3..];
      if |b| == 3 {
        assert Encode(b) == q + "";
        assert q + "" == q;
        DecodeSingleGroup(q);
        DecodeThree(b[0], b[1], b[2], true);
      } else {
        DecodeThree(b[0], b[1], b[2], false);
        DecodeEncode(b[3..]);
        DecodeFront(q, Encode(b[3..]));
      }
    }
  }
}
