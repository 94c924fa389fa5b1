/** The base 64 encoding of section 4 of RFC 4648 (alphabet `A-Z a-z 0-9 + /`,
    `=` padding), which Node's `Buffer.toString("base64")` produces. */
module Base64 {
  import opened Wrappers

  newtype byte = x: int | 0 <= x < 256

  type Index = i: int | 0 <= i < 64

  /** The character of a 6-bit value (Table 1 of RFC 4648). */
  function CharOf(i: Index): (c: char)
    ensures IsBase64Char(c) && IndexOf(c) == i
  {
    if i < 26 then ('A' as int + i) as char
    else if i < 52 then ('a' as int + (i - 26)) as char
    else if i < 62 then ('0' as int + (i - 52)) as char
    else if i == 62 then '+'
    else '/'
  }

  predicate IsBase64Char(c: char)
  {
    'A' <= c <= 'Z' || 'a' <= c <= 'z' || '0' <= c <= '9' || c == '+' || c == '/'
  }

  function IndexOf(c: char): Index
    requires IsBase64Char(c)
  {
    if 'A' <= c <= 'Z' then c as int - 'A' as int
    else if 'a' <= c <= 'z' then c as int - 'a' as int + 26
    else if '0' <= c <= '9' then c as int - '0' as int + 52
    else if c == '+' then 62
    else 63
  }

  /** Three bytes become four characters. */
  function EncodeGroup(b0: byte, b1: byte, b2: byte): string
  {
    [ CharOf(b0 as int / 4), CharOf((b0 as int % 4) * 16 + b1 as int / 16),
      CharOf((b1 as int % 16) * 4 + b2 as int / 64), CharOf(b2 as int % 64) ]
  }

  /** The encoding of a buffer: whole groups of three bytes, then a final
      group of one or two bytes padded with `=` to four characters. */
  function Encode(b: seq<byte>): (s: string)
    ensures |s| == (|b| + 2) / 3 * 4
    ensures forall i :: 0 <= i < |s| ==> IsBase64Char(s[i]) || s[i] == '='
  {
    if |b| == 0 then ""
    else if |b| == 1 then
      [CharOf(b[0] as int / 4), CharOf((b[0] as int % 4) * 16), '=', '=']
    else if |b| == 2 then
      [CharOf(b[0] as int / 4), CharOf((b[0] as int % 4) * 16 + b[1] as int / 16),
       CharOf((b[1] as int % 16) * 4), '=']
    else EncodeGroup(b[0], b[1], b[2]) + Encode(b[3..])
  }

  /** The inverse of `Encode`: `None` for text that is not a padded encoding. */
  function Decode(s: string): Option<seq<byte>>
    decreases |s|
  {
    if |s| == 0 then Some([])
    else if |s| < 4 || !IsBase64Char(s[0]) || !IsBase64Char(s[1]) then None
    else
      var c0, c1 := IndexOf(s[0]), IndexOf(s[1]);
      var b0 := (c0 * 4 + c1 / 16) as byte;
      if |s| == 4 && s[2] == '=' && s[3] == '=' then Some([b0])
      else if !IsBase64Char(s[2]) then None
      else
        var c2 := IndexOf(s[2]);
        var b1 := ((c1 % 16) * 16 + c2 / 4) as byte;
        if |s| == 4 && s[3] == '=' then Some([b0, b1])
        else if !IsBase64Char(s[3]) then None
        else
          var b2 := ((c2 % 4) * 64 + IndexOf(s[3])) as byte;
          match Decode(s[4..])
          case None => None
          case Some(rest) => Some([b0, b1, b2] + rest)
  }

  lemma GroupRoundTrip(b0: byte, b1: byte, b2: byte)
    ensures var c0, c1 := b0 as int / 4, (b0 as int % 4) * 16 + b1 as int / 16;
            var c2, c3 := (b1 as int % 16) * 4 + b2 as int / 64, b2 as int % 64;
            c0 * 4 + c1 / 16 == b0 as int
            && (c1 % 16) * 16 + c2 / 4 == b1 as int
            && (c2 % 4) * 64 + c3 == b2 as int
  {
  }

  lemma DecodeOneByte(b0: byte)
    ensures Decode(Encode([b0])) == Some([b0])
  {
    GroupRoundTrip(b0, 0, 0);
  }

  lemma DecodeTwoBytes(b0: byte, b1: byte)
    ensures Decode(Encode([b0, b1])) == Some([b0, b1])
  {
    GroupRoundTrip(b0, b1, 0);
    var s := Encode([b0, b1]);
    var c2 := (b1 as int % 16) * 4;
    assert s[2] == CharOf(c2) && IsBase64Char(s[2]) && IndexOf(s[2]) == c2;
    assert s[2] != '=' && s[3] == '=';
  }

  lemma DecodeGroupThen(b0: byte, b1: byte, b2: byte, t: string)
    ensures Decode(EncodeGroup(b0, b1, b2) + t)
         == match Decode(t) case None => None case Some(rest) => Some([b0, b1, b2] + rest)
  {
    GroupRoundTrip(b0, b1, b2);
    var s := EncodeGroup(b0, b1, b2) + t;
    assert s[4..] == t;
    assert s[2] != '=' && s[3] != '=';
  }

  /** Decoding an encoding gives back the buffer. */
  lemma {:induction false} DecodeEncode(b: seq<byte>)
    ensures Decode(Encode(b)) == Some(b)
    decreases |b|
  {
    if |b| == 0 {
    } else if |b| == 1 {
      assert b == [b[0]];
      DecodeOneByte(b[0]);
    } else if |b| == 2 {
      assert b == [b[0], b[1]];
      DecodeTwoBytes(b[0], b[1]);
    } else {
      DecodeEncode(b[3..]);
      assert Encode(b) == EncodeGroup(b[0], b[1], b[2]) + Encode(b[3..]);
      DecodeGroupThen(b[0], b[1], b[2], Encode(b[3..]));
      assert b == [b[0], b[1], b[2]] + b[3..];
    }
  }
}
