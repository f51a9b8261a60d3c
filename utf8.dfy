/**
 * UTF-8 as the Rust standard library implements it: `str::as_bytes` (encoding)
 * and `String::from_utf8` (decoding, which refuses every ill-formed sequence:
 * overlong forms, surrogates, code points above U+10FFFF, truncated and stray
 * continuation bytes). The well-formed byte ranges are those of Table 3-7 of
 * the Unicode Standard, chapter 3.
 */
module Utf8 {
  import opened Wrappers
  import opened Unicode

  newtype byte = b: int | 0 <= b < 256

  predicate IsContinuation(b: byte) {
    0x80 <= b <= 0xBF
  }

  /** The UTF-8 bytes of one character. */
  function EncodeChar(c: char): (bs: seq<byte>)
    ensures |bs| == Utf8Len(c)
  {
    var x := c as int;
    if x < 0x80 then [x as byte]
    else if x < 0x800 then [(0xC0 + x / 64) as byte, (0x80 + x % 64) as byte]
    else if x < 0x10000 then
      [(0xE0 + x / 4096) as byte, (0x80 + (x / 64) % 64) as byte, (0x80 + x % 64) as byte]
    else
      [(0xF0 + x / 262144) as byte, (0x80 + (x / 4096) % 64) as byte,
       (0x80 + (x / 64) % 64) as byte, (0x80 + x % 64) as byte]
  }

  /** `str::as_bytes`. */
  function Encode(s: string): seq<byte>
  {
    if s == [] then [] else Encode(s[..|s| - 1]) + EncodeChar(s[|s| - 1])
  }

  /** The first character of a byte sequence and the number of bytes it takes,
      or None when the sequence does not start with a well-formed character. */
  function DecodeChar(bs: seq<byte>): (r: Option<(char, nat)>)
    ensures r.Some? ==> 1 <= r.value.1 <= |bs| && r.value.1 == Utf8Len(r.value.0)
  {
    if bs == [] then None
    else
      var b0 := bs[0];
      if b0 < 0x80 then Some(((b0 as int) as char, 1))
      else if 0xC2 <= b0 <= 0xDF then
        if |bs| >= 2 && IsContinuation(bs[1]) then
          Some((((b0 as int - 0xC0) * 64 + (bs[1] as int - 0x80)) as char, 2))
        else None
      else if 0xE0 <= b0 <= 0xEF then
        if |bs| >= 3 && IsContinuation(bs[1]) && IsContinuation(bs[2])
           && (b0 != 0xE0 || bs[1] >= 0xA0) && (b0 != 0xED || bs[1] <= 0x9F)
        then
          var x := (b0 as int - 0xE0) * 4096 + (bs[1] as int - 0x80) * 64 + (bs[2] as int - 0x80);
          Some((x as char, 3))
        else None
      else if 0xF0 <= b0 <= 0xF4 then
        if |bs| >= 4 && IsContinuation(bs[1]) && IsContinuation(bs[2]) && IsContinuation(bs[3])
           && (b0 != 0xF0 || bs[1] >= 0x90) && (b0 != 0xF4 || bs[1] <= 0x8F)
        then
          var x := (b0 as int - 0xF0) * 262144 + (bs[1] as int - 0x80) * 4096
                   + (bs[2] as int - 0x80) * 64 + (bs[3] as int - 0x80);
          Some((x as char, 4))
        else None
      else None
  }

  /** `String::from_utf8`: the decoded text, or None when the bytes are not UTF-8. */
  function Decode(bs: seq<byte>): Option<string>
    decreases |bs|
  {
    if bs == [] then Some([])
    else
      match DecodeChar(bs)
      case None => None
      case Some((c, n)) =>
        match Decode(bs[n..])
        case None => None
        case Some(rest) => Some([c] + rest)
  }

  lemma {:induction false} EncodeLength(s: string)
    ensures |Encode(s)| == ByteLen(s)
  {
    if s != [] {
      EncodeLength(s[..|s| - 1]);
    }
  }

  lemma {:induction false} EncodeAppend(a: string, b: string)
    ensures Encode(a + b) == Encode(a) + Encode(b)
    decreases |b|
  {
    if b == [] {
      assert a + b == a;
    } else {
      var b' := b[..|b| - 1];
      assert (a + b)[..|a + b| - 1] == a + b';
      EncodeAppend(a, b');
    }
  }

  /** Decoding the first character of an encoding gives that character back. */
  lemma DecodeCharOfEncoding(c: char, rest: seq<byte>)
    ensures DecodeChar(EncodeChar(c) + rest) == Some((c, Utf8Len(c)))
  {
    var x := c as int;
    if x >= 0x80 && x < 0x800 {
      DecodeTwo(c, rest);
    } else if x >= 0x800 && x < 0x10000 {
      DecodeThree(c, rest);
    } else if x >= 0x10000 {
      DecodeFour(c, rest);
    }
  }

  lemma DecodeTwo(c: char, rest: seq<byte>)
    requires 0x80 <= c as int < 0x800
    ensures DecodeChar(EncodeChar(c) + rest) == Some((c, 2))
  {
    var x := c as int;
    assert x == (x / 64) * 64 + x % 64;
  }

  lemma DecodeThree(c: char, rest: seq<byte>)
    requires 0x800 <= c as int < 0x10000
    ensures DecodeChar(EncodeChar(c) + rest) == Some((c, 3))
  {
    var x := c as int;
    assert x == (x / 4096) * 4096 + ((x / 64) % 64) * 64 + x % 64;
  }

  lemma DecodeFour(c: char, rest: seq<byte>)
    requires 0x10000 <= c as int
    ensures DecodeChar(EncodeChar(c) + rest) == Some((c, 4))
  {
    var x := c as int;
    assert x == (x / 262144) * 262144 + ((x / 4096) % 64) * 4096 + ((x / 64) % 64) * 64 + x % 64;
  }

  /** Encoding then decoding a string gives it back. */
  lemma {:induction false} DecodeEncode(s: string)
    ensures Decode(Encode(s)) == Some(s)
    decreases |s|
  {
    if s != [] {
      EncodeAppend([s[0]], s[1..]);
      assert [s[0]] + s[1..] == s;
      assert Encode([s[0]]) == EncodeChar(s[0]) by {
        assert [s[0]][..0] == [];
      }
      DecodeCharOfEncoding(s[0], Encode(s[1..]));
      var bs := Encode(s);
      assert bs[Utf8Len(s[0])..] == Encode(s[1..]);
      DecodeEncode(s[1..]);
    }
  }

  /** The bytes of an ASCII text are its character codes. */
  lemma {:induction false} EncodeAscii(s: string)
    requires AllAscii(s)
    ensures |Encode(s)| == |s|
    ensures forall i :: 0 <= i < |s| ==> Encode(s)[i] as int == s[i] as int
  {
    if s != [] {
      EncodeAscii(s[..|s| - 1]);
    }
  }
}
