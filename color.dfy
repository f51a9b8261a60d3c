/**
 * `parse_color`: a theme colour written as six hex digits, optionally
 * preceded by any number of '#' and surrounded by whitespace. The three
 * pairs are cut out of the string at BYTE offsets 0, 2, 4 and 6, as Rust
 * slices a `str`; a cut inside a multi-byte character panics, and the panic
 * is caught and read as "no colour".
 */
module Color {
  import opened Wrappers
  import opened Ints
  import opened Unicode

  datatype Rgb = Rgb(r: u8, g: u8, b: u8)

  /** `trim_start_matches('#')`: every leading '#' goes. */
  function StripHashes(s: string): (r: string)
    ensures |r| <= |s| && r == s[|s| - |r|..]
    ensures forall i :: 0 <= i < |s| - |r| ==> s[i] == '#'
    ensures r == [] || r[0] != '#'
  {
    if s != [] && s[0] == '#' then StripHashes(s[1..]) else s
  }

  /** What is left of the setting once it is trimmed and its '#'s are stripped. */
  function Remainder(value: string): string {
    StripHashes(Trim(value))
  }

  /** The character index at which `b` bytes of `s` end, if `b` falls on a character boundary. */
  function CharIndexOfByte(s: string, b: nat): (k: Option<nat>)
    ensures k.Some? ==> k.value <= |s| && ByteLen(s[..k.value]) == b
  {
    assert s[..|s|] == s;
    if ByteLen(s) == b then Some(|s|)
    else if s == [] then None
    else
      var p := s[..|s| - 1];
      var k := CharIndexOfByte(p, b);
      assert k.Some? ==> p[..k.value] == s[..k.value];
      k
  }

  /** `&s[from..to]` on byte offsets; None where Rust would panic. */
  function ByteSlice(s: string, from: nat, to: nat): (r: Option<string>)
    ensures r.Some? <==> (CharIndexOfByte(s, from).Some? && CharIndexOfByte(s, to).Some?
      && CharIndexOfByte(s, from).value <= CharIndexOfByte(s, to).value)
    ensures r.Some? ==> r.value == s[CharIndexOfByte(s, from).value..CharIndexOfByte(s, to).value]
  {
    match (CharIndexOfByte(s, from), CharIndexOfByte(s, to))
    case (Some(i), Some(j)) => if i <= j then Some(s[i..j]) else None
    case _ => None
  }

  /** `u8::from_str_radix(pair, 16)`. */
  function PairValue(pair: string): (r: Option<u8>)
    ensures r.Some? <==> ParseUnsigned(pair, 16, 255).Some?
    ensures r.Some? ==> r.value == ParseUnsigned(pair, 16, 255).value
  {
    match ParseUnsigned(pair, 16, 255)
    case Some(v) => Some(v)
    case None => None
  }

  /** The three byte slices `[0..2]`, `[2..4]`, `[4..6]`; None if one of them panics. */
  function Pairs(hex: string): (r: Option<(string, string, string)>)
    ensures r.Some? <==> ByteSlice(hex, 0, 2).Some? && ByteSlice(hex, 2, 4).Some? && ByteSlice(hex, 4, 6).Some?
    ensures r.Some? ==> r.value == (ByteSlice(hex, 0, 2).value, ByteSlice(hex, 2, 4).value, ByteSlice(hex, 4, 6).value)
  {
    match (ByteSlice(hex, 0, 2), ByteSlice(hex, 2, 4), ByteSlice(hex, 4, 6))
    case (Some(rs), Some(gs), Some(bs)) => Some((rs, gs, bs))
    case _ => None
  }

  /** The colour, when all three channels parsed. */
  function Channels(r: Option<u8>, g: Option<u8>, b: Option<u8>): Option<Rgb> {
    if r.Some? && g.Some? && b.Some? then Some(Rgb(r.value, g.value, b.value)) else None
  }

  /**
   * `parse_color` as written: the six-byte check, the three byte slices (a
   * panic is caught as None) and the three `from_str_radix` parses, in order.
   */
  function ParseColor(value: string): (c: Option<Rgb>)
    ensures c.Some? ==> ByteLen(Remainder(value)) == 6 && Pairs(Remainder(value)).Some?
  {
    var hex := Remainder(value);
    if ByteLen(hex) != 6 then None
    else
      match Pairs(hex)
      case Some((rs, gs, bs)) => Channels(PairValue(rs), PairValue(gs), PairValue(bs))
      case None => None
  }

  // ---------------------------------------------------------------------
  // Hex digits

  predicate IsHexDigit(c: char) {
    ('0' <= c <= '9') || ('a' <= c <= 'f') || ('A' <= c <= 'F')
  }

  function HexValue(c: char): (v: nat)
    requires IsHexDigit(c)
    ensures v < 16 && DigitValue(c, 16) == Some(v)
  {
    if '0' <= c <= '9' then (c as int) - ('0' as int)
    else if 'a' <= c <= 'f' then (c as int) - ('a' as int) + 10
    else (c as int) - ('A' as int) + 10
  }

  /** The colour six hex digits spell, two per channel, red first. */
  function Spelled(hex: string): (c: Rgb)
    requires |hex| == 6 && forall i :: 0 <= i < 6 ==> IsHexDigit(hex[i])
    ensures c.r == 16 * HexValue(hex[0]) + HexValue(hex[1])
    ensures c.g == 16 * HexValue(hex[2]) + HexValue(hex[3])
    ensures c.b == 16 * HexValue(hex[4]) + HexValue(hex[5])
  {
    Rgb(16 * HexValue(hex[0]) + HexValue(hex[1]),
        16 * HexValue(hex[2]) + HexValue(hex[3]),
        16 * HexValue(hex[4]) + HexValue(hex[5]))
  }

  // ---------------------------------------------------------------------
  // Facts about slicing and parsing

  lemma {:induction false} AsciiCharIndex(s: string, b: nat)
    requires AllAscii(s) && b <= |s|
    ensures CharIndexOfByte(s, b) == Some(b)
    decreases |s|
  {
    AsciiLengths(s);
    if |s| != b {
      var p := s[..|s| - 1];
      assert AllAscii(p) by {
        forall i | 0 <= i < |p| ensures IsAscii(p[i]) {
          assert p[i] == s[i];
        }
      }
      AsciiCharIndex(p, b);
    }
  }

  lemma AsciiByteSlice(s: string, from: nat, to: nat)
    requires AllAscii(s) && from <= to <= |s|
    ensures ByteSlice(s, from, to) == Some(s[from..to])
  {
    AsciiCharIndex(s, from);
    AsciiCharIndex(s, to);
  }

  /** A byte count of zero ends at character zero. */
  lemma {:induction false} ZeroBytesAtStart(s: string)
    ensures CharIndexOfByte(s, 0) == Some(0)
    decreases |s|
  {
    LengthBounds(s);
    if s != [] {
      ZeroBytesAtStart(s[..|s| - 1]);
    }
  }

  /** The whole byte length ends at the last character. */
  lemma AllBytesAtEnd(s: string)
    ensures CharIndexOfByte(s, ByteLen(s)) == Some(|s|)
  {
  }

  lemma {:induction false} DigitsAreAscii(s: string, radix: nat)
    requires 2 <= radix <= 36 && DigitsValue(s, radix).Some?
    ensures AllAscii(s)
    decreases |s|
  {
    if s != [] {
      var p := s[..|s| - 1];
      DigitsAreAscii(p, radix);
      forall i | 0 <= i < |s| ensures IsAscii(s[i]) {
        if i < |p| {
          assert s[i] == p[i];
        }
      }
    }
  }

  /** Whatever `from_str_radix` accepts is ASCII: a sign and digits. */
  lemma ParsedIsAscii(s: string)
    requires PairValue(s).Some?
    ensures AllAscii(s) && s != []
  {
    if s[0] == '+' {
      DigitsAreAscii(s[1..], 16);
      forall i | 0 <= i < |s| ensures IsAscii(s[i]) {
        if i > 0 {
          assert s[i] == s[1..][i - 1];
        }
      }
    } else {
      DigitsAreAscii(s, 16);
    }
  }

  lemma TwoDigits(p: string)
    requires |p| == 2 && IsHexDigit(p[0]) && IsHexDigit(p[1])
    ensures PairValue(p) == Some(16 * HexValue(p[0]) + HexValue(p[1]))
  {
    assert p[..1][..0] == [];
    assert p[..1] == [p[0]];
    assert DigitsValue(p[..1], 16) == Some(HexValue(p[0]));
  }

  lemma ThreeSlices(s: string, a: nat, b: nat)
    requires a <= b <= |s|
    ensures s[0..a] + s[a..b] + s[b..|s|] == s
  {
  }

  /** When all three slices are cut, they are the remainder in three pieces. */
  lemma PairsCover(hex: string)
    requires ByteLen(hex) == 6 && Pairs(hex).Some?
    ensures Pairs(hex).value.0 + Pairs(hex).value.1 + Pairs(hex).value.2 == hex
  {
    ZeroBytesAtStart(hex);
    AllBytesAtEnd(hex);
    var i2 := CharIndexOfByte(hex, 2).value;
    var i4 := CharIndexOfByte(hex, 4).value;
    var (rs, gs, bs) := Pairs(hex).value;
    assert rs == hex[0..i2] && gs == hex[i2..i4] && bs == hex[i4..|hex|];
    ThreeSlices(hex, i2, i4);
  }

  /** `parse_color` accepts only a remainder of six ASCII characters: a
      character outside ASCII either breaks a slice or fails its parse. */
  lemma AcceptedRemainderIsAscii(value: string)
    requires ParseColor(value).Some?
    ensures AllAscii(Remainder(value)) && |Remainder(value)| == 6
  {
    var hex := Remainder(value);
    var (rs, gs, bs) := Pairs(hex).value;
    PairsCover(hex);
    ParsedIsAscii(rs);
    ParsedIsAscii(gs);
    ParsedIsAscii(bs);
    AsciiAppend(rs, gs);
    AsciiAppend(rs + gs, bs);
    AsciiLengths(hex);
  }

  /** On six ASCII characters the three slices are the three pairs. */
  lemma AsciiPairs(hex: string)
    requires AllAscii(hex) && |hex| == 6
    ensures ByteLen(hex) == 6
    ensures Pairs(hex) == Some((hex[0..2], hex[2..4], hex[4..6]))
  {
    AsciiLengths(hex);
    AsciiByteSlice(hex, 0, 2);
    AsciiByteSlice(hex, 2, 4);
    AsciiByteSlice(hex, 4, 6);
  }

  /** Six hex digits, in either case, give the colour they spell. */
  lemma HexDigitsParse(value: string)
    requires |Remainder(value)| == 6
    requires forall i :: 0 <= i < 6 ==> IsHexDigit(Remainder(value)[i])
    ensures ParseColor(value) == Some(Spelled(Remainder(value)))
  {
    var hex := Remainder(value);
    assert AllAscii(hex);
    AsciiPairs(hex);
    TwoDigits(hex[0..2]);
    TwoDigits(hex[2..4]);
    TwoDigits(hex[4..6]);
  }

  // ---------------------------------------------------------------------
  // Whitespace and '#' around the digits

  function Hashes(k: nat): (s: string)
    ensures |s| == k && forall i :: 0 <= i < k ==> s[i] == '#'
  {
    if k == 0 then [] else ['#'] + Hashes(k - 1)
  }

  predicate AllWhitespace(s: string) {
    forall i :: 0 <= i < |s| ==> IsWhitespace(s[i])
  }

  lemma {:induction false} LeadingWhitespaceOfPadded(ws: string, t: string)
    requires AllWhitespace(ws) && t != [] && !IsWhitespace(t[0])
    ensures LeadingWhitespace(ws + t) == |ws|
    decreases |ws|
  {
    if ws == [] {
      assert ws + t == t;
    } else {
      assert (ws + t)[1..] == ws[1..] + t;
      LeadingWhitespaceOfPadded(ws[1..], t);
    }
  }

  lemma {:induction false} TrailingWhitespaceOfPadded(t: string, ws: string)
    requires AllWhitespace(ws) && t != [] && !IsWhitespace(t[|t| - 1])
    ensures TrailingWhitespace(t + ws) == |ws|
    decreases |ws|
  {
    if ws == [] {
      assert t + ws == t;
    } else {
      var w := ws[..|ws| - 1];
      assert (t + ws)[..|t + ws| - 1] == t + w;
      TrailingWhitespaceOfPadded(t, w);
    }
  }

  lemma {:induction false} StripHashesOf(k: nat, hex: string)
    requires hex != [] && hex[0] != '#'
    ensures StripHashes(Hashes(k) + hex) == hex
    decreases k
  {
    if k > 0 {
      assert (Hashes(k) + hex)[1..] == Hashes(k - 1) + hex;
      StripHashesOf(k - 1, hex);
    } else {
      assert Hashes(0) + hex == hex;
    }
  }

  /** `trim` removes exactly the whitespace padding around a word that starts and ends with non-whitespace. */
  lemma TrimOfPadded(before: string, mid: string, after: string)
    requires AllWhitespace(before) && AllWhitespace(after)
    requires mid != [] && !IsWhitespace(mid[0]) && !IsWhitespace(mid[|mid| - 1])
    ensures Trim(before + mid + after) == mid
  {
    var s := before + mid + after;
    assert s == before + (mid + after);
    LeadingWhitespaceOfPadded(before, mid + after);
    var t := s[|before|..];
    assert t == mid + after;
    TrailingWhitespaceOfPadded(mid, after);
    assert t[..|t| - |after|] == mid;
  }

  /** Whitespace on either side and any run of '#' in front leave just the digits. */
  lemma PaddingIgnored(before: string, k: nat, hex: string, after: string)
    requires AllWhitespace(before) && AllWhitespace(after)
    requires hex != [] && hex[0] != '#' && !IsWhitespace(hex[0]) && !IsWhitespace(hex[|hex| - 1])
    ensures Remainder(before + Hashes(k) + hex + after) == hex
  {
    var mid := Hashes(k) + hex;
    HashedDigits(k, hex);
    PaddedRemainder(before, mid, after);
    Regroup(before, Hashes(k), hex, after);
  }

  /** Regrouping a four-part concatenation around its middle two parts. */
  lemma Regroup(a: string, b: string, c: string, d: string)
    ensures a + b + c + d == a + (b + c) + d
  {
    assert a + b + c == a + (b + c);
  }

  /** Trimming a padded setting leaves its middle, and the remainder strips that middle's '#'s. */
  lemma PaddedRemainder(before: string, mid: string, after: string)
    requires AllWhitespace(before) && AllWhitespace(after)
    requires mid != [] && !IsWhitespace(mid[0]) && !IsWhitespace(mid[|mid| - 1])
    ensures Remainder(before + mid + after) == StripHashes(mid)
  {
    TrimOfPadded(before, mid, after);
  }

  /** '#'s in front of the digits: neither end is whitespace, and stripping leaves the digits. */
  lemma HashedDigits(k: nat, hex: string)
    requires hex != [] && hex[0] != '#' && !IsWhitespace(hex[0]) && !IsWhitespace(hex[|hex| - 1])
    ensures var mid := Hashes(k) + hex;
      mid != [] && !IsWhitespace(mid[0]) && !IsWhitespace(mid[|mid| - 1]) && StripHashes(mid) == hex
  {
    var mid := Hashes(k) + hex;
    if k > 0 {
      assert mid[0] == '#';
    } else {
      assert mid[0] == hex[0];
    }
    assert mid[|mid| - 1] == hex[|hex| - 1];
    StripHashesOf(k, hex);
  }

  // ---------------------------------------------------------------------
  // The sign that slips through

  /** `u8::from_str_radix` reads a '+' followed by one hex digit as that digit. */
  lemma SignedPair(d: char)
    requires IsHexDigit(d)
    ensures PairValue(['+', d]) == Some(HexValue(d))
  {
    var p := ['+', d];
    assert p[1..] == [d];
    assert [d][..0] == [];
    assert DigitValue(d, 16) == Some(HexValue(d));
    assert DigitsValue([d], 16) == Some(HexValue(d));
  }

  /** A setting that starts with '+' and ends in a hex digit has nothing to trim or strip. */
  lemma SignedRemainder(v: string)
    requires |v| == 6 && v[0] == '+' && IsHexDigit(v[5])
    ensures Remainder(v) == v
  {
    assert LeadingWhitespace(v) == 0;
    assert v[0..] == v;
    assert TrailingWhitespace(v) == 0;
    assert v[..6] == v;
  }

  /** As written, each pair goes to `from_str_radix`, which takes a leading
      '+': three signed hex digits are read as a colour, "+f+f+f" as
      Rgb(15, 15, 15). */
  lemma SignedPairsAccepted(a: char, b: char, c: char)
    requires IsHexDigit(a) && IsHexDigit(b) && IsHexDigit(c)
    ensures ParseColor(['+', a, '+', b, '+', c]) == Some(Rgb(HexValue(a), HexValue(b), HexValue(c)))
  {
    var v := ['+', a, '+', b, '+', c];
    SignedRemainder(v);
    assert AllAscii(v) by {
      forall i | 0 <= i < 6 ensures IsAscii(v[i]) {
      }
    }
    AsciiPairs(v);
    assert v[0..2] == ['+', a] && v[2..4] == ['+', b] && v[4..6] == ['+', c];
    SignedPair(a);
    SignedPair(b);
    SignedPair(c);
  }

  /** A pair of exactly two hex digits, and nothing else. */
  function StrictPair(p: string): (r: Option<u8>)
    ensures r.Some? <==> |p| == 2 && IsHexDigit(p[0]) && IsHexDigit(p[1])
    ensures r.Some? ==> r.value == 16 * HexValue(p[0]) + HexValue(p[1])
  {
    if |p| == 2 && IsHexDigit(p[0]) && IsHexDigit(p[1]) then Some(16 * HexValue(p[0]) + HexValue(p[1]))
    else None
  }

  /** `parse_color` as its warning ("expected 6 hex digits") describes it:
      the same steps with the strict pair parser. */
  function ParseColorStrict(value: string): (c: Option<Rgb>)
    ensures c.Some? ==> ByteLen(Remainder(value)) == 6 && Pairs(Remainder(value)).Some?
  {
    var hex := Remainder(value);
    if ByteLen(hex) != 6 then None
    else
      match Pairs(hex)
      case Some((rs, gs, bs)) => Channels(StrictPair(rs), StrictPair(gs), StrictPair(bs))
      case None => None
  }

  /** The strict parser accepts exactly six hex digits and reads them pair by pair. */
  lemma StrictAcceptsExactlyHexDigits(value: string)
    ensures ParseColorStrict(value).Some? <==>
      |Remainder(value)| == 6 && forall i :: 0 <= i < 6 ==> IsHexDigit(Remainder(value)[i])
    ensures ParseColorStrict(value).Some? ==> ParseColorStrict(value) == Some(Spelled(Remainder(value)))
  {
    var hex := Remainder(value);
    if ParseColorStrict(value).Some? {
      StrictAcceptedIsHex(value);
    }
    if |hex| == 6 && forall i :: 0 <= i < 6 ==> IsHexDigit(hex[i]) {
      HexAcceptedByStrict(value);
    }
  }

  /** What the strict parser accepts is six hex digits, read pair by pair. */
  lemma StrictAcceptedIsHex(value: string)
    requires ParseColorStrict(value).Some?
    ensures |Remainder(value)| == 6 && forall i :: 0 <= i < 6 ==> IsHexDigit(Remainder(value)[i])
    ensures ParseColorStrict(value) == Some(Spelled(Remainder(value)))
  {
    var hex := Remainder(value);
    var (rs, gs, bs) := Pairs(hex).value;
    assert StrictPair(rs).Some? && StrictPair(gs).Some? && StrictPair(bs).Some?;
    PairsCover(hex);
    HexPieces(hex, rs, gs, bs);
  }

  /** Three pairs of hex digits that make up a string spell its colour. */
  lemma HexPieces(hex: string, rs: string, gs: string, bs: string)
    requires hex == rs + gs + bs
    requires |rs| == 2 && IsHexDigit(rs[0]) && IsHexDigit(rs[1])
    requires |gs| == 2 && IsHexDigit(gs[0]) && IsHexDigit(gs[1])
    requires |bs| == 2 && IsHexDigit(bs[0]) && IsHexDigit(bs[1])
    ensures |hex| == 6 && forall i :: 0 <= i < 6 ==> IsHexDigit(hex[i])
    ensures Spelled(hex) == Rgb(StrictPair(rs).value, StrictPair(gs).value, StrictPair(bs).value)
  {
    assert hex[0] == rs[0] && hex[1] == rs[1];
    assert hex[2] == gs[0] && hex[3] == gs[1];
    assert hex[4] == bs[0] && hex[5] == bs[1];
  }

  /** Six hex digits pass the strict parser. */
  lemma HexAcceptedByStrict(value: string)
    requires |Remainder(value)| == 6 && forall i :: 0 <= i < 6 ==> IsHexDigit(Remainder(value)[i])
    ensures ParseColorStrict(value).Some?
  {
    var hex := Remainder(value);
    assert AllAscii(hex);
    AsciiPairs(hex);
    assert StrictPair(hex[0..2]).Some?;
    assert StrictPair(hex[2..4]).Some?;
    assert StrictPair(hex[4..6]).Some?;
  }

  /** The correction changes nothing for six hex digits ... */
  lemma StrictAgreesOnHexDigits(value: string)
    requires |Remainder(value)| == 6
    requires forall i :: 0 <= i < 6 ==> IsHexDigit(Remainder(value)[i])
    ensures ParseColorStrict(value) == ParseColor(value)
  {
    HexDigitsParse(value);
    StrictAcceptsExactlyHexDigits(value);
  }

  /** ... and refuses any setting with a sign left after trimming and stripping. */
  lemma StrictRejectsSign(value: string)
    requires '+' in Remainder(value)
    ensures ParseColorStrict(value) == None
  {
    StrictAcceptsExactlyHexDigits(value);
    var i :| 0 <= i < |Remainder(value)| && Remainder(value)[i] == '+';
    assert !IsHexDigit(Remainder(value)[i]);
  }
}
