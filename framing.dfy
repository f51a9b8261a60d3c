/**
 * Message framing of the LSP client: the header part of the LSP Base
 * Protocol ("Content-Length: n\r\n\r\n" then n bytes of JSON) as
 * `send_message` writes it, and the header/body reading of the message
 * handler as it is written.
 *
 * The handler reads the body right after the Content-Length line, without
 * first reading the blank line that ends the header part, so what it takes
 * for the body is that blank line's CR LF and the body without its last two
 * bytes. `FixedDecodeFrame` reads the header part up to the blank line first
 * and does return what was framed.
 */
module Framing {
  import opened Wrappers
  import opened Unicode
  import opened Ints
  import opened Utf8

  const ContentLengthPrefix: string := "Content-Length: "

  /** "Content-Length: <n>\r\n". */
  function HeaderLine(n: nat): (h: string)
    ensures AllAscii(h) && |h| > 2
  {
    AsciiAppend(ContentLengthPrefix, Decimal(n));
    AsciiAppend(ContentLengthPrefix + Decimal(n), "\r\n");
    ContentLengthPrefix + Decimal(n) + "\r\n"
  }

  /** The bytes of an ASCII text, one per character. */
  function AsciiBytes(s: string): (bs: seq<byte>)
    requires AllAscii(s)
    ensures |bs| == |s|
    ensures forall i :: 0 <= i < |s| ==> bs[i] as int == s[i] as int
  {
    seq(|s|, i requires 0 <= i < |s| => (s[i] as int) as byte)
  }

  /** On ASCII text `as_bytes` gives one byte per character. */
  lemma AsciiBytesAreEncoding(s: string)
    requires AllAscii(s)
    ensures Encode(s) == AsciiBytes(s)
    ensures Decode(AsciiBytes(s)) == Some(s)
  {
    EncodeAscii(s);
    DecodeEncode(s);
  }

  /** `send_message`: the header `Content-Length: <len>` and two CRLFs, then the JSON text
      as bytes. The header part is ASCII. */
  function Frame(json: string): seq<byte>
  {
    AsciiBytes(HeaderLine(ByteLen(json))) + [13, 10] + Encode(json)
  }

  /** The header announces exactly the number of JSON bytes that follow the blank line. */
  lemma FrameAnnouncesBodyLength(json: string)
    ensures |Frame(json)| == |HeaderLine(ByteLen(json))| + 2 + ByteLen(json)
    ensures Frame(json)[|Frame(json)| - ByteLen(json)..] == Encode(json)
  {
    EncodeLength(json);
  }

  // ---------------------------------------------------------------------
  // Reading

  /** What one pass of the header loop ends with. */
  datatype FrameOutcome =
    | Message(text: string, rest: seq<byte>)  // Ok(Some(text)); `rest` is what is left unread
    | EndOfHeaders                            // a blank line: Ok(None)
    | ReadError                               // `read_line` failed (not UTF-8): Ok(None)
    | TimedOut                                // the stream ran dry: the 30 s timeout, Err

  /** One turn of a header loop: finished, or go on after `consumed` bytes. */
  datatype Step = Done(outcome: FrameOutcome) | Continue(consumed: nat)

  /** The index of the first LF at or after `from`, or `|bs|`. */
  function NewlineIndex(bs: seq<byte>, from: nat): (i: nat)
    requires from <= |bs|
    ensures from <= i <= |bs|
    ensures i < |bs| ==> bs[i] == 10
    ensures forall k :: from <= k < i ==> bs[k] != 10
    decreases |bs| - from
  {
    if from == |bs| || bs[from] == 10 then from else NewlineIndex(bs, from + 1)
  }

  /** `read_line`: the bytes up to and including the first LF, or all of them. */
  function LineLength(bs: seq<byte>): (n: nat)
    ensures n <= |bs|
    ensures bs != [] ==> 1 <= n
  {
    var i := NewlineIndex(bs, 0);
    if i < |bs| then i + 1 else |bs|
  }

  /** The value of a Content-Length header line: `strip_prefix`, `trim`, `parse::<usize>`. */
  function ContentLengthValue(line: string): Option<nat>
  {
    if StartsWith(line, ContentLengthPrefix) then
      ParseUnsigned(Trim(line[|ContentLengthPrefix|..]), 10, USIZE_MAX)
    else None
  }

  /** One turn of the handler's header loop, as written: a blank line ends it;
      a Content-Length line reads that many bytes at once and returns them if
      they are UTF-8; any other line is skipped. */
  function DecodeStep(bs: seq<byte>): (r: Step)
    requires bs != []
    ensures r.Continue? ==> 0 < r.consumed <= |bs|
    ensures r.Done? && r.outcome.Message? ==> |r.outcome.rest| < |bs|
  {
    var n := LineLength(bs);
    var rest := bs[n..];
    match Decode(bs[..n])
    case None => Done(ReadError)
    case Some(line) =>
      if line == "\r\n" || line == "\n" then Done(EndOfHeaders)
      else
        match ContentLengthValue(line)
        case None => Continue(n)
        case Some(len) =>
          if |rest| < len then Done(TimedOut)
          else
            match Decode(rest[..len])
            case Some(text) => Done(Message(text, rest[len..]))
            case None => Continue(n + len)
  }

  /** The header/body loop of the message handler, as written. */
  function DecodeFrame(bs: seq<byte>): (r: FrameOutcome)
    ensures r.Message? ==> |r.rest| < |bs|
    decreases |bs|
  {
    if bs == [] then TimedOut
    else
      match DecodeStep(bs)
      case Done(r) => r
      case Continue(k) => DecodeFrame(bs[k..])
  }

  lemma DecodeFrameStep(bs: seq<byte>)
    requires bs != []
    ensures DecodeStep(bs).Done? ==> DecodeFrame(bs) == DecodeStep(bs).outcome
    ensures DecodeStep(bs).Continue? ==> DecodeFrame(bs) == DecodeFrame(bs[DecodeStep(bs).consumed..])
  {
  }

  /** The header/body loop as a loop over the stream. */
  method ReadFrame(stream: seq<byte>) returns (r: FrameOutcome)
    ensures r == DecodeFrame(stream)
  {
    var pos := 0;
    assert stream[pos..] == stream;
    while true
      invariant pos <= |stream|
      invariant DecodeFrame(stream[pos..]) == DecodeFrame(stream)
      decreases |stream| - pos
    {
      if pos == |stream| {
        assert stream[pos..] == [];
        return TimedOut;
      }
      var step, next := ReadTurn(stream, pos);
      if step.Done? {
        return step.outcome;
      }
      pos := next;
    }
  }

  /** One turn of the header loop at `pos`: either the outcome of the whole
      frame, or the position the next turn starts at. */
  method ReadTurn(stream: seq<byte>, pos: nat) returns (step: Step, next: nat)
    requires pos < |stream|
    ensures step.Done? ==> step.outcome == DecodeFrame(stream[pos..])
    ensures step.Continue? ==> pos < next <= |stream| && DecodeFrame(stream[next..]) == DecodeFrame(stream[pos..])
  {
    step := DecodeStep(stream[pos..]);
    ReadFrameStep(stream, pos, step);
    next := if step.Continue? then pos + step.consumed else pos;
  }

  /** One turn of the loop at `pos`: a finished turn is the frame's outcome,
      and otherwise the frame is the one after the bytes the turn consumed. */
  lemma ReadFrameStep(stream: seq<byte>, pos: nat, step: Step)
    requires pos < |stream| && step == DecodeStep(stream[pos..])
    ensures step.Done? ==> DecodeFrame(stream[pos..]) == step.outcome
    ensures step.Continue? ==>
      pos + step.consumed <= |stream| && DecodeFrame(stream[pos + step.consumed..]) == DecodeFrame(stream[pos..])
  {
    var rest := stream[pos..];
    DecodeFrameStep(rest);
    if step.Continue? {
      assert rest[step.consumed..] == stream[pos + step.consumed..];
    }
  }

  // ---------------------------------------------------------------------
  // What the header loop makes of particular inputs

  lemma NewlineAt(bs: seq<byte>, i: nat)
    requires i < |bs| && bs[i] == 10
    requires forall k :: 0 <= k < i ==> bs[k] != 10
    ensures NewlineIndex(bs, 0) == i
  {
  }

  lemma BlankLineLength(rest: seq<byte>)
    ensures LineLength([13, 10] + rest) == 2
    ensures LineLength([10] + rest) == 1
  {
    var crlf: seq<byte> := [13, 10];
    NewlineAt(crlf + rest, 1);
    var lf: seq<byte> := [10];
    NewlineAt(lf + rest, 0);
  }

  /** The header loop's turn once the line it reads is known. */
  lemma StepOnLine(bs: seq<byte>, n: nat, line: string)
    requires bs != [] && LineLength(bs) == n && Decode(bs[..n]) == Some(line)
    ensures DecodeStep(bs)
         == if line == "\r\n" || line == "\n" then Done(EndOfHeaders)
            else match ContentLengthValue(line)
                 case None => Continue(n)
                 case Some(len) =>
                   if |bs| - n < len then Done(TimedOut)
                   else match Decode(bs[n..][..len])
                        case Some(text) => Done(Message(text, bs[n..][len..]))
                        case None => Continue(n + len)
  {
  }

  /** A blank line ends the header loop with no message. */
  lemma BlankLineEndsHeaders(rest: seq<byte>)
    ensures DecodeFrame([13, 10] + rest) == EndOfHeaders
    ensures DecodeFrame([10] + rest) == EndOfHeaders
  {
    CrlfEndsHeaders(rest);
    LfEndsHeaders(rest);
  }

  lemma CrlfEndsHeaders(rest: seq<byte>)
    ensures DecodeFrame([13, 10] + rest) == EndOfHeaders
  {
    BlankLineLength(rest);
    var crlf: seq<byte> := [13, 10];
    var a := crlf + rest;
    assert a[..2] == AsciiBytes("\r\n");
    AsciiBytesAreEncoding("\r\n");
    StepOnLine(a, 2, "\r\n");
    DecodeFrameStep(a);
  }

  lemma LfEndsHeaders(rest: seq<byte>)
    ensures DecodeFrame([10] + rest) == EndOfHeaders
  {
    BlankLineLength(rest);
    var lf: seq<byte> := [10];
    var b := lf + rest;
    assert b[..1] == AsciiBytes("\n");
    AsciiBytesAreEncoding("\n");
    StepOnLine(b, 1, "\n");
    DecodeFrameStep(b);
  }


  /** Reading stops at the LF that ends a header line. */
  lemma HeaderLineLength(n: nat, after: seq<byte>)
    ensures LineLength(AsciiBytes(HeaderLine(n)) + after) == |HeaderLine(n)|
  {
    var h := HeaderLine(n);
    var d := Decimal(n);
    var bs := AsciiBytes(h) + after;
    forall k | 0 <= k < |h| - 1 ensures bs[k] != 10 {
      assert bs[k] as int == h[k] as int;
      if k < |ContentLengthPrefix| {
        assert h[k] == ContentLengthPrefix[k];
      } else if k < |ContentLengthPrefix| + |d| {
        assert h[k] == d[k - |ContentLengthPrefix|];
      } else {
        assert h[k] == '\r';
      }
    }
    assert bs[|h| - 1] as int == h[|h| - 1] as int;
    NewlineAt(bs, |h| - 1);
  }

  /** The number in a header line is read back. */
  lemma HeaderLineValue(n: nat)
    requires n <= USIZE_MAX
    ensures ContentLengthValue(HeaderLine(n)) == Some(n)
  {
    var h := HeaderLine(n);
    var d := Decimal(n);
    assert h[..|ContentLengthPrefix|] == ContentLengthPrefix;
    var tail := h[|ContentLengthPrefix|..];
    assert tail == d + "\r\n";
    assert LeadingWhitespace(tail) == 0 by {
      assert tail[0] == d[0];
    }
    assert TrailingWhitespace(tail) == 2 by {
      var dr := d + "\r";
      assert tail[..|tail| - 1] == dr;
      assert dr[..|dr| - 1] == d;
      assert TrailingWhitespace(d) == 0;
      assert TrailingWhitespace(dr) == 1;
    }
    assert Trim(tail) == d by {
      assert tail[0..][..|tail| - 2] == d;
    }
    ParseDecimal(n, USIZE_MAX);
  }

  /** A Content-Length line makes the loop read exactly that many bytes,
      starting right after the line. */
  lemma ContentLengthLineReadsNext(n: nat, after: seq<byte>)
    requires n <= USIZE_MAX
    ensures DecodeFrame(AsciiBytes(HeaderLine(n)) + after)
         == if |after| < n then TimedOut
            else match Decode(after[..n])
                 case Some(text) => Message(text, after[n..])
                 case None => DecodeFrame(after[n..])
  {
    var h := HeaderLine(n);
    var bs := AsciiBytes(h) + after;
    HeaderLineLength(n, after);
    assert bs[..|h|] == AsciiBytes(h);
    assert bs[|h|..] == after;
    AsciiBytesAreEncoding(h);
    HeaderLineValue(n);
    assert h != "\r\n" && h != "\n";
    StepOnLine(bs, |h|, h);
    DecodeFrameStep(bs);
    if |after| >= n && Decode(after[..n]).None? {
      assert bs[|h| + n..] == after[n..];
    }
  }

  lemma AsciiBytesAppend(a: string, b: string)
    requires AllAscii(a) && AllAscii(b)
    ensures AllAscii(a + b)
    ensures AsciiBytes(a + b) == AsciiBytes(a) + AsciiBytes(b)
  {
    AsciiAppend(a, b);
  }

  /** The frame of ASCII JSON is the ASCII text of header, blank line and JSON. */
  lemma AsciiFrame(json: string, rest: seq<byte>)
    requires AllAscii(json)
    ensures AllAscii("\r\n" + json)
    ensures Frame(json) + rest == AsciiBytes(HeaderLine(|json|)) + (AsciiBytes("\r\n" + json) + rest)
  {
    AsciiBytesAppend("\r\n", json);
    assert Frame(json) == AsciiBytes(HeaderLine(|json|)) + AsciiBytes("\r\n" + json) by {
      AsciiLengths(json);
      AsciiBytesAreEncoding(json);
      assert AsciiBytes("\r\n") == [13, 10];
    }
  }

  /** Cutting an ASCII text cuts its bytes at the same place. */
  lemma AsciiBytesSplit(s: string, k: nat)
    requires AllAscii(s) && k <= |s|
    ensures AllAscii(s[..k]) && AllAscii(s[k..])
    ensures AsciiBytes(s)[..k] == AsciiBytes(s[..k])
    ensures AsciiBytes(s)[k..] == AsciiBytes(s[k..])
  {
  }

  /** A Content-Length line followed by that many bytes of UTF-8 gives those bytes. */
  lemma ContentLengthLineMessage(n: nat, after: seq<byte>, text: string)
    requires n <= USIZE_MAX && n <= |after| && Decode(after[..n]) == Some(text)
    ensures DecodeFrame(AsciiBytes(HeaderLine(n)) + after) == Message(text, after[n..])
  {
    ContentLengthLineReadsNext(n, after);
  }

  /** What the handler makes of a frame of ASCII JSON of at least two bytes: the
      blank line's CR LF followed by the JSON without its last two characters,
      leaving those two characters unread. */
  lemma AsciiFrameMisread(json: string, rest: seq<byte>)
    requires AllAscii(json) && 2 <= |json| <= USIZE_MAX
    ensures DecodeFrame(Frame(json) + rest)
         == Message("\r\n" + json[..|json| - 2], AsciiBytes(json[|json| - 2..]) + rest)
  {
    var n := |json|;
    AsciiFrame(json, rest);
    var framed := "\r\n" + json;
    var after := AsciiBytes(framed) + rest;
    AsciiBytesSplit(framed, n);
    var front := framed[..n];
    assert front == "\r\n" + json[..n - 2];
    assert framed[n..] == json[n - 2..];
    assert after[..n] == AsciiBytes(front);
    assert after[n..] == AsciiBytes(json[n - 2..]) + rest;
    AsciiBytesAreEncoding(front);
    ContentLengthLineMessage(n, after, front);
  }

  /** So the handler never hands on the framed JSON: the last two bytes stay unread. */
  lemma AsciiFrameIsNotRoundTrip(json: string, rest: seq<byte>)
    requires AllAscii(json) && 2 <= |json| <= USIZE_MAX
    ensures DecodeFrame(Frame(json) + rest) != Message(json, rest)
  {
    AsciiFrameMisread(json, rest);
    assert |AsciiBytes(json[|json| - 2..]) + rest| == |rest| + 2;
  }

  // ---------------------------------------------------------------------
  // The header loop as the Base Protocol intends it

  /** One turn of a header loop that remembers the last Content-Length and
      reads the body only after the blank line. */
  function FixedDecodeStep(bs: seq<byte>, declared: Option<nat>): (r: (Step, Option<nat>))
    requires bs != []
    ensures r.0.Continue? ==> 0 < r.0.consumed <= |bs|
  {
    var n := LineLength(bs);
    var rest := bs[n..];
    match Decode(bs[..n])
    case None => (Done(ReadError), declared)
    case Some(line) =>
      if line == "\r\n" || line == "\n" then
        match declared
        case None => (Done(EndOfHeaders), declared)
        case Some(len) =>
          if |rest| < len then (Done(TimedOut), declared)
          else
            match Decode(rest[..len])
            case Some(text) => (Done(Message(text, rest[len..])), declared)
            case None => (Done(ReadError), declared)
      else
        match ContentLengthValue(line)
        case None => (Continue(n), declared)
        case Some(len) => (Continue(n), Some(len))
  }

  /** Reads header lines up to the blank line, then the announced body. */
  function FixedDecodeFrame(bs: seq<byte>, declared: Option<nat>): FrameOutcome
    decreases |bs|
  {
    if bs == [] then TimedOut
    else
      match FixedDecodeStep(bs, declared)
      case (Done(r), _) => r
      case (Continue(k), d) => FixedDecodeFrame(bs[k..], d)
  }

  /** A Content-Length line is remembered and the fixed loop reads on. */
  lemma FixedHeaderLine(n: nat, after: seq<byte>)
    requires n <= USIZE_MAX
    ensures FixedDecodeFrame(AsciiBytes(HeaderLine(n)) + after, None) == FixedDecodeFrame(after, Some(n))
  {
    var h := HeaderLine(n);
    var bs := AsciiBytes(h) + after;
    HeaderLineLength(n, after);
    assert bs[..|h|] == AsciiBytes(h);
    assert bs[|h|..] == after;
    AsciiBytesAreEncoding(h);
    HeaderLineValue(n);
    assert h != "\r\n" && h != "\n";
    assert FixedDecodeStep(bs, None) == (Continue(|h|), Some(n));
  }

  /** After the blank line the fixed loop reads the remembered number of bytes. */
  lemma FixedBlankLine(len: nat, body: seq<byte>)
    requires len <= |body| && Decode(body[..len]).Some?
    ensures FixedDecodeFrame([13, 10] + body, Some(len)) == Message(Decode(body[..len]).value, body[len..])
  {
    var crlf: seq<byte> := [13, 10];
    var after := crlf + body;
    BlankLineLength(body);
    assert after[..2] == AsciiBytes("\r\n");
    AsciiBytesAreEncoding("\r\n");
    assert after[2..] == body;
    assert FixedDecodeStep(after, Some(len)) == (Done(Message(Decode(body[..len]).value, body[len..])), Some(len));
  }

  /** The fixed loop returns exactly the framed JSON and leaves what follows unread. */
  lemma FixedFrameRoundTrip(json: string, rest: seq<byte>)
    requires ByteLen(json) <= USIZE_MAX
    ensures FixedDecodeFrame(Frame(json) + rest, None) == Message(json, rest)
  {
    var n := ByteLen(json);
    EncodeLength(json);
    var crlf: seq<byte> := [13, 10];
    var body := Encode(json) + rest;
    assert Frame(json) + rest == AsciiBytes(HeaderLine(n)) + (crlf + body);
    FixedHeaderLine(n, crlf + body);
    assert body[..n] == Encode(json);
    assert body[n..] == rest;
    DecodeEncode(json);
    FixedBlankLine(n, body);
  }
}
