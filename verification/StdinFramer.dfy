/** The bounded newline framer of the ACP server, against splitting the whole stream. */
module StdinFramer {
  type Byte = b: int | 0 <= b < 256
  const LF: Byte := 10
  const CR: Byte := 13
  const USIZE_MAX: nat := 0xFFFF_FFFF_FFFF_FFFF

  datatype Frame = Eof | Line(bytes: seq<Byte>) | Oversized(frameBytes: nat)

  function Min(a: nat, b: nat): nat { if a <= b then a else b }

  // ---------------------------------------------------------- one frame

  predicate NoDelimiter(s: seq<Byte>, n: nat)
    requires n <= |s|
  {
    forall i :: 0 <= i < n ==> s[i] != LF
  }

  /** The length of the first line, its delimiter excluded: the `position` of the newline. */
  function LineLength(s: seq<Byte>): (n: nat)
    ensures n <= |s| && NoDelimiter(s, n) && (n < |s| ==> s[n] == LF)
  {
    if s == [] || s[0] == LF then 0
    else
      var n := LineLength(s[1..]);
      assert forall i :: 0 < i <= n ==> s[i] == s[1..][i - 1];
      1 + n
  }

  predicate EndsInCr(s: seq<Byte>) { s != [] && s[|s| - 1] == CR }

  function StripCr(s: seq<Byte>): seq<Byte> { if EndsInCr(s) then s[..|s| - 1] else s }

  /** What the server makes of one line. */
  function Classify(line: seq<Byte>, max: nat): Frame {
    var counted := Min(|line|, USIZE_MAX);
    var payload := if EndsInCr(line) then counted - 1 else counted;
    if payload > max then Oversized(counted) else Line(StripCr(line[..Min(|line|, max)]))
  }

  function FirstFrame(s: seq<Byte>, max: nat): Frame {
    if s == [] then Eof else Classify(s[..LineLength(s)], max)
  }

  function AfterFrame(s: seq<Byte>): (rest: seq<Byte>)
    ensures s != [] ==> |rest| < |s|
  {
    s[Min(LineLength(s) + 1, |s|)..]
  }

  // --------------------------------------------------------- the stream

  function Flatten(chunks: seq<seq<Byte>>): seq<Byte> {
    if chunks == [] then [] else chunks[0] + Flatten(chunks[1..])
  }

  ghost predicate OneLine(line: seq<Byte>) { NoDelimiter(line, |line|) }

  /** The bytes of `s` that come before `stream`: a line, and its delimiter if that was consumed too. */
  ghost predicate Splits(s: seq<Byte>, line: seq<Byte>, delimited: bool, stream: seq<Byte>) {
    s == (if delimited then line + [LF] else line) + stream
  }

  /** What the framer has recorded of the part of a line seen so far. */
  ghost predicate Recorded(line: seq<Byte>, max: nat, bytes: seq<Byte>, frameBytes: nat, lastByte: int) {
    && OneLine(line)
    && bytes == line[..Min(|line|, max)]
    && frameBytes == Min(|line|, USIZE_MAX)
    && lastByte == if line == [] then -1 else line[|line| - 1]
  }

  lemma FirstLineIs(s: seq<Byte>, line: seq<Byte>, delimited: bool, stream: seq<Byte>)
    requires Splits(s, line, delimited, stream) && OneLine(line) && (!delimited ==> stream == [])
    ensures LineLength(s) == |line| && s[..|line|] == line && AfterFrame(s) == stream
  {
    hide LineLength;
    assert forall i :: 0 <= i < |line| ==> s[i] == line[i];
    assert delimited ==> s[|line|] == LF;
    var k := LineLength(s);
    assert k < |s| ==> s[k] == LF;
    assert NoDelimiter(s, k);
    assert k == |line|;
  }

  lemma KeepBytes(line: seq<Byte>, more: seq<Byte>, max: nat)
    ensures line[..Min(|line|, max)] + more[..Min(|more|, max - Min(|line|, max))] ==
            (line + more)[..Min(|line + more|, max)]
  {
  }

  lemma Saturates(a: nat, b: nat, cap: nat)
    ensures Min(Min(a, cap) + b, cap) == Min(a + b, cap)
  {
  }

  lemma PartOf(available: seq<Byte>, stream: seq<Byte>, part: nat)
    requires available <= stream && part <= |available|
    ensures stream == available[..part] + stream[part..]
    ensures part < |available| ==> stream[part..] == [available[part]] + stream[part + 1..]
  {
    assert stream[..part] == available[..part];
  }

  lemma SplitOn(s: seq<Byte>, line: seq<Byte>, available: seq<Byte>, stream: seq<Byte>)
    requires Splits(s, line, false, stream) && available <= stream
    ensures var part := LineLength(available);
            Splits(s, line + available[..part], part < |available|,
                   stream[if part < |available| then part + 1 else part..])
  {
    hide LineLength, Splits;
    var part := LineLength(available);
    PartOf(available, stream, part);
    var more, rest := available[..part], stream[part..];
    if part < |available| {
      SplitDelimited(s, line, more, stream, rest, stream[part + 1..]);
    } else {
      SplitWhole(s, line, more, stream, rest);
    }
  }

  lemma SplitDelimited(s: seq<Byte>, line: seq<Byte>, more: seq<Byte>, stream: seq<Byte>, rest: seq<Byte>, after: seq<Byte>)
    requires Splits(s, line, false, stream) && stream == more + rest && rest == [LF] + after
    ensures Splits(s, line + more, true, after)
  {
  }

  lemma SplitWhole(s: seq<Byte>, line: seq<Byte>, more: seq<Byte>, stream: seq<Byte>, rest: seq<Byte>)
    requires Splits(s, line, false, stream) && stream == more + rest
    ensures Splits(s, line + more, false, rest)
  {
  }

  lemma OneLineGrows(line: seq<Byte>, available: seq<Byte>, part: nat)
    requires OneLine(line) && part <= |available| && NoDelimiter(available, part)
    ensures OneLine(line + available[..part])
  {
  }

  /** One more buffer: everything recorded moves on by its part of the line. */
  lemma Recording(line: seq<Byte>, max: nat, bytes: seq<Byte>, frameBytes: nat, lastByte: int, available: seq<Byte>)
    requires Recorded(line, max, bytes, frameBytes, lastByte)
    ensures var part := LineLength(available);
            |bytes| <= max &&
            Recorded(line + available[..part], max, bytes + available[..Min(part, max - |bytes|)],
                     Min(frameBytes + part, USIZE_MAX), if part > 0 then available[part - 1] else lastByte)
  {
    hide LineLength, OneLine;
    var part := LineLength(available);
    var more := available[..part];
    OneLineGrows(line, available, part);
    KeepBytes(line, more, max);
    assert more[..Min(part, max - |bytes|)] == available[..Min(part, max - |bytes|)];
    Saturates(|line|, part, USIZE_MAX);
  }

  /** The verdict on a whole line follows from what was recorded. */
  lemma RecordedVerdict(s: seq<Byte>, line: seq<Byte>, max: nat, bytes: seq<Byte>, frameBytes: nat, lastByte: int,
                        delimited: bool, stream: seq<Byte>)
    requires Recorded(line, max, bytes, frameBytes, lastByte) && Splits(s, line, delimited, stream)
    requires !delimited ==> stream == [] && line != []
    ensures stream == AfterFrame(s) && (lastByte == CR ==> frameBytes > 0)
    ensures FirstFrame(s, max) ==
            (var payload := if lastByte == CR then frameBytes - 1 else frameBytes;
             if payload > max then Oversized(frameBytes) else Line(StripCr(bytes)))
  {
    FirstLineIs(s, line, delimited, stream);
    hide LineLength, AfterFrame, OneLine;
    assert s != [];
  }

  class Reader {
    /** What the input will deliver, buffer by buffer; the first one is the buffer in hand. */
    var chunks: seq<seq<Byte>>

    ghost predicate Valid() reads this { forall c :: c in chunks ==> c != [] }
    ghost function Stream(): seq<Byte> reads this { Flatten(chunks) }

    constructor (chunks: seq<seq<Byte>>)
      requires forall c :: c in chunks ==> c != []
      ensures Valid() && Stream() == Flatten(chunks)
    {
      this.chunks := chunks;
    }

    method FillBuf() returns (available: seq<Byte>)
      requires Valid()
      ensures available <= Stream() && (available == [] <==> Stream() == [])
      ensures available == if chunks == [] then [] else chunks[0]
    {
      assert chunks != [] ==> chunks[0] in chunks;
      available := if chunks == [] then [] else chunks[0];
    }

    method Consume(n: nat)
      requires Valid() && chunks != [] && n <= |chunks[0]|
      modifies this
      ensures Valid() && Stream() == old(Stream())[n..]
    {
      var left, later := chunks[0][n..], chunks[1..];
      assert forall c :: c in later ==> c in chunks;
      assert old(Stream())[n..] == left + Flatten(later);
      if left == [] {
        chunks := later;
      } else {
        chunks := [left] + later;
        assert chunks[1..] == later;
      }
    }

    /** `read_stdin_frame`; `peak` is the most it ever buffered. */
    method ReadStdinFrame(max: nat) returns (frame: Frame, ghost peak: nat)
      requires Valid()
      modifies this
      ensures Valid()
      ensures frame == FirstFrame(old(Stream()), max) && Stream() == AfterFrame(old(Stream()))
      ensures peak <= max
    {
      hide LineLength, FirstFrame, Classify, Recorded, Flatten, Splits, AfterFrame;
      ghost var s := Stream();
      ghost var line: seq<Byte> := [];
      var bytes: seq<Byte> := [];
      var frameBytes: nat := 0;
      var lastByte: int := -1;
      var delimited := false;
      peak := 0;
      StartRecording(s, max);
      while !delimited
        invariant Valid() && peak <= max && Splits(s, line, delimited, Stream())
        invariant Recorded(line, max, bytes, frameBytes, lastByte)
        decreases !delimited, |Stream()|
      {
        var available := FillBuf();
        if available == [] {
          NothingLeft(s, line, max, bytes, frameBytes, lastByte);
          if frameBytes == 0 {
            return Eof, peak;
          }
          break;
        }
        var part := LineLength(available);
        var consumed := if part < |available| then part + 1 else part;
        Recording(line, max, bytes, frameBytes, lastByte, available);
        SplitOn(s, line, available, Stream());
        frameBytes := Min(frameBytes + part, USIZE_MAX);
        if part > 0 {
          lastByte := available[part - 1];
        }
        bytes := bytes + available[..Min(part, max - |bytes|)];
        line := line + available[..part];
        delimited := part < |available|;
        peak := if peak < |bytes| then |bytes| else peak;
        Consume(consumed);
      }
      RecordedVerdict(s, line, max, bytes, frameBytes, lastByte, delimited, Stream());
      var payload := if lastByte == CR then frameBytes - 1 else frameBytes;
      if payload > max {
        return Oversized(frameBytes), peak;
      }
      if EndsInCr(bytes) {
        bytes := bytes[..|bytes| - 1];
      }
      return Line(bytes), peak;
    }

    /** The loop of `serve_reader`: frames until the end of input. */
    method ReadAll(max: nat) returns (frames: seq<Frame>)
      requires Valid()
      modifies this
      ensures frames == Frames(old(Stream()), max)
    {
      hide Frames, FirstFrame, Classify, LineLength, AfterFrame, Flatten;
      frames := [];
      ghost var s := Stream();
      while true
        invariant Valid() && frames + Frames(Stream(), max) == Frames(s, max)
        decreases |Stream()|
      {
        ghost var before := Stream();
        FramesStep(before, max);
        var frame, _ := ReadStdinFrame(max);
        if frame == Eof {
          break;
        }
        Append(frames, frame, Frames(Stream(), max));
        frames := frames + [frame];
      }
    }
  }

  lemma FramesStep(s: seq<Byte>, max: nat)
    ensures s == [] ==> Frames(s, max) == []
    ensures s != [] ==> Frames(s, max) == [FirstFrame(s, max)] + Frames(AfterFrame(s), max)
    ensures s == [] <==> FirstFrame(s, max) == Eof
  {
  }

  lemma Append(frames: seq<Frame>, frame: Frame, rest: seq<Frame>)
    ensures frames + ([frame] + rest) == (frames + [frame]) + rest
  {
  }

  lemma StartRecording(s: seq<Byte>, max: nat)
    ensures Recorded([], max, [], 0, -1) && Splits(s, [], false, s)
  {
    assert [] + s == s;
  }

  /** At the end of the input: an empty line means there was nothing at all. */
  lemma NothingLeft(s: seq<Byte>, line: seq<Byte>, max: nat, bytes: seq<Byte>, frameBytes: nat, lastByte: int)
    requires Recorded(line, max, bytes, frameBytes, lastByte) && Splits(s, line, false, [])
    ensures frameBytes == 0 <==> line == []
    ensures line == [] ==> FirstFrame(s, max) == Eof && AfterFrame(s) == []
  {
    assert line + [] == line;
  }

  // ----------------------------------------------------- whole streams

  function Frames(s: seq<Byte>, max: nat): seq<Frame>
    decreases |s|
  {
    if s == [] then [] else [FirstFrame(s, max)] + Frames(AfterFrame(s), max)
  }

  /** Splitting on newlines, one byte at a time: `line` is the piece being collected. */
  function Split(s: seq<Byte>, line: seq<Byte>): seq<seq<Byte>> {
    if s == [] then (if line == [] then [] else [line])
    else if s[0] == LF then [line] + Split(s[1..], [])
    else Split(s[1..], line + [s[0]])
  }

  function ClassifyAll(lines: seq<seq<Byte>>, max: nat): seq<Frame> {
    if lines == [] then [] else [Classify(lines[0], max)] + ClassifyAll(lines[1..], max)
  }

  lemma {:induction false} SplitLine(s: seq<Byte>, line: seq<Byte>)
    requires line + s != []
    ensures Split(s, line) == [line + s[..LineLength(s)]] + Split(AfterFrame(s), [])
    decreases |s|
  {
    if s != [] && s[0] != LF {
      var t := s[1..];
      SplitLine(t, line + [s[0]]);
      assert line + [s[0]] + t[..LineLength(t)] == line + s[..LineLength(s)];
      assert AfterFrame(t) == AfterFrame(s);
    } else {
      assert line + s[..0] == line;
    }
  }

  /** However the input is cut into buffers, the frames are those of splitting the whole stream. */
  lemma {:induction false} FramesAreLines(s: seq<Byte>, max: nat)
    ensures Frames(s, max) == ClassifyAll(Split(s, []), max)
    decreases |s|
  {
    if s != [] {
      SplitLine(s, []);
      assert [] + s[..LineLength(s)] == s[..LineLength(s)];
      FramesAreLines(AfterFrame(s), max);
    }
  }

  /** The payload is the line without its carriage return, except that two can go at the limit. */
  lemma PayloadIff(line: seq<Byte>, max: nat)
    ensures Classify(line, max) == Line(StripCr(line)) <==>
            |StripCr(line)| <= max && !(|line| == max + 1 && max > 0 && line[max - 1] == CR)
    ensures Classify(line, max).Oversized? <==>
            |StripCr(line)| > max && (max + 1 < USIZE_MAX || (max + 1 == USIZE_MAX && !EndsInCr(line)))
    ensures Classify(line, max).Line? ==> |Classify(line, max).bytes| <= max
  {
    var kept := line[..Min(|line|, max)];
    if |line| <= max {
      assert kept == line;
    } else if |line| == max + 1 && EndsInCr(line) {
      assert kept == StripCr(line);
      assert EndsInCr(kept) <==> max > 0 && line[max - 1] == CR;
    }
  }

  /** A line one over the limit that ends in two carriage returns loses both. */
  lemma TwoCarriageReturns()
    ensures Classify([65, 13, 13], 2) == Line([65]) && StripCr([65, 13, 13]) == [65, 13]
  {
  }

  // ------------------------------------------------------- round trip

  /** What `write_frame` puts on the wire, message after message. */
  function Written(messages: seq<seq<Byte>>): seq<Byte> {
    if messages == [] then [] else messages[0] + [LF] + Written(messages[1..])
  }

  lemma {:induction false} SplitMessage(message: seq<Byte>, rest: seq<Byte>, line: seq<Byte>)
    requires LF !in message
    ensures Split(message + [LF] + rest, line) == [line + message] + Split(rest, [])
    decreases |message|
  {
    var s := message + [LF] + rest;
    if message == [] {
      assert s[0] == LF && s[1..] == rest && line + message == line;
    } else {
      assert s[0] == message[0] && s[1..] == message[1..] + [LF] + rest;
      SplitMessage(message[1..], rest, line + [message[0]]);
      assert line + [message[0]] + message[1..] == line + message;
    }
  }

  lemma {:induction false} SplitWritten(messages: seq<seq<Byte>>)
    requires forall m :: m in messages ==> LF !in m
    ensures Split(Written(messages), []) == messages
    decreases |messages|
  {
    if messages != [] {
      SplitMessage(messages[0], Written(messages[1..]), []);
      SplitWritten(messages[1..]);
      assert [] + messages[0] == messages[0] && messages == [messages[0]] + messages[1..];
    }
  }

  lemma {:induction false} ClassifyAt(lines: seq<seq<Byte>>, max: nat, i: nat)
    requires i < |lines|
    ensures |ClassifyAll(lines, max)| == |lines| && ClassifyAll(lines, max)[i] == Classify(lines[i], max)
    decreases i
  {
    ClassifyLength(lines[1..], max);
    if i > 0 {
      ClassifyAt(lines[1..], max, i - 1);
    }
  }

  lemma {:induction false} ClassifyLength(lines: seq<seq<Byte>>, max: nat)
    ensures |ClassifyAll(lines, max)| == |lines|
    decreases |lines|
  {
    if lines != [] {
      ClassifyLength(lines[1..], max);
    }
  }

  /** The classifier's limits in bytes, for lines without a carriage return at their end and with one. */
  lemma LimitAt(line: seq<Byte>, max: nat)
    requires |line| < 0xFFFF_FFFF_FFFF_FFFF
    ensures line == [] || line[|line| - 1] != 13 ==>
              Classify(line, max) == if |line| > max then Oversized(|line|) else Line(line)
    ensures line != [] && line[|line| - 1] == 13 ==>
              Classify(line, max).Oversized? == (|line| > max + 1) &&
              (|line| > max + 1 ==> Classify(line, max) == Oversized(|line|)) &&
              (|line| <= max ==> Classify(line, max) == Line(line[..|line| - 1]))
  {
    if |line| <= max {
      assert line[..|line|] == line;
    }
  }

  lemma CleanIff(message: seq<Byte>, max: nat)
    ensures Classify(message, max) == Line(message) <==> |message| <= max && !EndsInCr(message)
  {
    if |message| <= max {
      assert message[..|message|] == message;
    }
  }

  /** Framing written messages gives one frame each, in order, and exactly the clean ones unchanged. */
  lemma RoundTrip(messages: seq<seq<Byte>>, max: nat)
    requires forall m :: m in messages ==> 10 !in m
    ensures |Frames(Written(messages), max)| == |messages|
    ensures forall i :: 0 <= i < |messages| ==>
              (Frames(Written(messages), max)[i] == Line(messages[i]) <==>
               |messages[i]| <= max && (messages[i] == [] || messages[i][|messages[i]| - 1] != 13))
  {
    FramesAreLines(Written(messages), max);
    SplitWritten(messages);
    ClassifyLength(messages, max);
    forall i | 0 <= i < |messages|
      ensures Frames(Written(messages), max)[i] == Line(messages[i]) <==>
              |messages[i]| <= max && !EndsInCr(messages[i])
    {
      ClassifyAt(messages, max, i);
      CleanIff(messages[i], max);
    }
  }
}
