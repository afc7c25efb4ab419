/**
 The synthesiser that turns agent deltas into a bracketed message stream, the reader
 a client runs on that stream, and the proof that the reader gets back what was said.
 */
module StreamSynth {
  import opened Wrappers

  datatype BlockKind = Text | Thinking

  datatype Head = KindHead(kind: BlockKind) | ToolHead(id: string, name: string)

  datatype Delta = KindDelta(kind: BlockKind, text: string) | InputJson(text: string)

  datatype Event =
    | MessageStart(model: string)
    | BlockStart(index: int, head: Head)
    | BlockDelta(index: int, delta: Delta)
    | BlockStop(index: int)
    | MessageDelta(outputTokens: nat)
    | MessageStop

  /** The calls the event pump makes; a retry or the end of a turn is a `Reset`. */
  datatype Call =
    | Say(model: string, kind: BlockKind, text: string)
    | UseTool(model: string, id: string, name: string, input: string)
    | Finish(outputTokens: nat)
    | Reset

  // ---------------------------------------------------------- synthesiser

  datatype Synth = Synth(blockIndex: int, started: bool, current: Option<BlockKind>)

  const Fresh := Synth(-1, false, None)

  function StartEvents(s: Synth, model: string): seq<Event> {
    if s.started then [] else [MessageStart(model)]
  }

  function CloseEvents(s: Synth): seq<Event> {
    if s.current.Some? then [BlockStop(s.blockIndex)] else []
  }

  /** What each call emits and the state it leaves behind. */
  function Emit(s: Synth, c: Call): (Synth, seq<Event>) {
    match c
    case Say(model, kind, text) =>
      if s.current == Some(kind) then
        (s.(started := true), StartEvents(s, model) + [BlockDelta(s.blockIndex, KindDelta(kind, text))])
      else
        var i := s.blockIndex + 1;
        (Synth(i, true, Some(kind)),
         StartEvents(s, model) + CloseEvents(s) + [BlockStart(i, KindHead(kind))] + [BlockDelta(i, KindDelta(kind, text))])
    case UseTool(model, id, name, input) =>
      var i := s.blockIndex + 1;
      (Synth(i, true, None),
       StartEvents(s, model) + CloseEvents(s) +
       [BlockStart(i, ToolHead(id, name))] + [BlockDelta(i, InputJson(input))] + [BlockStop(i)])
    case Finish(usage) =>
      if !s.started then (s, []) else (Fresh, CloseEvents(s) + [MessageDelta(usage)] + [MessageStop])
    case Reset => (Fresh, [])
  }

  /** The object of the event pump, with the field updates of its methods. */
  class Synthesiser {
    var blockIndex: int
    var started: bool
    var current: Option<BlockKind>

    ghost function Now(): Synth
      reads this
    {
      Synth(blockIndex, started, current)
    }

    constructor ()
      ensures Now() == Fresh
    {
      blockIndex, started, current := -1, false, None;
    }

    method Reset()
      modifies this
      ensures Now() == Fresh
    {
      blockIndex, started, current := -1, false, None;
    }

    method EnsureStarted(model: string) returns (events: seq<Event>)
      modifies this
      ensures Now() == old(Now()).(started := true) && events == StartEvents(old(Now()), model)
    {
      if started {
        return [];
      }
      started := true;
      events := [MessageStart(model)];
    }

    method CloseBlock() returns (events: seq<Event>)
      modifies this
      ensures Now() == old(Now()).(current := None) && events == CloseEvents(old(Now()))
    {
      if current.None? {
        return [];
      }
      current := None;
      events := [BlockStop(blockIndex)];
    }

    method EnsureBlock(model: string, kind: BlockKind) returns (events: seq<Event>)
      modifies this
      ensures forall text :: Emit(old(Now()), Say(model, kind, text)) ==
                             (Now(), events + [BlockDelta(blockIndex, KindDelta(kind, text))])
    {
      events := EnsureStarted(model);
      if current == Some(kind) {
        return;
      }
      var closing := CloseBlock();
      blockIndex := blockIndex + 1;
      current := Some(kind);
      events := events + closing + [BlockStart(blockIndex, KindHead(kind))];
    }

    method SayDelta(model: string, kind: BlockKind, text: string) returns (events: seq<Event>)
      modifies this
      ensures (Now(), events) == Emit(old(Now()), Say(model, kind, text))
    {
      events := EnsureBlock(model, kind);
      events := events + [BlockDelta(blockIndex, KindDelta(kind, text))];
    }

    method ToolUse(model: string, id: string, name: string, input: string) returns (events: seq<Event>)
      modifies this
      ensures (Now(), events) == Emit(old(Now()), UseTool(model, id, name, input))
    {
      events := EnsureStarted(model);
      var closing := CloseBlock();
      blockIndex := blockIndex + 1;
      events := events + closing + [BlockStart(blockIndex, ToolHead(id, name))];
      events := events + [BlockDelta(blockIndex, InputJson(input))];
      events := events + [BlockStop(blockIndex)];
    }

    method FinishMessage(usage: nat) returns (events: seq<Event>)
      modifies this
      ensures (Now(), events) == Emit(old(Now()), Finish(usage))
    {
      if !started {
        return [];
      }
      events := CloseBlock();
      events := events + [MessageDelta(usage)] + [MessageStop];
      Reset();
    }
  }

  function StateAfter(calls: seq<Call>): Synth {
    if calls == [] then Fresh else Emit(StateAfter(calls[..|calls| - 1]), calls[|calls| - 1]).0
  }

  /** Everything a sequence of calls puts on the wire. */
  function Stream(calls: seq<Call>): seq<Event> {
    if calls == [] then []
    else Stream(calls[..|calls| - 1]) + Emit(StateAfter(calls[..|calls| - 1]), calls[|calls| - 1]).1
  }

  // --------------------------------------------------------------- reader

  datatype Block = Block(head: Head, text: string)
  datatype Message = Message(model: string, blocks: seq<Block>, outputTokens: nat)

  /** The message being read: blocks so far, whether the last is still open, the closing usage. */
  datatype Partial = Outside | Inside(model: string, blocks: seq<Block>, open: bool, usage: Option<nat>)

  /** `Bad` once the bracket grammar is broken; `abandoned` counts messages cut off by a new start. */
  datatype Reader = Bad | Reader(done: seq<Message>, current: Partial, abandoned: nat)

  predicate Fits(h: Head, d: Delta) {
    if d.KindDelta? then h == KindHead(d.kind) else h.ToolHead?
  }

  /** The grammar: a message holds blocks numbered from 0, a delta lies inside its own open block. */
  function Feed(r: Reader, e: Event): Reader {
    if r.Bad? then Bad else
    var p := r.current;
    match e
    case MessageStart(model) =>
      Reader(r.done, Inside(model, [], false, None), r.abandoned + if p.Inside? then 1 else 0)
    case BlockStart(i, head) =>
      if p.Inside? && !p.open && p.usage.None? && i == |p.blocks| then
        r.(current := p.(blocks := p.blocks + [Block(head, "")], open := true))
      else Bad
    case BlockDelta(i, delta) =>
      if p.Inside? && p.open && i == |p.blocks| - 1 && 0 <= i && Fits(p.blocks[i].head, delta) then
        r.(current := p.(blocks := p.blocks[i := Block(p.blocks[i].head, p.blocks[i].text + delta.text)]))
      else Bad
    case BlockStop(i) =>
      if p.Inside? && p.open && i == |p.blocks| - 1 then r.(current := p.(open := false)) else Bad
    case MessageDelta(usage) =>
      if p.Inside? && !p.open && p.usage.None? then r.(current := p.(usage := Some(usage))) else Bad
    case MessageStop =>
      if p.Inside? && p.usage.Some? then
        Reader(r.done + [Message(p.model, p.blocks, p.usage.value)], Outside, r.abandoned)
      else Bad
  }

  function FeedAll(r: Reader, es: seq<Event>): Reader
    decreases |es|
  {
    if es == [] then r else FeedAll(Feed(r, es[0]), es[1..])
  }

  function Read(es: seq<Event>): Reader { FeedAll(Reader([], Outside, 0), es) }

  lemma {:induction false} FeedAppend(r: Reader, a: seq<Event>, b: seq<Event>)
    ensures FeedAll(r, a + b) == FeedAll(FeedAll(r, a), b)
    decreases |a|
  {
    if a == [] {
      assert a + b == b;
    } else {
      assert (a + b)[1..] == a[1..] + b;
      FeedAppend(Feed(r, a[0]), a[1..], b);
    }
  }

  // ------------------------------------------------------------- reference

  predicate IsContent(c: Call) { c.Say? || c.UseTool? }

  predicate AllContent(cs: seq<Call>) { forall i :: 0 <= i < |cs| ==> IsContent(cs[i]) }

  /** The calls of the message still in progress. */
  function Tail(calls: seq<Call>): seq<Call> {
    if calls == [] then []
    else if IsContent(calls[|calls| - 1]) then Tail(calls[..|calls| - 1]) + [calls[|calls| - 1]]
    else []
  }

  /** How many leading calls continue the kind of the first one. */
  function RunLength(cs: seq<Call>): (n: nat)
    requires cs != []
    ensures 1 <= n <= |cs|
  {
    if |cs| > 1 && cs[0].Say? && cs[1].Say? && cs[1].kind == cs[0].kind then 1 + RunLength(cs[1..]) else 1
  }

  function Texts(cs: seq<Call>): string {
    if cs == [] then "" else (if cs[0].Say? then cs[0].text else "") + Texts(cs[1..])
  }

  function BlockOf(c: Call): Block
    requires IsContent(c)
  {
    if c.Say? then Block(KindHead(c.kind), c.text) else Block(ToolHead(c.id, c.name), c.input)
  }

  /** Adjacent deltas of one kind form one block; every tool call is a block of its own. */
  function Coalesce(cs: seq<Call>): seq<Block>
    requires AllContent(cs)
  {
    if cs == [] then []
    else [FirstBlock(cs)] + Coalesce(cs[RunLength(cs)..])
  }

  function FirstBlock(cs: seq<Call>): Block
    requires cs != [] && IsContent(cs[0])
  {
    if cs[0].Say? then Block(KindHead(cs[0].kind), Texts(cs[..RunLength(cs)])) else BlockOf(cs[0])
  }

  lemma {:induction false} TailIsContent(calls: seq<Call>)
    ensures AllContent(Tail(calls))
  {
    if calls != [] {
      TailIsContent(calls[..|calls| - 1]);
    }
  }

  /** The messages that were finished, in order. */
  function Finished(calls: seq<Call>): seq<Message> {
    if calls == [] then [] else
    var before := calls[..|calls| - 1];
    var c := calls[|calls| - 1];
    TailIsContent(before);
    Finished(before) +
    if c.Finish? && Tail(before) != [] then
      [Message(Tail(before)[0].model, Coalesce(Tail(before)), c.outputTokens)]
    else []
  }

  function Resets(calls: seq<Call>): nat {
    if calls == [] then 0
    else Resets(calls[..|calls| - 1]) + if calls[|calls| - 1].Reset? then 1 else 0
  }

  lemma {:induction false} TextsAppend(cs: seq<Call>, c: Call)
    requires c.Say?
    ensures Texts(cs + [c]) == Texts(cs) + c.text
  {
    if cs != [] {
      assert (cs + [c])[1..] == cs[1..] + [c];
      TextsAppend(cs[1..], c);
    }
  }

  ghost predicate Continues(cs: seq<Call>, c: Call) {
    cs != [] && c.Say? && cs[|cs| - 1].Say? && cs[|cs| - 1].kind == c.kind
  }

  lemma {:induction false} RunLengthAppend(cs: seq<Call>, c: Call)
    requires cs != []
    ensures RunLength(cs + [c]) ==
      if RunLength(cs) == |cs| && Continues(cs, c) then |cs| + 1 else RunLength(cs)
    ensures RunLength(cs) == |cs| ==> |cs| == 1 || (cs[0].Say? && cs[|cs| - 1].Say? && cs[0].kind == cs[|cs| - 1].kind)
    decreases |cs|
  {
    if |cs| > 1 {
      assert (cs + [c])[1..] == cs[1..] + [c];
      RunLengthAppend(cs[1..], c);
    }
  }

  lemma CoalesceOne(c: Call)
    requires IsContent(c)
    ensures Coalesce([c]) == [BlockOf(c)]
  {
    var cs := [c];
    assert cs[..1] == cs && cs[1..] == [];
    if c.Say? {
      assert Texts(cs) == c.text + Texts(cs[1..]) == c.text;
    }
    assert FirstBlock(cs) == BlockOf(c);
  }

  /** What one more call does to the blocks so far. */
  ghost function Extended(bs: seq<Block>, cs: seq<Call>, c: Call): seq<Block>
    requires IsContent(c)
  {
    if Continues(cs, c) && bs != [] then
      bs[..|bs| - 1] + [Block(bs[|bs| - 1].head, bs[|bs| - 1].text + c.text)]
    else bs + [BlockOf(c)]
  }

  /** Coalescing one more call either extends the last block or adds one. */
  lemma {:induction false} CoalesceAppend(cs: seq<Call>, c: Call)
    requires IsContent(c) && AllContent(cs)
    ensures Coalesce(cs + [c]) == Extended(Coalesce(cs), cs, c)
    ensures Continues(cs, c) ==> Coalesce(cs) != [] && Coalesce(cs)[|Coalesce(cs)| - 1].head == KindHead(c.kind)
    decreases |cs|
  {
    if cs == [] {
      assert cs + [c] == [c];
      CoalesceOne(c);
    } else if RunLength(cs) < |cs| {
      AppendLater(cs, c);
    } else {
      AppendToRun(cs, c);
    }
  }

  lemma {:induction false} AppendLater(cs: seq<Call>, c: Call)
    requires IsContent(c) && AllContent(cs) && cs != [] && RunLength(cs) < |cs|
    ensures Coalesce(cs + [c]) == Extended(Coalesce(cs), cs, c)
    ensures Continues(cs, c) ==> Coalesce(cs)[|Coalesce(cs)| - 1].head == KindHead(c.kind)
    decreases |cs|, 0
  {
    hide Extended, Coalesce, FirstBlock, RunLength;
    var n := RunLength(cs);
    RunLengthAppend(cs, c);
    SameFirstBlock(cs, c);
    var rest := cs[n..];
    CoalesceStep(cs);
    CoalesceStep(cs + [c]);
    assert (cs + [c])[n..] == rest + [c];
    CoalesceAppend(rest, c);
    assert Continues(cs, c) == Continues(rest, c);
    ExtendedCons(FirstBlock(cs), Coalesce(rest), cs, rest, c);
  }

  lemma CoalesceStep(cs: seq<Call>)
    requires AllContent(cs) && cs != []
    ensures Coalesce(cs) == [FirstBlock(cs)] + Coalesce(cs[RunLength(cs)..])
  {
  }

  lemma SameFirstBlock(cs: seq<Call>, c: Call)
    requires cs != [] && IsContent(cs[0]) && RunLength(cs + [c]) == RunLength(cs)
    ensures FirstBlock(cs + [c]) == FirstBlock(cs)
  {
    hide RunLength;
    assert (cs + [c])[..RunLength(cs)] == cs[..RunLength(cs)];
  }

  lemma ExtendedCons(b: Block, bs: seq<Block>, cs: seq<Call>, rest: seq<Call>, c: Call)
    requires IsContent(c) && Continues(cs, c) == Continues(rest, c) && (Continues(rest, c) ==> bs != [])
    ensures Extended([b] + bs, cs, c) == [b] + Extended(bs, rest, c)
  {
  }

  lemma AppendToRun(cs: seq<Call>, c: Call)
    requires IsContent(c) && AllContent(cs) && cs != [] && RunLength(cs) == |cs|
    ensures Coalesce(cs + [c]) == Extended(Coalesce(cs), cs, c)
    ensures Continues(cs, c) ==> Coalesce(cs)[|Coalesce(cs)| - 1].head == KindHead(c.kind)
  {
    var n := |cs|;
    RunLengthAppend(cs, c);
    assert cs[..n] == cs && cs[n..] == [];
    assert Coalesce(cs) == [FirstBlock(cs)];
    if Continues(cs, c) {
      assert (cs + [c])[..n + 1] == cs + [c] && (cs + [c])[n + 1..] == [];
      TextsAppend(cs, c);
    } else {
      assert (cs + [c])[..n] == cs && (cs + [c])[n..] == [c];
      CoalesceOne(c);
    }
  }

  // ------------------------------------------------------------ simulation

  ghost function Kind(cs: seq<Call>): Option<BlockKind> {
    if cs != [] && cs[|cs| - 1].Say? then Some(cs[|cs| - 1].kind) else None
  }

  /** Synthesiser and reader agree about the message in progress. */
  ghost predicate Agrees(calls: seq<Call>) {
    var t := Tail(calls);
    var s := StateAfter(calls);
    var r := Read(Stream(calls));
    TailIsContent(calls);
    && s == Synth(|Coalesce(t)| - 1, t != [], Kind(t))
    && r.Reader? && r.done == Finished(calls)
    && (t != [] ==> r.current == Inside(t[0].model, Coalesce(t), Kind(t).Some?, None))
    && (r.abandoned + if t == [] && r.current.Inside? then 1 else 0) <= Resets(calls)
  }

  /** Feeding the events of one more call continues from where the reader stood. */
  lemma ReadMore(calls: seq<Call>, c: Call)
    ensures StateAfter(calls + [c]) == Emit(StateAfter(calls), c).0
    ensures Read(Stream(calls + [c])) == FeedAll(Read(Stream(calls)), Emit(StateAfter(calls), c).1)
    ensures Tail(calls + [c]) == if IsContent(c) then Tail(calls) + [c] else []
    ensures Resets(calls + [c]) == Resets(calls) + if c.Reset? then 1 else 0
  {
    assert (calls + [c])[..|calls + [c]| - 1] == calls;
    FeedAppend(Reader([], Outside, 0), Stream(calls), Emit(StateAfter(calls), c).1);
  }

  /** A content call leaves the reader inside the message with the call's text added. */
  lemma EmitSays(calls: seq<Call>, c: Call)
    requires Agrees(calls) && IsContent(c)
    ensures Agrees(calls + [c])
  {
    var t := Tail(calls);
    var s := StateAfter(calls);
    var r := Read(Stream(calls));
    ReadMore(calls, c);
    TailIsContent(calls);
    TailIsContent(calls + [c]);
    CoalesceAppend(t, c);
    assert (calls + [c])[..|calls|] == calls;
    FeedSay(r, s, t, c);
  }

  lemma FeedSay(r: Reader, s: Synth, t: seq<Call>, c: Call)
    requires IsContent(c) && AllContent(t) && r.Reader?
    requires s == Synth(|Coalesce(t)| - 1, t != [], Kind(t))
    requires t != [] ==> r.current == Inside(t[0].model, Coalesce(t), Kind(t).Some?, None)
    requires Continues(t, c) ==> Coalesce(t) != [] && Coalesce(t)[|Coalesce(t)| - 1].head == KindHead(c.kind)
    ensures FeedAll(r, Emit(s, c).1) ==
      Reader(r.done,
             Inside(if t == [] then c.model else t[0].model, Extended(Coalesce(t), t, c), c.Say?, None),
             r.abandoned + if t == [] && r.current.Inside? then 1 else 0)
  {
    var started := StartEvents(s, c.model);
    FeedStart(r, s, c.model);
    var r1 := FeedAll(r, started);
    if c.Say? && s.current == Some(c.kind) {
      var e := BlockDelta(s.blockIndex, KindDelta(c.kind, c.text));
      FeedAppend(r, started, [e]);
      assert FeedAll(r1, [e]) == Feed(r1, e);
      var bs := Coalesce(t);
      var i := |bs| - 1;
      assert bs[i := Block(bs[i].head, bs[i].text + c.text)] == Extended(bs, t, c);
    } else {
      FeedAppend(r, started, CloseEvents(s));
      assert FeedAll(r1, [BlockStop(s.blockIndex)]) == Feed(r1, BlockStop(s.blockIndex));
      FeedNewBlock(r, s, c);
    }
  }

  lemma FeedNewBlock(r: Reader, s: Synth, c: Call)
    requires IsContent(c) && !(c.Say? && s.current == Some(c.kind))
    requires var r2 := FeedAll(r, StartEvents(s, c.model) + CloseEvents(s));
             r2.Reader? && r2.current.Inside? && !r2.current.open && r2.current.usage.None? &&
             s.blockIndex + 1 == |r2.current.blocks|
    ensures var r2 := FeedAll(r, StartEvents(s, c.model) + CloseEvents(s));
            FeedAll(r, Emit(s, c).1) ==
              r2.(current := r2.current.(blocks := r2.current.blocks + [BlockOf(c)], open := c.Say?))
  {
    var i := s.blockIndex + 1;
    var opening := StartEvents(s, c.model) + CloseEvents(s);
    var delta := if c.Say? then KindDelta(c.kind, c.text) else InputJson(c.input);
    var block := [BlockStart(i, BlockOf(c).head), BlockDelta(i, delta)] + if c.Say? then [] else [BlockStop(i)];
    assert Emit(s, c).1 == opening + block;
    FeedAppend(r, opening, block);
    FeedBlock(FeedAll(r, opening), i, BlockOf(c).head, delta, block);
  }

  /** After the opening event the reader is inside the message. */
  lemma FeedStart(r: Reader, s: Synth, model: string)
    requires r.Reader?
    ensures FeedAll(r, StartEvents(s, model)) == if s.started then r else Feed(r, MessageStart(model))
  {
    assert s.started || FeedAll(r, [MessageStart(model)]) == FeedAll(Feed(r, MessageStart(model)), []);
  }

  /** A block start and its first delta add one block; a tool block is closed at once. */
  lemma FeedBlock(r: Reader, i: int, head: Head, delta: Delta, es: seq<Event>)
    requires r.Reader? && r.current.Inside? && !r.current.open && r.current.usage.None?
    requires i == |r.current.blocks| && Fits(head, delta)
    requires es == [BlockStart(i, head), BlockDelta(i, delta)] + if head.ToolHead? then [BlockStop(i)] else []
    ensures FeedAll(r, es) ==
      r.(current := r.current.(blocks := r.current.blocks + [Block(head, delta.text)], open := head.KindHead?))
  {
    var r1 := Feed(r, es[0]);
    var r2 := Feed(r1, es[1]);
    assert "" + delta.text == delta.text;
    assert r1.current.blocks[i := Block(head, delta.text)] == r.current.blocks + [Block(head, delta.text)];
    assert es[1..][0] == es[1];
    assert FeedAll(r, es) == FeedAll(r2, es[2..]) by {
      assert es[1..][1..] == es[2..];
    }
    if head.ToolHead? {
      assert es[2..] == [BlockStop(i)];
      assert FeedAll(r2, [BlockStop(i)]) == Feed(r2, BlockStop(i));
    }
  }

  /** The events of a finished message, as the reader takes them. */
  lemma FeedEnding(r: Reader, s: Synth, usage: nat)
    requires s.started && r.Reader? && r.current.Inside? && r.current.usage.None?
    requires r.current.open == s.current.Some? && s.blockIndex == |r.current.blocks| - 1
    ensures FeedAll(r, Emit(s, Finish(usage)).1) ==
            Reader(r.done + [Message(r.current.model, r.current.blocks, usage)], Outside, r.abandoned)
  {
    var closing := CloseEvents(s);
    var ending := [MessageDelta(usage), MessageStop];
    assert Emit(s, Finish(usage)).1 == closing + ending;
    FeedAppend(r, closing, ending);
    assert FeedAll(r, [BlockStop(s.blockIndex)]) == Feed(r, BlockStop(s.blockIndex));
    var r1 := FeedAll(r, closing);
    assert r1.current == r.current.(open := false);
    assert FeedAll(r1, ending) == Feed(Feed(r1, ending[0]), ending[1]) by {
      assert ending[1..] == [ending[1]];
      assert FeedAll(Feed(r1, ending[0]), [ending[1]]) == Feed(Feed(r1, ending[0]), ending[1]);
    }
  }

  /** Finishing closes the message; resetting leaves it for the reader to discard. */
  lemma EmitEnds(calls: seq<Call>, c: Call)
    requires Agrees(calls) && !IsContent(c)
    ensures Agrees(calls + [c])
  {
    var s := StateAfter(calls);
    ReadMore(calls, c);
    TailIsContent(calls);
    assert (calls + [c])[..|calls|] == calls;
    assert Coalesce([]) == [];
    if c.Finish? && s.started {
      hide Feed, FeedAll;
      FeedEnding(Read(Stream(calls)), s, c.outputTokens);
    }
  }

  lemma {:induction false} AlwaysAgrees(calls: seq<Call>)
    ensures Agrees(calls)
  {
    if calls != [] {
      var before := calls[..|calls| - 1];
      var c := calls[|calls| - 1];
      assert calls == before + [c];
      AlwaysAgrees(before);
      if IsContent(c) {
        EmitSays(before, c);
      } else {
        EmitEnds(before, c);
      }
    }
  }

  /**
   For every sequence of calls, retries included, the stream obeys the bracket grammar and a
   reader recovers exactly the finished messages with adjacent deltas of one kind coalesced.
   A message is only ever cut off by a reset, and each reset cuts off at most one.
   */
  lemma StreamRoundTrip(calls: seq<Call>)
    ensures Read(Stream(calls)).Reader?
    ensures Read(Stream(calls)).done == Finished(calls)
    ensures Read(Stream(calls)).abandoned <= Resets(calls)
  {
    AlwaysAgrees(calls);
  }

  /** Without resets the brackets are balanced: outside a message exactly when none is in progress. */
  lemma {:induction false} BalancedWithoutResets(calls: seq<Call>)
    requires Resets(calls) == 0
    ensures Read(Stream(calls)).Reader? && Read(Stream(calls)).abandoned == 0
    ensures Read(Stream(calls)).current.Outside? <==> Tail(calls) == []
  {
    AlwaysAgrees(calls);
  }

  // ------------------------------------------------ what the reader refuses

  /** Within a message, blocks open one at a time, numbered on, and none once the usage is known. */
  lemma RefusesBlocks(r: Reader, i: int, head: Head)
    requires r.Reader? && r.current.Inside?
    ensures Feed(r, BlockStart(i, head)).Bad? <==> r.current.open || r.current.usage.Some? || i != |r.current.blocks|
    ensures Feed(r, BlockStop(i)).Bad? <==> !r.current.open || i != |r.current.blocks| - 1
  {
  }

  /** A delta must lie in the open block and be of its kind: text in text, thinking in thinking, input in a tool use. */
  lemma RefusesDeltas(r: Reader, i: int, delta: Delta)
    requires r.Reader? && r.current.Inside?
    ensures !Feed(r, BlockDelta(i, delta)).Bad? ==> r.current.open && 0 <= i == |r.current.blocks| - 1
    ensures r.current.open && 0 <= i == |r.current.blocks| - 1 ==>
              (Feed(r, BlockDelta(i, delta)).Bad? <==>
                 match delta
                 case KindDelta(kind, _) => r.current.blocks[i].head != KindHead(kind)
                 case InputJson(_) => !r.current.blocks[i].head.ToolHead?)
  {
  }

  /** A message is ended once, with no block open; outside a message only a start is read, and nothing after an error. */
  lemma RefusesEnds(r: Reader, usage: nat, e: Event)
    ensures r.Reader? && r.current.Inside? ==>
              (Feed(r, MessageDelta(usage)).Bad? <==> r.current.open || r.current.usage.Some?) &&
              (Feed(r, MessageStop).Bad? <==> r.current.usage.None?)
    ensures r.Reader? && r.current.Outside? ==> (Feed(r, e).Bad? <==> !e.MessageStart?)
    ensures r.Bad? ==> Feed(r, e).Bad?
  {
  }

  /** The resets of a sequence of calls, counted as a set. */
  lemma {:induction false} ResetsCounted(calls: seq<Call>)
    ensures Resets(calls) == |set i | 0 <= i < |calls| && calls[i].Reset?|
    decreases |calls|
  {
    if calls != [] {
      var n := |calls| - 1;
      var before := set i | 0 <= i < n && calls[..n][i].Reset?;
      ResetsCounted(calls[..n]);
      assert (set i | 0 <= i < |calls| && calls[i].Reset?) == before + if calls[n].Reset? then {n} else {};
    }
  }
}
