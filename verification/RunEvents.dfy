/** What a daemon connection reports of one run, from the shared event channel. */
module RunEvents {
  import opened Wrappers

  datatype Event =
    | TextDelta(text: string)
    | ToolOutput(id: string, content: string)
    | Error(message: string)
    | Done(usage: Option<string>)
    | OtherEvent

  datatype Envelope = Envelope(run: nat, event: Event)

  datatype ServerEvent =
    | SentText(text: string)
    | SentTool(id: string, content: string)
    | SentError(message: string)
    | SentDone(text: string, usage: Option<string>, error: Option<string>)

  predicate Terminal(e: Event) { e.Error? || e.Done? }

  /** The events of one run, in order. */
  function Mine(events: seq<Envelope>, run: nat): seq<Event> {
    if events == [] then []
    else
      var e := events[|events| - 1];
      Mine(events[..|events| - 1], run) + if e.run == run then [e.event] else []
  }

  ghost predicate NoTerminal(events: seq<Event>) { forall e :: e in events ==> !Terminal(e) }

  /** A run's events up to and including its first terminal one. */
  function Cut(events: seq<Event>): seq<Event> {
    if events == [] then [] else if Terminal(events[0]) then [events[0]] else [events[0]] + Cut(events[1..])
  }

  function Forwarded(events: seq<Event>): seq<ServerEvent> {
    if events == [] then []
    else
      var e := events[|events| - 1];
      Forwarded(events[..|events| - 1]) +
      match e
      case TextDelta(text) => [SentText(text)]
      case ToolOutput(id, content) => [SentTool(id, content)]
      case Error(message) => [SentError(message)]
      case _ => []
  }

  function Text(events: seq<Event>): string {
    if events == [] then ""
    else
      var e := events[|events| - 1];
      Text(events[..|events| - 1]) + if e.TextDelta? then e.text else ""
  }

  /** The closing message of a run: all its text, and how it ended. */
  function Closing(events: seq<Event>): ServerEvent {
    var last := if events == [] then OtherEvent else events[|events| - 1];
    SentDone(Text(events), if last.Done? then last.usage else None, if last.Error? then Some(last.message) else None)
  }

  lemma MinePush(events: seq<Envelope>, e: Envelope, run: nat)
    ensures Mine(events + [e], run) == Mine(events, run) + if e.run == run then [e.event] else []
  {
    assert (events + [e])[..|events|] == events;
  }

  lemma {:induction false} MineAppend(a: seq<Envelope>, b: seq<Envelope>, run: nat)
    ensures Mine(a + b, run) == Mine(a, run) + Mine(b, run)
    decreases |b|
  {
    if b == [] {
      assert a + b == a;
    } else {
      var c, e := b[..|b| - 1], b[|b| - 1];
      assert a + b == (a + c) + [e] && b == c + [e];
      MineAppend(a, c, run);
      MinePush(a + c, e, run);
      MinePush(c, e, run);
    }
  }

  /** Without a terminal event nothing is cut; the first one ends the run. */
  lemma {:induction false} CutAt(before: seq<Event>, rest: seq<Event>)
    requires NoTerminal(before)
    ensures Cut(before + rest) == before + Cut(rest)
    decreases |before|
  {
    if before == [] {
      assert before + rest == rest;
    } else {
      assert (before + rest)[1..] == before[1..] + rest;
      assert before[0] in before && forall e :: e in before[1..] ==> e in before;
      CutAt(before[1..], rest);
      assert [before[0]] + (before[1..] + Cut(rest)) == before + Cut(rest);
    }
  }

  lemma CutEnds(before: seq<Event>, e: Event, rest: seq<Event>)
    requires NoTerminal(before) && Terminal(e)
    ensures Cut(before + [e] + rest) == before + [e]
  {
    assert before + [e] + rest == before + ([e] + rest);
    CutAt(before, [e] + rest);
    assert ([e] + rest)[0] == e;
  }

  lemma CutNothing(before: seq<Event>)
    requires NoTerminal(before)
    ensures Cut(before) == before
  {
    CutAt(before, []);
    assert before + [] == before;
  }

  lemma ForwardPush(events: seq<Event>, e: Event)
    ensures Forwarded(events + [e]) == Forwarded(events) + Forwarded([e])
    ensures Text(events + [e]) == Text(events) + if e.TextDelta? then e.text else ""
  {
    assert (events + [e])[..|events|] == events;
    assert [e][..0] == [];
  }

  /** What one receive sees: the event at the head of the channel belongs to the run, or it does not. */
  lemma Received(events: seq<Envelope>, i: nat, run: nat, got: seq<Event>)
    requires i < |events| && got == Mine(events[..i], run) && NoTerminal(got)
    ensures var e := events[i];
            Mine(events[..i + 1], run) == got + (if e.run == run then [e.event] else []) &&
            (e.run == run && Terminal(e.event) ==> Cut(Mine(events, run)) == got + [e.event]) &&
            (!(e.run == run && Terminal(e.event)) ==> NoTerminal(Mine(events[..i + 1], run)))
  {
    hide Mine, Cut;
    var e := events[i];
    assert events[..i + 1] == events[..i] + [e];
    MinePush(events[..i], e, run);
    if e.run == run && Terminal(e.event) {
      assert events == events[..i + 1] + events[i + 1..];
      MineAppend(events[..i + 1], events[i + 1..], run);
      CutEnds(got, e.event, Mine(events[i + 1..], run));
    }
  }

  /** `collect_owned_run_events`, on what the channel delivers before it closes. */
  method Collect(events: seq<Envelope>, run: nat) returns (out: seq<ServerEvent>, received: nat)
    ensures var own := Cut(Mine(events, run)); out == Forwarded(own) + [Closing(own)]
    ensures received <= |events| && Mine(events[..received], run) == Cut(Mine(events, run))
  {
    hide Mine, Cut, Forwarded, Text;
    ghost var got: seq<Event> := [];
    var text, usage, error := "", None, None;
    out, received := [], 0;
    Nothing(events, run);
    while received < |events|
      invariant received <= |events| && got == Mine(events[..received], run) && NoTerminal(got)
      invariant out == Forwarded(got) && text == Text(got) && usage == None && error == None
    {
      var envelope := events[received];
      Received(events, received, run, got);
      received := received + 1;
      if envelope.run != run {
        continue;
      }
      ghost var before := got;
      got := got + [envelope.event];
      ForwardPush(before, envelope.event);
      ForwardOne(envelope.event);
      match envelope.event
      case TextDelta(t) =>
        text := text + t;
        out := out + [SentText(t)];
      case ToolOutput(id, content) =>
        out := out + [SentTool(id, content)];
      case Error(message) =>
        error := Some(message);
        out := out + [SentError(message)];
        assert got[|got| - 1] == envelope.event && Closing(got) == SentDone(text, usage, error);
        break;
      case Done(u) =>
        usage := u;
        assert got[|got| - 1] == envelope.event && Closing(got) == SentDone(text, usage, error);
        break;
      case OtherEvent =>
    }
    if NoTerminal(got) {
      CutNothing(got);
      assert events[..|events|] == events;
      NoTerminalCloses(got);
    }
    assert got == Cut(Mine(events, run)) && Closing(got) == SentDone(text, usage, error);
    out := out + [SentDone(text, usage, error)];
  }

  lemma Nothing(events: seq<Envelope>, run: nat)
    ensures Mine(events[..0], run) == [] && Forwarded([]) == [] && Text([]) == ""
  {
  }

  lemma ForwardOne(e: Event)
    ensures Forwarded([e]) == match e
              case TextDelta(text) => [SentText(text)]
              case ToolOutput(id, content) => [SentTool(id, content)]
              case Error(message) => [SentError(message)]
              case _ => []
  {
    assert [e][..0] == [];
  }

  lemma NoTerminalCloses(events: seq<Event>)
    requires NoTerminal(events)
    ensures Closing(events) == SentDone(Text(events), None, None)
  {
    assert events != [] ==> events[|events| - 1] in events;
  }

  /** How a run's closing message tells its end: the usage of `Done`, the message of `Error`, and else neither. */
  lemma ClosingTells(before: seq<Event>, usage: Option<string>, message: string, rest: seq<Event>)
    requires NoTerminal(before)
    ensures Closing(Cut(before + [Done(usage)] + rest)) == SentDone(Text(before), usage, None)
    ensures Closing(Cut(before + [Error(message)] + rest)) == SentDone(Text(before), None, Some(message))
    ensures Closing(Cut(before)) == SentDone(Text(before), None, None)
  {
    hide Cut, Text;
    CutEnds(before, Done(usage), rest);
    CutEnds(before, Error(message), rest);
    ForwardPush(before, Done(usage));
    ForwardPush(before, Error(message));
    CutNothing(before);
    NoTerminalCloses(before);
  }

  /** Each event of the run adds its own message, if any, and only a delta adds to the text. */
  lemma EventTells(events: seq<Event>, text: string, id: string, message: string, usage: Option<string>)
    ensures Forwarded(events + [TextDelta(text)]) == Forwarded(events) + [SentText(text)]
    ensures Forwarded(events + [ToolOutput(id, text)]) == Forwarded(events) + [SentTool(id, text)]
    ensures Forwarded(events + [Error(message)]) == Forwarded(events) + [SentError(message)]
    ensures Forwarded(events + [Done(usage)]) == Forwarded(events + [OtherEvent]) == Forwarded(events)
    ensures Text(events + [TextDelta(text)]) == Text(events) + text
    ensures Text(events + [ToolOutput(id, text)]) == Text(events + [Error(message)]) == Text(events)
  {
    hide Forwarded, Text;
    forall e: Event ensures Forwarded(events + [e]) == Forwarded(events) + Forwarded([e]) {
      ForwardPush(events, e);
    }
    ForwardPush(events, TextDelta(text));
    ForwardPush(events, ToolOutput(id, text));
    ForwardPush(events, Error(message));
    ForwardOne(TextDelta(text));
    ForwardOne(ToolOutput(id, text));
    ForwardOne(Error(message));
    ForwardOne(Done(usage));
    ForwardOne(OtherEvent);
  }

  /** Events of other runs leave no trace. */
  lemma {:induction false} OthersLeaveNoTrace(events: seq<Envelope>, run: nat, e: Event, other: nat)
    ensures Mine(events + [Envelope(run, e)], run) == Mine(events, run) + [e]
    ensures other != run ==> Mine(events + [Envelope(other, e)], run) == Mine(events, run)
  {
    hide Mine;
    MinePush(events, Envelope(run, e), run);
    MinePush(events, Envelope(other, e), run);
  }
}
