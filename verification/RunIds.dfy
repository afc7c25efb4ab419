/**
 * Two independent run counters, the daemon's and the agent loop's, with an input queue and an
 * event channel between them; connections take turns under the message lock.
 */
module RunIds {
  import opened RunEvents

  /** Where the agent task stands; `Failing` has reported that the session store did not open. */
  datatype Loop = Starting | Failing | Idle | Running | Stopped

  /** The connection that holds the message lock. */
  datatype Conn =
    | NoOne
    | Draining(initial: bool)
    | Ready(initial: bool)
    | Counted(id: nat)
    | Storing
    | Collecting(id: nat, got: seq<Event>)

  /** What one connection reported about the run it started. */
  datatype Report = Report(id: nat, events: seq<Event>)

  /**
   * `queue` holds, for each accepted input, the id the daemon gave it; `started` pairs that id with
   * the one the loop used. The event channel holds `emitted[consumed..]`.
   */
  datatype State = State(loop: Loop, runId: nat, queue: seq<nat>, started: seq<(nat, nat)>,
                         emitted: seq<Envelope>, consumed: nat, closed: bool,
                         conn: Conn, untouched: bool, nextRunId: nat, reports: seq<Report>)

  const INIT := State(Starting, 0, [], [], [], 0, false, NoOne, true, 0, [])

  datatype Step =
    | StoreOpens
    | StoreFails(message: string)
    | TakeInput
    | Emit(event: Event)
    | EmitLate(run: nat, event: Event)
    | FinishRun
    | Stop
    | CloseEvents
    | Acquire(initial: bool)
    | Abandon
    | Drain
    | Count
    | Send
    | StoreCounter
    | Receive

  function Emitted(s: State, run: nat, event: Event): State { s.(emitted := s.emitted + [Envelope(run, event)]) }

  /** `fetch_add` on the daemon's counter comes before the send; the initial run stores it afterwards. */
  function OnSend(s: State): State {
    match s.conn
    case Ready(true) =>
      if s.loop.Stopped? then s.(conn := NoOne) else s.(queue := s.queue + [0], conn := Storing)
    case Counted(id) =>
      if s.loop.Stopped? then s.(conn := NoOne) else s.(queue := s.queue + [id], conn := Collecting(id, []))
    case _ => s
  }

  function OnReceive(s: State, id: nat, got: seq<Event>): State {
    if s.consumed < |s.emitted| then
      var e := s.emitted[s.consumed];
      var s' := s.(consumed := s.consumed + 1);
      if e.run != id then s'
      else if Terminal(e.event) then s'.(conn := NoOne, reports := s.reports + [Report(id, got + [e.event])])
      else s'.(conn := Collecting(id, got + [e.event]))
    else if s.closed then s.(conn := NoOne, reports := s.reports + [Report(id, got)])
    else s
  }

  function OnDrain(s: State, initial: bool): State {
    if s.consumed < |s.emitted| then s.(consumed := s.consumed + 1) else s.(conn := Ready(initial))
  }

  /** One atomic step; a step that is not enabled changes nothing. */
  function Apply(s: State, step: Step): State {
    match step
    case StoreOpens => if s.loop.Starting? then s.(loop := Idle) else s
    case StoreFails(message) => if s.loop.Starting? then Emitted(s.(loop := Failing), 0, Error(message)) else s
    case TakeInput =>
      if s.loop.Idle? && s.queue != [] then
        s.(loop := Running, queue := s.queue[1..], started := s.started + [(s.queue[0], s.runId)])
      else s
    case Emit(event) => if s.loop.Running? && !s.closed then Emitted(s, s.runId, event) else s
    case EmitLate(run, event) => if run < s.runId && !s.closed then Emitted(s, run, event) else s
    case FinishRun => if s.loop.Running? then s.(loop := Idle, runId := s.runId + 1) else s
    case Stop => if !s.loop.Starting? then s.(loop := Stopped) else s
    case CloseEvents => if s.loop.Stopped? then s.(closed := true) else s
    case Acquire(initial) =>
      if s.conn.NoOne? && (initial ==> s.untouched) then s.(conn := Draining(initial), untouched := false) else s
    case Abandon => if s.conn.Draining? && !s.conn.initial then s.(conn := NoOne) else s
    case Drain => if s.conn.Draining? then OnDrain(s, s.conn.initial) else s
    case Count =>
      if s.conn.Ready? && !s.conn.initial then s.(conn := Counted(s.nextRunId), nextRunId := s.nextRunId + 1) else s
    case Send => OnSend(s)
    case StoreCounter => if s.conn.Storing? then s.(nextRunId := 1, conn := Collecting(0, [])) else s
    case Receive => if s.conn.Collecting? then OnReceive(s, s.conn.id, s.conn.got) else s
  }

  function Run(steps: seq<Step>): State
    decreases |steps|
  {
    if steps == [] then INIT else Apply(Run(steps[..|steps| - 1]), steps[|steps| - 1])
  }

  // --------------------------------------------------------------- agreement

  /** How many inputs have been accepted. */
  function Accepted(s: State): nat { |s.started| + |s.queue| }

  ghost predicate Agree(s: State) {
    && (forall i :: 0 <= i < |s.started| ==> s.started[i] == (i, i))
    && (forall i :: 0 <= i < |s.queue| ==> s.queue[i] == |s.started| + i)
    && (s.loop.Idle? || s.loop.Starting? || s.loop.Failing? ==> s.runId == |s.started|)
    && (s.loop.Running? ==> s.runId + 1 == |s.started|)
    && (s.loop.Starting? || s.loop.Failing? ==> s.started == [])
    && s.runId <= |s.started|
  }

  /** The daemon's counter is the number of accepted inputs, up to the window in which it is being moved. */
  ghost predicate Counts(s: State) {
    && (s.untouched ==> s.nextRunId == 0 && Accepted(s) == 0 && s.conn.NoOne?)
    && (match s.conn
        case Storing => Accepted(s) == 1 && s.nextRunId == 0
        case Counted(id) =>
          s.nextRunId == id + 1 && id >= Accepted(s) && (!s.loop.Stopped? ==> id == Accepted(s))
        case _ =>
          s.nextRunId >= Accepted(s) && (!s.loop.Stopped? ==> s.nextRunId == Accepted(s)))
    && ((s.conn.Draining? || s.conn.Ready?) && s.conn.initial ==> s.nextRunId == 0 && Accepted(s) == 0)
    && (s.conn.Collecting? ==> s.conn.id < Accepted(s))
  }

  ghost predicate AgreeInv(s: State) { Agree(s) && Counts(s) }

  predicate IsLoopStep(step: Step) {
    step.StoreOpens? || step.StoreFails? || step.TakeInput? || step.Emit? || step.EmitLate? || step.FinishRun? ||
    step.Stop? || step.CloseEvents?
  }

  lemma LoopAgrees(s: State, step: Step)
    requires AgreeInv(s) && IsLoopStep(step)
    ensures AgreeInv(Apply(s, step))
  {
  }

  lemma SendAgrees(s: State)
    requires AgreeInv(s)
    ensures AgreeInv(OnSend(s))
  {
  }

  lemma CountAgrees(s: State)
    requires AgreeInv(s)
    ensures AgreeInv(Apply(s, Count)) && AgreeInv(Apply(s, StoreCounter))
  {
    SameInputs(s, Apply(s, Count));
    SameInputs(s, Apply(s, StoreCounter));
    hide Agree;
  }

  lemma AcquireAgrees(s: State, initial: bool)
    requires AgreeInv(s)
    ensures AgreeInv(Apply(s, Acquire(initial)))
  {
    SameInputs(s, Apply(s, Acquire(initial)));
    hide Agree;
  }

  lemma DrainAgrees(s: State)
    requires AgreeInv(s)
    ensures AgreeInv(Apply(s, Drain)) && AgreeInv(Apply(s, Abandon))
  {
    SameInputs(s, Apply(s, Abandon));
    SameInputs(s, Apply(s, Drain));
    hide Agree;
  }

  lemma ReceiveAgrees(s: State)
    requires AgreeInv(s)
    ensures AgreeInv(Apply(s, Receive))
  {
    SameInputs(s, Apply(s, Receive));
    hide Agree;
  }

  /** Only the loop and the inputs matter for what the two sides call a run. */
  lemma SameInputs(s: State, s': State)
    requires s'.loop == s.loop && s'.runId == s.runId && s'.queue == s.queue && s'.started == s.started
    ensures Agree(s) ==> Agree(s')
  {
  }

  lemma StepAgrees(s: State, step: Step)
    requires AgreeInv(s)
    ensures AgreeInv(Apply(s, step))
  {
    hide AgreeInv, OnSend, OnDrain, OnReceive;
    if IsLoopStep(step) {
      LoopAgrees(s, step);
    } else if step.Send? {
      SendAgrees(s);
    } else {
      CountAgrees(s);
      ReceiveAgrees(s);
      AcquireAgrees(s, step == Acquire(true));
      DrainAgrees(s);
    }
  }

  lemma {:induction false} RunAgrees(steps: seq<Step>)
    ensures AgreeInv(Run(steps))
    decreases |steps|
  {
    if steps != [] {
      hide AgreeInv, Apply;
      RunAgrees(steps[..|steps| - 1]);
      StepAgrees(Run(steps[..|steps| - 1]), steps[|steps| - 1]);
    }
  }

  /** The k-th accepted input runs under id k on both sides, in every interleaving. */
  lemma IdsAgree(steps: seq<Step>, k: nat)
    requires k < |Run(steps).started|
    ensures Run(steps).started[k] == (k, k)
  {
    hide Run, Apply;
    RunAgrees(steps);
  }

  // ------------------------------------------------------- events and runs

  /** Events belong to runs already started; only a failed open reports for a run that never was. */
  ghost predicate Sourced(s: State) {
    && s.consumed <= |s.emitted|
    && (s.loop.Starting? ==> s.emitted == [])
    && (s.closed ==> s.loop.Stopped?)
    && (Faulty(s) ==> (s.loop.Failing? || s.loop.Stopped?) && |s.emitted| == 1 && s.emitted[0].run == 0 && s.started == [] && s.runId == 0)
    && (!Faulty(s) ==> forall i :: 0 <= i < |s.emitted| ==> s.emitted[i].run < |s.started|)
  }

  /** The store failed to open: an event was emitted although no input was ever taken. */
  predicate Faulty(s: State) { s.emitted != [] && s.started == [] }

  lemma LoopSourced(s: State, step: Step)
    requires AgreeInv(s) && Sourced(s) && IsLoopStep(step)
    ensures Sourced(Apply(s, step))
  {
    hide Counts;
  }

  lemma ConnSourced(s: State, step: Step)
    requires Sourced(s) && !IsLoopStep(step)
    ensures Sourced(Apply(s, step))
  {
  }

  lemma StepSourced(s: State, step: Step)
    requires AgreeInv(s) && Sourced(s)
    ensures Sourced(Apply(s, step))
  {
    hide AgreeInv, Sourced, Apply;
    if IsLoopStep(step) {
      LoopSourced(s, step);
    } else {
      ConnSourced(s, step);
    }
  }

  lemma {:induction false} NoneOf(events: seq<Envelope>, run: nat)
    requires forall i :: 0 <= i < |events| ==> events[i].run != run
    ensures Mine(events, run) == []
    decreases |events|
  {
    if events != [] {
      NoneOf(events[..|events| - 1], run);
    }
  }

  /** What the collecting connection has so far: its run's events among those taken from the channel. */
  ghost predicate Collected(s: State) {
    && s.consumed <= |s.emitted|
    && (s.conn.Storing? ==> s.consumed == 0)
    && (s.conn.Collecting? ==>
          s.conn.got == Mine(s.emitted[..s.consumed], s.conn.id) && NoTerminal(s.conn.got))
  }

  lemma NotStartedYet(s: State, id: nat)
    requires Sourced(s) && !Faulty(s) && id >= |s.started|
    ensures Mine(s.emitted[..s.consumed], id) == []
  {
    NoneOf(s.emitted[..s.consumed], id);
  }

  lemma ReceiveCollects(s: State)
    requires Sourced(s) && s.conn.Collecting? && Collected(s)
    ensures Collected(OnReceive(s, s.conn.id, s.conn.got))
  {
    hide Mine;
    if s.consumed < |s.emitted| {
      Received(s.emitted, s.consumed, s.conn.id, s.conn.got);
    }
  }

  lemma SamePrefix(s: State, step: Step)
    requires Sourced(s) && !step.Receive? && !step.Drain?
    ensures var s' := Apply(s, step);
            s'.consumed == s.consumed && s'.consumed <= |s'.emitted| && s'.emitted[..s.consumed] == s.emitted[..s.consumed]
  {
  }

  lemma StepCollects(s: State, step: Step)
    requires AgreeInv(s) && Sourced(s) && Collected(s) && !Faulty(s)
    ensures Collected(Apply(s, step))
  {
    if step.Receive? {
      if s.conn.Collecting? {
        ReceiveCollects(s);
      }
    } else if !step.Drain? {
      hide Mine;
      SamePrefix(s, step);
      var s' := Apply(s, step);
      if step.Send? {
        SendCollects(s);
      } else if step.StoreCounter? && s.conn.Storing? {
        assert s'.emitted[..0] == [];
        NoneOf([], 0);
      }
    }
  }

  lemma SendCollects(s: State)
    requires AgreeInv(s) && Sourced(s) && Collected(s) && !Faulty(s)
    ensures Collected(OnSend(s))
  {
    hide Mine;
    if s.conn.Counted? {
      NotStartedYet(s, s.conn.id);
    }
  }

  // ----------------------------------------------------------- what is reported

  lemma {:induction false} CutStable(a: seq<Event>, b: seq<Event>)
    requires !NoTerminal(a)
    ensures Cut(a + b) == Cut(a)
    decreases |a|
  {
    assert (a + b)[0] == a[0] && (a + b)[1..] == a[1..] + b;
    if !Terminal(a[0]) {
      assert a == [a[0]] + a[1..];
      CutStable(a[1..], b);
    }
  }

  ghost predicate Settled(s: State, r: Report) {
    r.events == Cut(Mine(s.emitted, r.id)) && (s.closed || !NoTerminal(Mine(s.emitted, r.id)))
  }

  /** Every report is its own run, whole up to its end; and no run is reported twice. */
  ghost predicate Reported(s: State) {
    && (forall i :: 0 <= i < |s.reports| ==> Settled(s, s.reports[i]) && s.reports[i].id < Bound(s))
    && (forall i, j :: 0 <= i < j < |s.reports| ==> s.reports[i].id < s.reports[j].id)
  }

  function Bound(s: State): nat {
    match s.conn
    case Collecting(id, _) => id
    case Storing => 0
    case _ => Accepted(s)
  }

  lemma StaysSettled(s: State, s': State, r: Report)
    requires Settled(s, r) && (s.closed ==> s'.closed && s'.emitted == s.emitted)
    requires s'.emitted == s.emitted || (|s'.emitted| == |s.emitted| + 1 && s'.emitted[..|s.emitted|] == s.emitted)
    ensures Settled(s', r)
  {
    hide Cut, Mine;
    if s'.emitted != s.emitted {
      var e := s'.emitted[|s.emitted|];
      assert s'.emitted == s.emitted + [e];
      MinePush(s.emitted, e, r.id);
      var more := if e.run == r.id then [e.event] else [];
      CutStable(Mine(s.emitted, r.id), more);
      assert forall x :: x in Mine(s.emitted, r.id) ==> x in Mine(s.emitted, r.id) + more;
    }
  }

  lemma StepGrows(s: State, step: Step)
    requires AgreeInv(s) && Sourced(s)
    ensures var s' := Apply(s, step);
            (s.closed ==> s'.closed && s'.emitted == s.emitted) &&
            (s'.emitted == s.emitted || (|s'.emitted| == |s.emitted| + 1 && s'.emitted[..|s.emitted|] == s.emitted))
  {
  }

  lemma OtherSteps(s: State, step: Step)
    requires AgreeInv(s) && !step.Receive?
    ensures Apply(s, step).reports == s.reports && Bound(s) <= Bound(Apply(s, step))
  {
  }

  /** A report closes the run it was collecting. */
  lemma NewReport(s: State)
    requires AgreeInv(s) && Sourced(s) && Collected(s) && s.conn.Collecting?
    ensures var s' := OnReceive(s, s.conn.id, s.conn.got);
            (s'.reports == s.reports && Bound(s') == Bound(s)) ||
            (|s'.reports| == |s.reports| + 1 && s'.reports[..|s.reports|] == s.reports && Bound(s) < Bound(s') &&
             s'.reports[|s.reports|].id == s.conn.id && Settled(s', s'.reports[|s.reports|]))
  {
    hide Cut, Mine;
    if s.consumed < |s.emitted| {
      var e := s.emitted[s.consumed];
      Received(s.emitted, s.consumed, s.conn.id, s.conn.got);
      if e.run == s.conn.id && Terminal(e.event) {
        HasTerminal(s.emitted, s.consumed, s.conn.id);
      }
    } else {
      assert s.emitted[..s.consumed] == s.emitted;
      CutNothing(s.conn.got);
    }
  }

  lemma HasTerminal(events: seq<Envelope>, i: nat, run: nat)
    requires i < |events| && events[i].run == run && Terminal(events[i].event)
    ensures !NoTerminal(Mine(events, run))
  {
    hide Mine;
    assert events == events[..i] + [events[i]] + events[i + 1..];
    MineAppend(events[..i] + [events[i]], events[i + 1..], run);
    MinePush(events[..i], events[i], run);
    assert events[i].event in Mine(events, run);
  }

  lemma StepReports(s: State, step: Step)
    requires AgreeInv(s) && Sourced(s) && Collected(s) && Reported(s)
    ensures Reported(Apply(s, step))
  {
    hide Settled, AgreeInv, Sourced, Collected, Apply, Bound;
    var s' := Apply(s, step);
    StepGrows(s, step);
    forall i | 0 <= i < |s.reports| ensures Settled(s', s.reports[i]) {
      StaysSettled(s, s', s.reports[i]);
    }
    if step.Receive? {
      ReceiveReports(s);
    } else {
      OtherSteps(s, step);
    }
  }

  lemma ReceiveReports(s: State)
    requires AgreeInv(s) && Sourced(s) && Collected(s) && Reported(s)
    requires forall i :: 0 <= i < |s.reports| ==> Settled(Apply(s, Receive), s.reports[i])
    ensures Reported(Apply(s, Receive))
  {
    hide Settled, AgreeInv, Sourced, Collected, OnReceive;
    if s.conn.Collecting? {
      NewReport(s);
      var s' := OnReceive(s, s.conn.id, s.conn.got);
      if |s'.reports| > |s.reports| {
        assert forall i :: 0 <= i < |s.reports| ==> s'.reports[i] == s'.reports[..|s.reports|][i] == s.reports[i];
      }
    }
  }

  /** A failed open never turns into a working one. */
  lemma StaysFaulty(s: State, step: Step)
    requires AgreeInv(s) && Sourced(s) && Faulty(s)
    ensures Faulty(Apply(s, step))
  {
  }

  ghost predicate Inv(s: State) { AgreeInv(s) && Sourced(s) && (!Faulty(s) ==> Collected(s) && Reported(s)) }

  lemma StepKeepsInv(s: State, step: Step)
    requires Inv(s)
    ensures Inv(Apply(s, step))
  {
    hide AgreeInv, Sourced, Collected, Reported, Apply, Faulty;
    StepAgrees(s, step);
    StepSourced(s, step);
    if Faulty(s) {
      StaysFaulty(s, step);
    } else {
      StepCollects(s, step);
      StepReports(s, step);
    }
  }

  lemma {:induction false} RunKeepsInv(steps: seq<Step>)
    ensures Inv(Run(steps))
    decreases |steps|
  {
    if steps != [] {
      hide Inv, Apply;
      RunKeepsInv(steps[..|steps| - 1]);
      StepKeepsInv(Run(steps[..|steps| - 1]), steps[|steps| - 1]);
    }
  }

  /** A connection reports exactly its own run, from its first event to its terminal one, and no run twice. */
  lemma ReportsOwnRun(steps: seq<Step>, i: nat)
    requires i < |Run(steps).reports| && !Faulty(Run(steps))
    ensures var s := Run(steps);
            s.reports[i].events == Cut(Mine(s.emitted, s.reports[i].id)) &&
            s.reports[i].id < Accepted(s) &&
            forall j :: 0 <= j < |s.reports| && j != i ==> s.reports[j].id != s.reports[i].id
  {
    hide Run, Apply, Cut, Mine;
    RunKeepsInv(steps);
  }

  /**
   * Draining before a send throws away only events of earlier runs, exactly unless the session
   * store failed to open and no input had been accepted yet.
   */
  lemma DrainDiscards(steps: seq<Step>)
    requires var s := Run(steps); s.conn.Draining? && s.consumed < |s.emitted|
    ensures var s := Run(steps);
            s.emitted[s.consumed].run < s.nextRunId <==> !(Faulty(s) && s.nextRunId == 0)
  {
    hide Run, Apply;
    RunKeepsInv(steps);
  }

  /** In that case the only message saying why is lost: run 0 is accepted, and its report is empty. */
  lemma FailedOpenIsSwallowed(message: string)
    ensures var steps := [StoreFails(message), Acquire(true)] + [Drain, Drain] + [Send, StoreCounter] +
                         [Stop, CloseEvents] + [Receive, Receive];
            Run(steps).reports == [Report(0, [])] && Run(steps).emitted == [Envelope(0, Error(message))]
  {
    hide Apply;
    var a := [StoreFails(message), Acquire(true)];
    var b := a + [Drain, Drain];
    var c := b + [Send, StoreCounter];
    var d := c + [Stop, CloseEvents];
    RunOf(a, StoreFails(message), Acquire(true));
    RunMore(a, Drain, Drain);
    RunMore(b, Send, StoreCounter);
    RunMore(c, Stop, CloseEvents);
    RunMore(d, Receive, Receive);
    Drained(message);
    Swallowed(message);
  }

  /** The state once a failed open's only event has been drained by the first run. */
  function AfterDrain(message: string): State {
    State(Failing, 0, [], [], [Envelope(0, Error(message))], 1, false, Ready(true), false, 0, [])
  }

  lemma Drained(message: string)
    ensures Apply(Apply(Apply(Apply(INIT, StoreFails(message)), Acquire(true)), Drain), Drain) == AfterDrain(message)
  {
  }

  lemma Swallowed(message: string)
    ensures var c := Apply(Apply(AfterDrain(message), Send), StoreCounter);
            var d := Apply(Apply(Apply(Apply(c, Stop), CloseEvents), Receive), Receive);
            d.reports == [Report(0, [])] && d.emitted == [Envelope(0, Error(message))]
  {
  }

  lemma RunMore(steps: seq<Step>, one: Step, two: Step)
    ensures Run(steps + [one, two]) == Apply(Apply(Run(steps), one), two)
  {
    hide Apply;
    assert (steps + [one, two])[..|steps| + 1] == steps + [one];
    assert (steps + [one])[..|steps|] == steps;
  }

  lemma RunOf(steps: seq<Step>, one: Step, two: Step)
    requires steps == [one, two]
    ensures Run(steps) == Apply(Apply(INIT, one), two)
  {
    hide Apply;
    RunMore([], one, two);
    assert [] + [one, two] == steps;
  }

  // ----------------------------------------------------------- a run that works

  function After(s: State, steps: seq<Step>): State
    decreases |steps|
  {
    if steps == [] then s else After(Apply(s, steps[0]), steps[1..])
  }

  lemma {:induction false} AfterAppend(s: State, a: seq<Step>, b: seq<Step>)
    ensures After(s, a + b) == After(After(s, a), b)
    decreases |a|
  {
    hide Apply;
    if a == [] {
      assert a + b == b;
    } else {
      assert (a + b)[1..] == a[1..] + b;
      AfterAppend(Apply(s, a[0]), a[1..], b);
    }
  }

  lemma AfterOne(s: State, step: Step)
    ensures After(s, [step]) == Apply(s, step)
  {
    hide Apply;
    assert After(Apply(s, step), []) == Apply(s, step);
  }

  function Emits(events: seq<Event>): seq<Step> { seq(|events|, i requires 0 <= i < |events| => Emit(events[i])) }

  function Receives(n: nat): seq<Step> { seq(n, _ => Receive) }

  function Enveloped(events: seq<Event>, run: nat): seq<Envelope> {
    seq(|events|, i requires 0 <= i < |events| => Envelope(run, events[i]))
  }

  lemma {:induction false} EmitAll(s: State, events: seq<Event>)
    requires s.loop.Running? && !s.closed
    ensures After(s, Emits(events)) == s.(emitted := s.emitted + Enveloped(events, s.runId))
    decreases |events|
  {
    if events == [] {
      assert s.emitted + [] == s.emitted;
    } else {
      var s' := Apply(s, Emit(events[0]));
      assert Emits(events)[1..] == Emits(events[1..]);
      EmitAll(s', events[1..]);
      assert [Envelope(s.runId, events[0])] + Enveloped(events[1..], s.runId) == Enveloped(events, s.runId);
    }
  }

  lemma EnvelopedTail(events: seq<Event>, last: Event, run: nat)
    requires events != []
    ensures Enveloped(events + [last], run)[1..] == Enveloped(events[1..] + [last], run)
  {
    assert (events + [last])[1..] == events[1..] + [last];
  }

  lemma ReceiveOne(s: State, event: Event)
    requires s.conn.Collecting? && s.consumed < |s.emitted| && s.emitted[s.consumed] == Envelope(s.conn.id, event)
    ensures Apply(s, Receive) ==
            if Terminal(event) then
              s.(consumed := s.consumed + 1, conn := NoOne, reports := s.reports + [Report(s.conn.id, s.conn.got + [event])])
            else s.(consumed := s.consumed + 1, conn := Collecting(s.conn.id, s.conn.got + [event]))
  {
  }

  lemma {:induction false} ReceiveAll(s: State, id: nat, events: seq<Event>, last: Event)
    requires NoTerminal(events) && Terminal(last) && s.conn.Collecting? && s.conn.id == id && s.consumed <= |s.emitted|
    requires s.emitted[s.consumed..] == Enveloped(events + [last], id)
    ensures After(s, Receives(|events| + 1)) ==
            s.(consumed := |s.emitted|, conn := NoOne, reports := s.reports + [Report(id, s.conn.got + events + [last])])
    decreases |events|
  {
    var s' := Apply(s, Receive);
    var all := events + [last];
    assert Receives(|events| + 1)[1..] == Receives(|events|);
    assert s.emitted[s.consumed] == s.emitted[s.consumed..][0] == Envelope(id, all[0]);
    ReceiveOne(s, all[0]);
    hide Apply, Enveloped;
    if events == [] {
      assert s.conn.got + events + [last] == s.conn.got + [last];
    } else {
      assert events[0] in events && forall e :: e in events[1..] ==> e in events;
      assert s.emitted[s.consumed + 1..] == s.emitted[s.consumed..][1..];
      EnvelopedTail(events, last, id);
      ReceiveAll(s', id, events[1..], last);
      assert s.conn.got + [events[0]] + events[1..] == s.conn.got + events;
    }
  }

  /**
   A message taken up by an idle loop is run under the id it was counted with, and the connection
   reports all its events; both sides are then ready for the next.
   */
  lemma RunIsReported(s: State, events: seq<Event>, last: Event)
    requires AgreeInv(s) && s.loop.Idle? && s.conn.Counted? && s.queue == [] && !s.closed && s.consumed == |s.emitted|
    requires NoTerminal(events) && Terminal(last)
    ensures s.conn.id == s.runId
    ensures var id := s.conn.id;
            After(s, [Send, TakeInput] + Emits(events + [last]) + [FinishRun] + Receives(|events| + 1)) ==
            s.(runId := id + 1, started := s.started + [(id, id)], emitted := s.emitted + Enveloped(events + [last], id),
               consumed := |s.emitted| + |events| + 1, conn := NoOne, reports := s.reports + [Report(id, events + [last])])
  {
    var id := s.conn.id;
    var a := [Send, TakeInput];
    var b := a + Emits(events + [last]);
    var c := b + [FinishRun];
    var taken := TakenUp(s);
    EmitAll(taken, events + [last]);
    AfterAppend(s, a, Emits(events + [last]));
    var emitted := After(s, b);
    AfterAppend(s, b, [FinishRun]);
    AfterOne(emitted, FinishRun);
    var finished := After(s, c);
    AfterAppend(s, c, Receives(|events| + 1));
    assert finished.emitted[finished.consumed..] == Enveloped(events + [last], id);
    ReceiveAll(finished, id, events, last);
    assert [] + events + [last] == events + [last];
  }

  lemma TakenUp(s: State) returns (s': State)
    requires AgreeInv(s) && s.loop.Idle? && s.conn.Counted? && s.queue == []
    ensures s.conn.id == s.runId
    ensures s' == After(s, [Send, TakeInput]) ==
            s.(loop := Running, started := s.started + [(s.conn.id, s.runId)], conn := Collecting(s.conn.id, []))
  {
    s' := Apply(Apply(s, Send), TakeInput);
    assert [Send, TakeInput] == [Send] + [TakeInput];
    AfterAppend(s, [Send], [TakeInput]);
    AfterOne(s, Send);
    AfterOne(Apply(s, Send), TakeInput);
    assert [s.conn.id][1..] == [];
  }

  /** A connection that gets the lock discards what is left, counts its run and holds the lock until it has sent. */
  lemma {:induction false} LockDrainCount(s: State, drains: seq<Step>)
    requires s.conn.NoOne? && s.consumed <= |s.emitted|
    requires |drains| == |s.emitted| - s.consumed + 1 && forall i :: 0 <= i < |drains| ==> drains[i] == Drain
    ensures After(s, [Acquire(false)] + drains + [Count]) ==
            s.(consumed := |s.emitted|, conn := Counted(s.nextRunId), untouched := false, nextRunId := s.nextRunId + 1)
  {
    var a := Apply(s, Acquire(false));
    AfterAppend(s, [Acquire(false)] + drains, [Count]);
    AfterAppend(s, [Acquire(false)], drains);
    AfterOne(s, Acquire(false));
    DrainAll(a, drains);
    AfterOne(After(a, drains), Count);
  }

  lemma {:induction false} DrainAll(s: State, drains: seq<Step>)
    requires s.conn.Draining? && s.consumed <= |s.emitted|
    requires |drains| == |s.emitted| - s.consumed + 1 && forall i :: 0 <= i < |drains| ==> drains[i] == Drain
    ensures After(s, drains) == s.(consumed := |s.emitted|, conn := Ready(s.conn.initial))
    decreases |drains|
  {
    var s' := Apply(s, Drain);
    if s.consumed < |s.emitted| {
      DrainAll(s', drains[1..]);
    } else {
      assert drains[1..] == [];
    }
  }

  /** The first run: its connection sends before it counts, and the daemon goes on with id 1. */
  lemma FirstRun()
    ensures After(INIT, [StoreOpens, Acquire(true), Drain] + [Send, StoreCounter]) ==
            State(Idle, 0, [0], [], [], 0, false, Collecting(0, []), false, 1, [])
  {
    AfterAppend(INIT, [StoreOpens, Acquire(true), Drain], [Send, StoreCounter]);
    var ready := INIT.(loop := Idle, conn := Ready(true), untouched := false);
    assert Apply(Apply(Apply(INIT, StoreOpens), Acquire(true)), Drain) == ready;
    assert [StoreOpens, Acquire(true), Drain] == [StoreOpens] + ([Acquire(true)] + [Drain]);
    AfterAppend(INIT, [StoreOpens], [Acquire(true)] + [Drain]);
    AfterOne(INIT, StoreOpens);
    AfterAppend(Apply(INIT, StoreOpens), [Acquire(true)], [Drain]);
    AfterOne(Apply(INIT, StoreOpens), Acquire(true));
    AfterOne(Apply(Apply(INIT, StoreOpens), Acquire(true)), Drain);
    assert [Send, StoreCounter] == [Send] + [StoreCounter];
    AfterAppend(ready, [Send], [StoreCounter]);
    AfterOne(ready, Send);
    AfterOne(Apply(ready, Send), StoreCounter);
    assert INIT.queue + [0] == [0];
  }

  /** A send to a stopped loop is lost with its connection; a late event still carries its own run. */
  lemma StoppedAndLate(s: State, run: nat, event: Event)
    ensures s.loop.Stopped? && (s.conn.Counted? || s.conn == Ready(true)) ==> Apply(s, Send) == s.(conn := NoOne)
    ensures run < s.runId && !s.closed ==> Apply(s, EmitLate(run, event)) == s.(emitted := s.emitted + [Envelope(run, event)])
    ensures s.conn == Draining(false) ==> Apply(s, Abandon) == s.(conn := NoOne)
    ensures !s.loop.Starting? ==> Apply(s, Stop) == s.(loop := Stopped)
    ensures s.loop.Stopped? ==> Apply(s, CloseEvents) == s.(closed := true)
  {
  }

  /** What cannot happen: the loop stops only once the store has opened or failed, and the first run neither gives up nor counts before it sends. */
  lemma NotEnabled(s: State, run: nat, event: Event)
    ensures s.loop.Starting? ==> Apply(s, Stop) == s
    ensures s.conn == Draining(true) ==> Apply(s, Abandon) == s
    ensures s.conn == Ready(true) ==> Apply(s, Count) == s
    ensures !s.untouched ==> Apply(s, Acquire(true)) == s
    ensures !s.conn.NoOne? ==> Apply(s, Acquire(false)) == s
    ensures s.loop != Running ==> Apply(s, FinishRun) == s
    ensures s.loop != Stopped ==> Apply(s, CloseEvents) == s
    ensures s.closed ==> Apply(s, Emit(event)) == s && Apply(s, EmitLate(run, event)) == s
  {
  }
}
