/**
 * The ACP server's prompt and permission protocol: one reader, one event pump per
 * session, sharing two locked cells and an atomic request-id counter.
 */
module AcpSession {
  import opened Wrappers

  const FIRST_OUTGOING_REQUEST_ID: int := 1000
  const I64_MAX: int := 0x7FFF_FFFF_FFFF_FFFF
  const INVALID_PARAMS: int := -32602
  const INVALID_REQUEST: int := -32600
  const INTERNAL_ERROR: int := -32603

  datatype RequestId = Null | Number(n: int) | Text(text: string)

  /** A prompt request: the id the client chose, and where in the log it arrived. */
  datatype Ticket = Ticket(id: RequestId, at: nat)

  // ------------------------------------------------------ locked operations

  datatype Pending = Pending(id: Option<Ticket>, cancelRequested: bool)

  const NO_PROMPT := Pending(None, false)

  /** The locked part of `handle_prompt`: the new cell and the error, if any. */
  function Begin(p: Pending, t: Ticket, inputOpen: bool): (Pending, Option<int>) {
    if p.id.Some? then (p, Some(INVALID_REQUEST))
    else if inputOpen then (Pending(Some(t), false), None)
    else (Pending(None, false), Some(INTERNAL_ERROR))
  }

  /** The locked part of `handle_notification`. */
  function AskCancel(p: Pending): Pending { if p.id.Some? then p.(cancelRequested := true) else p }

  /** `take_pending`. */
  function Taken(p: Pending): (Pending, Option<(Ticket, bool)>) {
    if p.id.Some? then (NO_PROMPT, Some((p.id.value, p.cancelRequested))) else (p, None)
  }

  /** `next_request_id`. */
  function NextId(counter: int): (int, Option<int>) {
    if counter < I64_MAX then (counter + 1, Some(counter + 1)) else (counter, None)
  }

  /** The cells behind the locks, and the operations on them. */
  class Cells {
    var id: Option<Ticket>
    var cancelRequested: bool
    var permission: Option<RequestId>
    var counter: int

    ghost function Prompt(): Pending reads this { Pending(id, cancelRequested) }

    method BeginPrompt(t: Ticket, inputOpen: bool) returns (error: Option<int>)
      modifies this`id, this`cancelRequested
      ensures (Prompt(), error) == Begin(old(Prompt()), t, inputOpen)
    {
      if id.Some? {
        return Some(INVALID_REQUEST);
      }
      id := Some(t);
      cancelRequested := false;
      if !inputOpen {
        id := None;
        return Some(INTERNAL_ERROR);
      }
      return None;
    }

    method RequestCancel()
      modifies this`cancelRequested
      ensures Prompt() == AskCancel(old(Prompt()))
    {
      if id.Some? {
        cancelRequested := true;
      }
    }

    method TakePending() returns (taken: Option<(Ticket, bool)>)
      modifies this`id, this`cancelRequested
      ensures (Prompt(), taken) == Taken(old(Prompt()))
    {
      if id.None? {
        return None;
      }
      taken := Some((id.value, cancelRequested));
      id := None;
      cancelRequested := false;
    }

    method NextRequestId() returns (next: Option<int>)
      modifies this`counter
      ensures (counter, next) == NextId(old(counter))
    {
      if counter == I64_MAX {
        return None;
      }
      if counter < I64_MAX {
        counter := counter + 1;
        return Some(counter);
      }
      return None;
    }

    /** `permission_response_answer`: whether the response is the awaited one. */
    method TakePermission(response: RequestId) returns (awaited: bool)
      modifies this`permission
      ensures awaited == (old(permission) == Some(response))
      ensures permission == if awaited then None else old(permission)
    {
      if permission != Some(response) {
        return false;
      }
      permission := None;
      return true;
    }
  }

  // --------------------------------------------------------- the protocol

  datatype Outcome = Stopped | Cancelled | Failed | Rejected(code: int)
  /** Why an answer is sent: the reader refused or retired the prompt, or its run ended. */
  datatype Cause = Refused | Retired | RunDone | RunFailed
  datatype Next = Install | Finish

  datatype Entry =
    | Prompt(id: RequestId)
    | Cancel
    | Answer(to: Ticket, takenAt: nat, cause: Cause, outcome: Outcome)
    | Reserve(pid: int, gen: nat)
    | Ask(pid: int, gen: nat)
    | Forward(response: RequestId, gen: nat)

  /** Where the reader stands; a retiring reader has taken the session out of the server. */
  datatype Reader =
    | Ready
    | Replying(to: Ticket, code: int)
    | Retiring(next: Next)
    | Cancelling(taken: Option<Ticket>, takenAt: nat, next: Next)
    | Joining(next: Next)
    | Ended

  datatype Pump =
    | Idle
    | Answering(to: Ticket, takenAt: nat, cause: Cause, outcome: Outcome)
    | Reserved(pid: int)
    | Asking(pid: int)

  datatype Session = Session(gen: nat, pending: Pending, permission: Option<RequestId>, pump: Pump)

  datatype State = State(reader: Reader, session: Option<Session>, gens: nat, counter: int, log: seq<Entry>)

  const INIT := State(Ready, None, 0, FIRST_OUTGOING_REQUEST_ID, [])

  datatype Step =
    | ReadPrompt(id: RequestId, paramsOk: bool, inputOpen: bool)
    | Reply
    | ReadCancel
    | ReadNewSession(ok: bool)
    | ReadResponse(response: RequestId)
    | InputEnds
    | RetireTake
    | RetireAnswer
    | RetireJoin
    | PumpDone
    | PumpError
    | PumpPermission
    | PumpSetPermission
    | PumpSend

  function Logged(s: State, e: Entry): State { s.(log := s.log + [e]) }

  function WithPending(s: State, p: Pending): State
    requires s.session.Some?
  {
    s.(session := Some(s.session.value.(pending := p)))
  }

  function WithPump(s: State, pump: Pump): State
    requires s.session.Some?
  {
    s.(session := Some(s.session.value.(pump := pump)))
  }

  function OnPrompt(s: State, id: RequestId, paramsOk: bool, inputOpen: bool): State {
    var t := Ticket(id, |s.log|);
    var s' := Logged(s, Prompt(id));
    if !paramsOk then s'.(reader := Replying(t, INVALID_PARAMS))
    else if s.session.None? then s'.(reader := Replying(t, INVALID_REQUEST))
    else
      var (p, error) := Begin(s.session.value.pending, t, inputOpen);
      var s'' := WithPending(s', p);
      if error.Some? then s''.(reader := Replying(t, error.value)) else s''
  }

  function OnCancel(s: State): State {
    var s' := Logged(s, Cancel);
    if s.session.None? then s' else WithPending(s', AskCancel(s.session.value.pending))
  }

  function OnResponse(s: State, response: RequestId): State {
    if s.session.Some? && s.session.value.permission == Some(response) then
      Logged(s.(session := Some(s.session.value.(permission := None))), Forward(response, s.session.value.gen))
    else s
  }

  function Installed(s: State): State {
    s.(reader := Ready, session := Some(Session(s.gens, NO_PROMPT, None, Idle)), gens := s.gens + 1)
  }

  function AfterRetire(s: State, next: Next): State {
    if next.Install? then Installed(s) else s.(reader := Ended, session := None)
  }

  function OnRetireTake(s: State, next: Next): State {
    if s.session.None? then AfterRetire(s, next)
    else
      var (p, taken) := Taken(s.session.value.pending);
      WithPending(s, p).(reader := Cancelling(if taken.Some? then Some(taken.value.0) else None, |s.log|, next))
  }

  function OnRetireAnswer(s: State, taken: Option<Ticket>, takenAt: nat, next: Next): State {
    var s' := s.(reader := Joining(next));
    if taken.Some? then Logged(s', Answer(taken.value, takenAt, Retired, Cancelled)) else s'
  }

  /** `Done` and `Error` events: take the pending prompt, to answer it in a later step. */
  function OnPumpEnd(s: State, failed: bool): State
    requires s.session.Some?
  {
    var (p, taken) := Taken(s.session.value.pending);
    if taken.None? then s
    else
      var outcome := if !failed then Stopped else if taken.value.1 then Cancelled else Failed;
      WithPump(WithPending(s, p), Answering(taken.value.0, |s.log|, if failed then RunFailed else RunDone, outcome))
  }

  function OnPumpPermission(s: State): State
    requires s.session.Some?
  {
    var (counter, pid) := NextId(s.counter);
    if pid.None? then s
    else Logged(WithPump(s.(counter := counter), Reserved(pid.value)), Reserve(pid.value, s.session.value.gen))
  }

  function OnPumpSetPermission(s: State): State
    requires s.session.Some? && s.session.value.pump.Reserved?
  {
    var session := s.session.value;
    s.(session := Some(session.(permission := Some(Number(session.pump.pid)), pump := Asking(session.pump.pid))))
  }

  function OnPumpSend(s: State): State
    requires s.session.Some?
  {
    match s.session.value.pump
    case Answering(t, takenAt, cause, outcome) => Logged(WithPump(s, Idle), Answer(t, takenAt, cause, outcome))
    case Asking(pid) => Logged(WithPump(s, Idle), Ask(pid, s.session.value.gen))
    case _ => s
  }

  predicate PumpIdle(s: State) { s.session.Some? && s.session.value.pump.Idle? }

  /** One atomic step; a step that is not enabled changes nothing. */
  function Apply(s: State, step: Step): State {
    match step
    case ReadPrompt(id, paramsOk, inputOpen) => if s.reader.Ready? then OnPrompt(s, id, paramsOk, inputOpen) else s
    case Reply =>
      if s.reader.Replying? then
        Logged(s.(reader := Ready), Answer(s.reader.to, |s.log|, Refused, Rejected(s.reader.code)))
      else s
    case ReadCancel => if s.reader.Ready? then OnCancel(s) else s
    case ReadNewSession(ok) => if s.reader.Ready? && ok then s.(reader := Retiring(Install)) else s
    case ReadResponse(response) => if s.reader.Ready? then OnResponse(s, response) else s
    case InputEnds => if s.reader.Ready? then s.(reader := Retiring(Finish)) else s
    case RetireTake => if s.reader.Retiring? then OnRetireTake(s, s.reader.next) else s
    case RetireAnswer =>
      if s.reader.Cancelling? then OnRetireAnswer(s, s.reader.taken, s.reader.takenAt, s.reader.next) else s
    case RetireJoin => if s.reader.Joining? && PumpIdle(s) then AfterRetire(s, s.reader.next) else s
    case PumpDone => if PumpIdle(s) then OnPumpEnd(s, false) else s
    case PumpError => if PumpIdle(s) then OnPumpEnd(s, true) else s
    case PumpPermission => if PumpIdle(s) then OnPumpPermission(s) else s
    case PumpSetPermission =>
      if s.session.Some? && s.session.value.pump.Reserved? then OnPumpSetPermission(s) else s
    case PumpSend => if s.session.Some? then OnPumpSend(s) else s
  }

  function Run(s: State, steps: seq<Step>): State
    decreases |steps|
  {
    if steps == [] then s else Apply(Run(s, steps[..|steps| - 1]), steps[|steps| - 1])
  }

  // ------------------------------------------------ who holds which prompt

  /** How many answers the prompt that arrived at `k` has received. */
  function Answers(log: seq<Entry>, k: nat): nat {
    if log == [] then 0
    else Answers(log[..|log| - 1], k) + if log[|log| - 1].Answer? && log[|log| - 1].to.at == k then 1 else 0
  }

  function CellTicket(s: State): Option<Ticket> {
    if s.session.Some? then s.session.value.pending.id else None
  }

  function PumpTicket(s: State): Option<Ticket> {
    if s.session.Some? && s.session.value.pump.Answering? then Some(s.session.value.pump.to) else None
  }

  function ReaderTicket(s: State): Option<Ticket> {
    match s.reader
    case Replying(t, _) => Some(t)
    case Cancelling(taken, _, _) => taken
    case _ => None
  }

  function Holds(o: Option<Ticket>, k: nat): nat { if o.Some? && o.value.at == k then 1 else 0 }

  function Held(s: State, k: nat): nat {
    Holds(CellTicket(s), k) + Holds(PumpTicket(s), k) + Holds(ReaderTicket(s), k)
  }

  predicate IsPrompt(log: seq<Entry>, k: nat) { k < |log| && log[k].Prompt? }

  /** Every prompt is answered once or held once; nothing else is. */
  ghost predicate Balanced(s: State) {
    forall k: nat :: Answers(s.log, k) + Held(s, k) == if IsPrompt(s.log, k) then 1 else 0
  }

  predicate Issued(log: seq<Entry>, t: Ticket) { t.at < |log| && log[t.at] == Prompt(t.id) }

  /** Tickets name the request they came from, in hand and in every answer. */
  ghost predicate Genuine(s: State) {
    && (CellTicket(s).Some? ==> Issued(s.log, CellTicket(s).value))
    && (PumpTicket(s).Some? ==> Issued(s.log, PumpTicket(s).value))
    && (ReaderTicket(s).Some? ==> Issued(s.log, ReaderTicket(s).value))
    && (forall j :: 0 <= j < |s.log| && s.log[j].Answer? ==> s.log[j].to.at < j && Issued(s.log, s.log[j].to))
  }

  /** A client cancel arrived strictly between two points of the log. */
  ghost predicate CancelBetween(log: seq<Entry>, from: int, to: int) {
    exists c :: from < c < to && 0 <= c < |log| && log[c] == Cancel
  }

  /** The outcome fits the cause; a failed run is cancelled exactly when a cancel arrived while it was pending. */
  ghost predicate Truthful(log: seq<Entry>, t: Ticket, takenAt: nat, cause: Cause, outcome: Outcome) {
    && t.at < takenAt <= |log|
    && match cause
       case Refused => outcome.Rejected?
       case Retired => outcome == Cancelled
       case RunDone => outcome == Stopped
       case RunFailed => outcome == if CancelBetween(log, t.at, takenAt) then Cancelled else Failed
  }

  /** A retiring reader holds the session; once it has taken the prompt no other can be accepted. */
  predicate Phased(s: State) {
    && (s.reader.Cancelling? || s.reader.Joining? ==> s.session.Some? && s.session.value.pending.id.None?)
    && (s.reader.Ended? ==> s.session.None?)
  }

  ghost predicate Inv(s: State) {
    Balanced(s) && Genuine(s) && CellTracked(s) && PumpTruthful(s) && ReaderTruthful(s) && LogTruthful(s.log) && Phased(s)
  }

  lemma AnswersAppend(log: seq<Entry>, e: Entry, k: nat)
    ensures Answers(log + [e], k) == Answers(log, k) + if e.Answer? && e.to.at == k then 1 else 0
  {
    assert (log + [e])[..|log|] == log;
  }

  /** A ticket just issued at the end of the log is held by nobody else. */
  lemma NotYetHeld(s: State)
    requires Balanced(s)
    ensures Answers(s.log, |s.log|) == 0 && Held(s, |s.log|) == 0
  {
    assert !IsPrompt(s.log, |s.log|);
  }

  /** How one step moves prompts between the log, the cell, the pump and the reader. */
  ghost predicate Moves(s: State, s': State, k: nat) {
    Answers(s'.log, k) + Held(s', k) - (if IsPrompt(s'.log, k) then 1 else 0) ==
    Answers(s.log, k) + Held(s, k) - (if IsPrompt(s.log, k) then 1 else 0)
  }

  lemma PromptMoves(s: State, id: RequestId, paramsOk: bool, inputOpen: bool, k: nat)
    requires s.reader.Ready? && Answers(s.log, |s.log|) == 0 && Held(s, |s.log|) == 0
    ensures Moves(s, OnPrompt(s, id, paramsOk, inputOpen), k)
  {
    hide Answers;
    AnswersAppend(s.log, Prompt(id), k);
  }

  lemma OtherReadsMove(s: State, step: Step, k: nat)
    requires step.Reply? || step.ReadCancel? || step.ReadNewSession? || step.ReadResponse? || step.InputEnds?
    ensures Moves(s, Apply(s, step), k)
  {
    hide Answers;
    var s' := Apply(s, step);
    if |s'.log| > |s.log| {
      AnswersAppend(s.log, s'.log[|s.log|], k);
    }
  }

  lemma RetireMoves(s: State, step: Step, k: nat)
    requires Phased(s) && (step.RetireTake? || step.RetireAnswer? || step.RetireJoin?)
    ensures Moves(s, Apply(s, step), k)
  {
    hide Answers;
    var s' := Apply(s, step);
    if |s'.log| > |s.log| {
      AnswersAppend(s.log, s'.log[|s.log|], k);
    }
  }

  lemma PumpMoves(s: State, step: Step, k: nat)
    requires step.PumpDone? || step.PumpError? || step.PumpPermission? || step.PumpSetPermission? || step.PumpSend?
    ensures Moves(s, Apply(s, step), k)
  {
    hide Answers;
    var s' := Apply(s, step);
    if |s'.log| > |s.log| {
      AnswersAppend(s.log, s'.log[|s.log|], k);
    }
  }

  lemma StepBalanced(s: State, step: Step)
    requires Balanced(s) && Phased(s)
    ensures Balanced(Apply(s, step))
  {
    hide Answers, Held, OnPrompt, OnCancel, OnResponse, OnRetireTake, OnRetireAnswer, AfterRetire;
    NotYetHeld(s);
    forall k: nat ensures Moves(s, Apply(s, step), k) {
      match step
      case ReadPrompt(id, paramsOk, inputOpen) =>
        if s.reader.Ready? {
          PromptMoves(s, id, paramsOk, inputOpen, k);
        }
      case RetireTake => RetireMoves(s, step, k);
      case RetireAnswer => RetireMoves(s, step, k);
      case RetireJoin => RetireMoves(s, step, k);
      case PumpDone => PumpMoves(s, step, k);
      case PumpError => PumpMoves(s, step, k);
      case PumpPermission => PumpMoves(s, step, k);
      case PumpSetPermission => PumpMoves(s, step, k);
      case PumpSend => PumpMoves(s, step, k);
      case _ => OtherReadsMove(s, step, k);
    }
    MovesBalance(s, Apply(s, step));
  }

  lemma MovesBalance(s: State, s': State)
    requires Balanced(s) && forall k: nat :: Moves(s, s', k)
    ensures Balanced(s')
  {
    hide Answers, Held;
    forall k: nat ensures Answers(s'.log, k) + Held(s', k) == if IsPrompt(s'.log, k) then 1 else 0 {
      assert Moves(s, s', k);
      assert Answers(s.log, k) + Held(s, k) == if IsPrompt(s.log, k) then 1 else 0;
    }
  }

  lemma CancelAppend(log: seq<Entry>, e: Entry, from: int, to: int)
    ensures to <= |log| ==> (CancelBetween(log + [e], from, to) <==> CancelBetween(log, from, to))
    ensures from < |log| ==> (CancelBetween(log + [e], from, |log| + 1) <==> CancelBetween(log, from, |log|) || e == Cancel)
  {
    assert forall c :: 0 <= c < |log| ==> (log + [e])[c] == log[c];
    assert (log + [e])[|log|] == e;
  }

  /** The log only grows, by at most one entry. */
  predicate Grows(log: seq<Entry>, log': seq<Entry>) {
    log' == log || (|log'| == |log| + 1 && log'[..|log|] == log)
  }

  predicate InHand(s: State, o: Option<Ticket>) {
    o.None? || o == CellTicket(s) || o == PumpTicket(s) || o == ReaderTicket(s)
  }

  predicate JustIssued(s: State, s': State, o: Option<Ticket>) {
    |s'.log| > |s.log| && s'.log[|s.log|].Prompt? && o == Some(Ticket(s'.log[|s.log|].id, |s.log|))
  }

  /** Where the tickets of the next state come from. */
  predicate Inherits(s: State, s': State) {
    && Grows(s.log, s'.log)
    && (InHand(s, CellTicket(s')) || JustIssued(s, s', CellTicket(s')))
    && (InHand(s, PumpTicket(s')) || JustIssued(s, s', PumpTicket(s')))
    && (InHand(s, ReaderTicket(s')) || JustIssued(s, s', ReaderTicket(s')))
    && (|s'.log| > |s.log| && s'.log[|s.log|].Answer? ==> InHand(s, Some(s'.log[|s.log|].to)))
  }

  lemma StepInherits(s: State, step: Step)
    ensures Inherits(s, Apply(s, step))
  {
    var s' := Apply(s, step);
    if |s'.log| > |s.log| {
      assert s'.log[..|s.log|] == s.log;
    }
  }

  lemma GrowsAt(log: seq<Entry>, log': seq<Entry>, j: nat)
    requires Grows(log, log') && j < |log|
    ensures j < |log'| && log'[j] == log[j]
  {
    assert log'[..|log|][j] == log[j];
  }

  lemma StaysIssued(s: State, s': State, o: Option<Ticket>)
    requires Genuine(s) && Grows(s.log, s'.log) && (InHand(s, o) || JustIssued(s, s', o))
    ensures o.Some? ==> Issued(s'.log, o.value) && (InHand(s, o) ==> o.value.at < |s.log|)
  {
    if o.Some? && InHand(s, o) {
      GrowsAt(s.log, s'.log, o.value.at);
    }
  }

  lemma StepGenuine(s: State, step: Step)
    requires Genuine(s)
    ensures Genuine(Apply(s, step))
  {
    hide Apply, CellTicket, PumpTicket, ReaderTicket, Grows, InHand, Issued;
    var s' := Apply(s, step);
    StepInherits(s, step);
    StaysIssued(s, s', CellTicket(s'));
    StaysIssued(s, s', PumpTicket(s'));
    StaysIssued(s, s', ReaderTicket(s'));
    forall j | 0 <= j < |s'.log| && s'.log[j].Answer?
      ensures s'.log[j].to.at < j && Issued(s'.log, s'.log[j].to)
    {
      AnswerGenuine(s, s', j);
    }
  }

  lemma AnswerGenuine(s: State, s': State, j: nat)
    requires Genuine(s) && Inherits(s, s') && j < |s'.log| && s'.log[j].Answer?
    ensures s'.log[j].to.at < j && Issued(s'.log, s'.log[j].to)
  {
    hide CellTicket, PumpTicket, ReaderTicket, InHand;
    if j < |s.log| {
      GrowsAt(s.log, s'.log, j);
      assert s.log[j].Answer?;
      GrowsAt(s.log, s'.log, s.log[j].to.at);
    } else {
      StaysIssued(s, s', Some(s'.log[j].to));
    }
  }

  // ------------------------------------------------------------- cancelling

  lemma SameCancels(log: seq<Entry>, log': seq<Entry>, from: int, to: int)
    requires Grows(log, log') && to <= |log|
    ensures CancelBetween(log', from, to) <==> CancelBetween(log, from, to)
  {
    if |log'| > |log| {
      assert log' == log + [log'[|log|]];
      CancelAppend(log, log'[|log|], from, to);
    }
  }

  lemma StaysTruthful(log: seq<Entry>, log': seq<Entry>, t: Ticket, takenAt: nat, cause: Cause, outcome: Outcome)
    requires Truthful(log, t, takenAt, cause, outcome) && Grows(log, log')
    ensures Truthful(log', t, takenAt, cause, outcome)
  {
    SameCancels(log, log', t.at, takenAt);
  }

  ghost predicate CellTracked(s: State) {
    s.session.Some? ==>
      var p := s.session.value.pending;
      (p.cancelRequested ==> p.id.Some?) &&
      (p.id.Some? ==> p.id.value.at < |s.log| &&
                      (p.cancelRequested <==> CancelBetween(s.log, p.id.value.at, |s.log|)))
  }

  lemma StepCell(s: State, step: Step)
    requires CellTracked(s)
    ensures CellTracked(Apply(s, step))
  {
    hide CancelBetween;
    var s' := Apply(s, step);
    if |s'.log| > |s.log| {
      var e := s'.log[|s.log|];
      if CellTicket(s').Some? {
        CancelAppend(s.log, e, CellTicket(s').value.at, 0);
        NoCancelYet(s'.log);
      }
    }
  }

  lemma NoCancelYet(log: seq<Entry>)
    ensures !CancelBetween(log, |log| - 1, |log|)
  {
  }

  ghost predicate PumpTruthful(s: State) {
    PumpTicket(s).Some? ==>
      var pump := s.session.value.pump; Truthful(s.log, pump.to, pump.takenAt, pump.cause, pump.outcome)
  }

  lemma StepPump(s: State, step: Step)
    requires CellTracked(s) && PumpTruthful(s)
    ensures PumpTruthful(Apply(s, step))
  {
    hide CancelBetween;
    var s' := Apply(s, step);
    StepInherits(s, step);
    if PumpTicket(s').Some? && PumpTicket(s).Some? {
      hide Truthful;
      var pump := s.session.value.pump;
      StaysTruthful(s.log, s'.log, pump.to, pump.takenAt, pump.cause, pump.outcome);
    }
  }

  ghost predicate LogTruthful(log: seq<Entry>) {
    forall j :: 0 <= j < |log| && log[j].Answer? ==>
      Truthful(log, log[j].to, log[j].takenAt, log[j].cause, log[j].outcome)
  }

  /** The reader's own answers, by what it is doing. */
  ghost predicate ReaderTruthful(s: State) {
    match s.reader
    case Replying(t, _) => t.at < |s.log|
    case Cancelling(Some(t), takenAt, _) => t.at < takenAt <= |s.log|
    case _ => true
  }

  lemma StepReader(s: State, step: Step)
    requires CellTracked(s) && ReaderTruthful(s)
    ensures ReaderTruthful(Apply(s, step))
  {
    hide CancelBetween;
  }

  lemma NewAnswer(s: State, step: Step)
    requires PumpTruthful(s) && ReaderTruthful(s)
    ensures var s' := Apply(s, step);
            |s'.log| > |s.log| && s'.log[|s.log|].Answer? ==>
              var e := s'.log[|s.log|]; Truthful(s.log, e.to, e.takenAt, e.cause, e.outcome)
  {
    hide CancelBetween;
  }

  lemma StepLog(s: State, step: Step)
    requires LogTruthful(s.log) && PumpTruthful(s) && ReaderTruthful(s)
    ensures LogTruthful(Apply(s, step).log)
  {
    hide Apply, CancelBetween, Truthful, Grows, PumpTruthful, ReaderTruthful;
    var s' := Apply(s, step);
    StepInherits(s, step);
    NewAnswer(s, step);
    forall j | 0 <= j < |s'.log| && s'.log[j].Answer?
      ensures Truthful(s'.log, s'.log[j].to, s'.log[j].takenAt, s'.log[j].cause, s'.log[j].outcome)
    {
      if j < |s.log| {
        GrowsAt(s.log, s'.log, j);
        assert s.log[j].Answer?;
        StaysTruthful(s.log, s'.log, s.log[j].to, s.log[j].takenAt, s.log[j].cause, s.log[j].outcome);
      } else {
        GrowsLength(s.log, s'.log);
        var e := s'.log[|s.log|];
        StaysTruthful(s.log, s'.log, e.to, e.takenAt, e.cause, e.outcome);
      }
    }
  }

  lemma GrowsLength(log: seq<Entry>, log': seq<Entry>)
    requires Grows(log, log')
    ensures |log| <= |log'| <= |log| + 1
  {
  }

  // --------------------------------------------------- every run, prompts

  lemma StepPhased(s: State, step: Step)
    requires Phased(s)
    ensures Phased(Apply(s, step))
  {
  }

  lemma StepKeepsInv(s: State, step: Step)
    requires Inv(s)
    ensures Inv(Apply(s, step))
  {
    hide Balanced, Genuine, CellTracked, PumpTruthful, ReaderTruthful, LogTruthful, Phased, Apply;
    StepBalanced(s, step);
    StepReader(s, step);
    StepGenuine(s, step);
    StepCell(s, step);
    StepPump(s, step);
    StepLog(s, step);
    StepPhased(s, step);
  }

  lemma {:induction false} RunKeepsInv(steps: seq<Step>)
    ensures Inv(Run(INIT, steps))
    decreases |steps|
  {
    if steps != [] {
      hide Inv, Apply;
      RunKeepsInv(steps[..|steps| - 1]);
      StepKeepsInv(Run(INIT, steps[..|steps| - 1]), steps[|steps| - 1]);
    }
  }

  /** Never two answers to one prompt; none left over once the reader loop has ended. */
  lemma ExactlyOnce(steps: seq<Step>, k: nat)
    requires IsPrompt(Run(INIT, steps).log, k)
    ensures var s := Run(INIT, steps);
            Answers(s.log, k) <= 1 && (Answers(s.log, k) == 0 <==> Held(s, k) == 1) &&
            (s.reader.Ended? ==> Answers(s.log, k) == 1)
  {
    hide Apply, Run, Answers;
    RunKeepsInv(steps);
    var s := Run(INIT, steps);
    assert Answers(s.log, k) + Held(s, k) == 1;
  }

  /** Every answer is to an earlier prompt and carries that prompt's id. */
  lemma AnswersTheirPrompt(steps: seq<Step>, j: nat)
    requires var log := Run(INIT, steps).log; j < |log| && log[j].Answer?
    ensures var log := Run(INIT, steps).log; log[j].to.at < j && log[log[j].to.at] == Prompt(log[j].to.id)
  {
    hide Apply, Run;
    RunKeepsInv(steps);
  }

  /**
   * What each answer says: a refusal is an error, retirement cancels, a finished run stops, and a
   * failing run is reported as cancelled exactly when the client's cancel arrived while that very
   * prompt was pending. So a cancel never leaks into a later prompt, and is never lost.
   */
  lemma CancelledIffAsked(steps: seq<Step>, j: nat)
    requires var log := Run(INIT, steps).log; j < |log| && log[j].Answer?
    ensures var log := Run(INIT, steps).log; var e := log[j];
            match e.cause
            case Refused => e.outcome.Rejected?
            case Retired => e.outcome == Cancelled
            case RunDone => e.outcome == Stopped
            case RunFailed => e.outcome == if CancelBetween(log, e.to.at, e.takenAt) then Cancelled else Failed
  {
    hide Apply, Run, CancelBetween;
    RunKeepsInv(steps);
    var log := Run(INIT, steps).log;
    assert Truthful(log, log[j].to, log[j].takenAt, log[j].cause, log[j].outcome);
  }

  /** The cell's own invariant, in every reachable state. */
  lemma {:induction false} CancelNeedsPrompt(steps: seq<Step>)
    ensures var s := Run(INIT, steps);
            s.session.Some? && s.session.value.pending.cancelRequested ==> s.session.value.pending.id.Some?
  {
    hide Apply, Run;
    RunKeepsInv(steps);
  }

  // ------------------------------------------------- retirement completes

  /** How far the reader is from having retired the session. */
  function Rank(r: Reader): nat {
    match r
    case Retiring(_) => 3
    case Cancelling(_, _, _) => 2
    case Joining(_) => 1
    case _ => 0
  }

  /** How many steps the pump needs to finish the event in hand. */
  function InHandSteps(s: State): nat {
    if s.session.None? then 0
    else match s.session.value.pump
      case Idle => 0
      case Reserved(_) => 2
      case _ => 1
  }

  /** What is left to do before the session is retired. */
  function Left(s: State): nat { if Rank(s.reader) == 0 then 0 else Rank(s.reader) + InHandSteps(s) }

  /** The pump takes another event from the agent. */
  predicate NewEvent(step: Step) { step.PumpDone? || step.PumpError? || step.PumpPermission? }

  lemma RetireStep(s: State, step: Step)
    requires Phased(s) && Rank(s.reader) > 0
    ensures var s' := Apply(s, step);
            if NewEvent(step) then Left(s') <= Left(s) + 2 else s' == s || Left(s') < Left(s)
  {
  }

  /** A schedule, up to the point where the session is retired. */
  function Until(s: State, steps: seq<Step>): State
    decreases |steps|
  {
    if steps == [] || Rank(s.reader) == 0 then s else Until(Apply(s, steps[0]), steps[1..])
  }

  /** The steps on the way that did something other than take a new event, and the new events taken. */
  function Worked(s: State, steps: seq<Step>): nat
    decreases |steps|
  {
    if steps == [] || Rank(s.reader) == 0 then 0
    else (if !NewEvent(steps[0]) && Apply(s, steps[0]) != s then 1 else 0) + Worked(Apply(s, steps[0]), steps[1..])
  }

  function NewEvents(s: State, steps: seq<Step>): nat
    decreases |steps|
  {
    if steps == [] || Rank(s.reader) == 0 then 0
    else (if NewEvent(steps[0]) then 1 else 0) + NewEvents(Apply(s, steps[0]), steps[1..])
  }

  /**
   * In every schedule, retirement takes a bounded number of steps: at most five, and two more for
   * each event the pump still takes from the agent.
   */
  lemma {:induction false} RetirementBounded(s: State, steps: seq<Step>)
    requires Phased(s)
    ensures Worked(s, steps) + Left(Until(s, steps)) <= Left(s) + 2 * NewEvents(s, steps) && Left(s) <= 5
    decreases |steps|
  {
    hide Apply, Phased;
    if steps != [] && Rank(s.reader) > 0 {
      RetireStep(s, steps[0]);
      StepPhased(s, steps[0]);
      RetirementBounded(Apply(s, steps[0]), steps[1..]);
    }
  }

  /** A session is being retired from the request to the end of its pump. */
  lemma RetiringMeans(r: Reader)
    ensures Rank(r) > 0 <==> r.Retiring? || r.Cancelling? || r.Joining?
  {
  }

  /** What is counted: while the session is being retired, each step that takes a new event, and each other one that does something. */
  lemma StepsCounted(s: State, step: Step, rest: seq<Step>)
    ensures Worked(s, []) == 0 && NewEvents(s, []) == 0 && Until(s, []) == s
    ensures var s', live := Apply(s, step), s.reader.Retiring? || s.reader.Cancelling? || s.reader.Joining?;
            var newEvent := step in {PumpDone, PumpError, PumpPermission};
            && Worked(s, [step] + rest) == (if live then Worked(s', rest) + (if !newEvent && s' != s then 1 else 0) else 0)
            && NewEvents(s, [step] + rest) == (if live then NewEvents(s', rest) + (if newEvent then 1 else 0) else 0)
            && Until(s, [step] + rest) == if live then Until(s', rest) else s
  {
    hide Apply;
    RetiringMeans(s.reader);
    assert ([step] + rest)[1..] == rest;
  }

  function NextMove(s: State): Step {
    match s.reader
    case Retiring(_) => RetireTake
    case Cancelling(_, _, _) => RetireAnswer
    case _ =>
      if InHandSteps(s) == 0 then RetireJoin else if InHandSteps(s) == 2 then PumpSetPermission else PumpSend
  }

  /** And until it is done there is always a step that brings it nearer, with no new event needed. */
  lemma RetirementNeverStuck(s: State)
    requires Phased(s) && Rank(s.reader) > 0
    ensures !NewEvent(NextMove(s)) && Left(Apply(s, NextMove(s))) < Left(s)
  {
  }

  /** From every state some schedule ends the loop. */
  lemma CanAlwaysEnd(s: State)
    requires Phased(s)
    ensures var a := Apply(Apply(s, PumpSetPermission), PumpSend);
            var b := Apply(Apply(Apply(Apply(a, Reply), RetireTake), RetireAnswer), RetireJoin);
            var c := Apply(Apply(Apply(Apply(b, InputEnds), RetireTake), RetireAnswer), RetireJoin);
            c.reader.Ended?
  {
    hide Logged;
    var a := Apply(Apply(s, PumpSetPermission), PumpSend);
    PumpComesToRest(s);
    var b := Apply(Apply(Apply(Apply(a, Reply), RetireTake), RetireAnswer), RetireJoin);
    RetireCompletes(a);
    var b' := Apply(b, InputEnds);
    RetireCompletes(b');
  }

  lemma PumpComesToRest(s: State)
    requires Phased(s)
    ensures var a := Apply(Apply(s, PumpSetPermission), PumpSend);
            Phased(a) && a.reader == s.reader && (a.session.Some? ==> PumpIdle(a))
  {
  }

  lemma RetireCompletes(s: State)
    requires Phased(s) && (s.session.Some? ==> PumpIdle(s))
    ensures var t := Apply(Apply(Apply(Apply(s, Reply), RetireTake), RetireAnswer), RetireJoin);
            Phased(t) && (t.session.Some? ==> PumpIdle(t)) && (t.reader.Ready? || t.reader.Ended?) &&
            (s.reader == Retiring(Finish) || s.reader == Ended ==> t.reader.Ended?)
  {
  }

  // ------------------------------------------------------ what each step does

  /** An accepted prompt becomes the pending one, and is not answered yet. */
  lemma PromptBecomesPending(s: State, id: RequestId)
    requires s.reader.Ready? && s.session.Some? && s.session.value.pending.id.None?
    ensures var s' := Apply(s, ReadPrompt(id, true, true));
            s' == s.(log := s.log + [Prompt(id)],
                     session := Some(s.session.value.(pending := Pending(Some(Ticket(id, |s.log|)), false))))
  {
  }

  /** Every other prompt is answered at once with its error, and leaves the session as it was. */
  lemma PromptRefused(s: State, id: RequestId, paramsOk: bool, inputOpen: bool)
    requires s.reader.Ready?
    requires !(paramsOk && inputOpen && s.session.Some? && s.session.value.pending.id.None?)
    ensures var s' := Apply(Apply(s, ReadPrompt(id, paramsOk, inputOpen)), Reply);
            var code := if !paramsOk then -32602
                        else if s.session.None? || s.session.value.pending.id.Some? then -32600 else -32603;
            s'.log == s.log + [Prompt(id), Answer(Ticket(id, |s.log|), |s.log| + 1, Refused, Rejected(code))] &&
            s'.reader.Ready? && s'.counter == s.counter && s'.gens == s.gens &&
            (s.session.None? ==> s'.session.None?) &&
            (s.session.Some? ==> s'.session.Some? && s'.session.value.pending.id == s.session.value.pending.id &&
                                 s'.session.value.(pending := NO_PROMPT) == s.session.value.(pending := NO_PROMPT) &&
                                 (s.session.value.pending.id.Some? ==> s'.session == s.session))
  {
    assert s.log + [Prompt(id)] + [Answer(Ticket(id, |s.log|), |s.log| + 1, Refused, Rejected(-32602))] ==
           s.log + [Prompt(id), Answer(Ticket(id, |s.log|), |s.log| + 1, Refused, Rejected(-32602))];
  }

  /** A cancel marks the pending prompt, and without one it marks nothing. */
  lemma CancelMarks(s: State)
    requires s.reader.Ready?
    ensures var s' := Apply(s, ReadCancel);
            if s.session.Some? && s.session.value.pending.id.Some? then
              s' == s.(log := s.log + [Cancel],
                       session := Some(s.session.value.(pending := Pending(s.session.value.pending.id, true))))
            else s' == s.(log := s.log + [Cancel])
  {
  }

  /** A finished run answers the pending prompt and frees the cell for the next one. */
  lemma DoneAnswers(s: State, t: Ticket, cancelRequested: bool)
    requires PumpIdle(s) && s.session.value.pending == Pending(Some(t), cancelRequested)
    ensures var s' := Apply(Apply(s, PumpDone), PumpSend);
            s' == s.(log := s.log + [Answer(t, |s.log|, RunDone, Stopped)],
                     session := Some(s.session.value.(pending := Pending(None, false))))
  {
  }

  /** So does a failing one, and it says whether the client had asked for it. */
  lemma ErrorAnswers(s: State, t: Ticket, cancelRequested: bool)
    requires PumpIdle(s) && s.session.value.pending == Pending(Some(t), cancelRequested)
    ensures var s' := Apply(Apply(s, PumpError), PumpSend);
            s' == s.(log := s.log + [Answer(t, |s.log|, RunFailed, if cancelRequested then Cancelled else Failed)],
                     session := Some(s.session.value.(pending := Pending(None, false))))
  {
  }

  /** With no prompt pending the end of a run answers nobody. */
  lemma NobodyToAnswer(s: State)
    requires PumpIdle(s) && s.session.value.pending.id.None?
    ensures Apply(s, PumpDone) == s && Apply(s, PumpError) == s
  {
  }

  /** From the start: a session, a prompt, its run, its answer. */
  lemma PromptRoundTrip(id: RequestId)
    ensures var s := Run(INIT, [ReadNewSession(true), RetireTake, ReadPrompt(id, true, true), PumpDone, PumpSend]);
            s.log == [Prompt(id), Answer(Ticket(id, 0), 1, RunDone, Stopped)] && s.reader.Ready?
  {
    var start := [ReadNewSession(true), RetireTake, ReadPrompt(id, true, true)];
    var steps := [ReadNewSession(true), RetireTake, ReadPrompt(id, true, true), PumpDone, PumpSend];
    RunFirst(start);
    assert steps[..4][..3] == start && steps[..4] == steps[..|steps| - 1];
    DoneAnswers(Run(INIT, start), Ticket(id, 0), false);
  }

  lemma RunFirst(start: seq<Step>)
    requires |start| == 3
    ensures Run(INIT, start) == Apply(Apply(Apply(INIT, start[0]), start[1]), start[2])
  {
    hide Apply;
    assert start[..2][..1] == start[..1] && start[..1][..0] == [];
    assert Run(INIT, []) == INIT;
    assert Run(INIT, start[..1]) == Apply(INIT, start[0]);
  }

  /** A permission request goes out under the next id and is then awaited. */
  lemma PermissionAsked(s: State)
    requires PumpIdle(s) && s.counter < 0x7FFF_FFFF_FFFF_FFFF
    ensures var s' := Apply(Apply(Apply(s, PumpPermission), PumpSetPermission), PumpSend);
            var pid := s.counter + 1;
            s' == s.(counter := pid, log := s.log + [Reserve(pid, s.session.value.gen), Ask(pid, s.session.value.gen)],
                     session := Some(s.session.value.(permission := Some(Number(pid)))))
  {
    var pid := s.counter + 1;
    assert s.log + [Reserve(pid, s.session.value.gen)] + [Ask(pid, s.session.value.gen)] ==
           s.log + [Reserve(pid, s.session.value.gen), Ask(pid, s.session.value.gen)];
  }

  /** Once the ids are used up nothing is asked: the request is denied without the client. */
  lemma PermissionExhausted(s: State)
    requires PumpIdle(s) && s.counter >= 0x7FFF_FFFF_FFFF_FFFF
    ensures Apply(s, PumpPermission) == s
  {
  }

  /** The first request of all goes out under id 1001. */
  lemma FirstId()
    ensures INIT.counter + 1 == 1001
  {
  }

  /** The awaited response is forwarded, once; any other is ignored. */
  lemma ResponseForwarded(s: State, response: RequestId)
    requires s.reader.Ready?
    ensures var s' := Apply(s, ReadResponse(response));
            if s.session.Some? && s.session.value.permission == Some(response) then
              s' == s.(log := s.log + [Forward(response, s.session.value.gen)],
                       session := Some(s.session.value.(permission := None))) &&
              Apply(s', ReadResponse(response)) == s'
            else s' == s
  {
  }

  /** Retiring cancels the pending prompt, then a new session starts empty, or the loop ends. */
  lemma RetireReplaces(s: State, goOn: bool)
    requires s.reader.Ready? && PumpIdle(s)
    ensures var start := Apply(s, if goOn then ReadNewSession(true) else InputEnds);
            var s' := Apply(Apply(Apply(start, RetireTake), RetireAnswer), RetireJoin);
            var pending := s.session.value.pending.id;
            s'.log == s.log + (if pending.Some? then [Answer(pending.value, |s.log|, Retired, Cancelled)] else []) &&
            s'.counter == s.counter &&
            (if goOn then
               s'.reader.Ready? && s'.gens == s.gens + 1 &&
               s'.session == Some(Session(s.gens, Pending(None, false), None, Idle))
             else s'.reader.Ended? && s'.session.None?)
  {
    assert s.log + [] == s.log;
  }

  /** Without a session there is nothing to retire. */
  lemma FirstSession(s: State, goOn: bool)
    requires s.reader.Ready? && s.session.None?
    ensures var s' := Apply(Apply(s, if goOn then ReadNewSession(true) else InputEnds), RetireTake);
            s'.log == s.log && s'.counter == s.counter &&
            (if goOn then
               s'.reader.Ready? && s'.gens == s.gens + 1 &&
               s'.session == Some(Session(s.gens, Pending(None, false), None, Idle))
             else s'.reader.Ended? && s'.session.None?)
  {
  }

  /** A request for a new session that does not parse, or names no stored session, changes nothing. */
  lemma BadSessionRequest(s: State)
    ensures Apply(s, ReadNewSession(false)) == s
  {
  }

  // ----------------------------------------------------- permission requests

  /** Every reserved id is above the start and at most the counter, and they increase. */
  ghost predicate IdsIncrease(log: seq<Entry>, counter: int) {
    && FIRST_OUTGOING_REQUEST_ID <= counter <= I64_MAX
    && (forall i :: 0 <= i < |log| && (log[i].Reserve? || log[i].Ask?) ==>
          FIRST_OUTGOING_REQUEST_ID < log[i].pid <= counter)
    && (forall i, j :: 0 <= i < j < |log| && log[i].Reserve? && log[j].Reserve? ==> log[i].pid < log[j].pid)
    && (forall i, j :: 0 <= i < j < |log| && log[i].Ask? && log[j].Ask? ==> log[i].pid < log[j].pid)
  }

  ghost predicate ReservedBy(log: seq<Entry>, pid: int, gen: nat) { Reserve(pid, gen) in log }

  ghost predicate Unanswered(log: seq<Entry>, pid: int) {
    forall j :: 0 <= j < |log| && log[j].Forward? ==> log[j].response != Number(pid)
  }

  ghost predicate Unasked(log: seq<Entry>, pid: int) {
    forall j :: 0 <= j < |log| && log[j].Ask? ==> log[j].pid < pid
  }

  /** A permission id that one session holds: reserved for it and not yet answered. */
  ghost predicate Owned(log: seq<Entry>, pid: int, gen: nat) { ReservedBy(log, pid, gen) && Unanswered(log, pid) }

  ghost predicate SessionOwns(s: State) {
    s.session.Some? ==>
      var session := s.session.value;
      && session.gen < s.gens
      && (session.permission.Some? ==>
            session.permission.value.Number? && Owned(s.log, session.permission.value.n, session.gen))
      && (session.pump.Reserved? ==>
            Owned(s.log, session.pump.pid, session.gen) && session.permission != Some(Number(session.pump.pid)))
      && (session.pump.Reserved? || session.pump.Asking? ==>
            ReservedBy(s.log, session.pump.pid, session.gen) &&
            session.pump.pid == s.counter && Unasked(s.log, s.counter))
  }

  ghost predicate ForwardsOwned(log: seq<Entry>) {
    && (forall j :: 0 <= j < |log| && log[j].Forward? ==>
          log[j].response.Number? && ReservedBy(log[..j], log[j].response.n, log[j].gen))
    && (forall i, j :: 0 <= i < j < |log| && log[i].Forward? && log[j].Forward? ==>
          log[i].response != log[j].response)
  }

  ghost predicate PermInv(s: State) {
    IdsIncrease(s.log, s.counter) && SessionOwns(s) && ForwardsOwned(s.log)
  }

  /** What a step may add to the log, and when it moves the counter. */
  lemma StepEntry(s: State, step: Step)
    ensures var s' := Apply(s, step);
            s'.log == s.log || (|s'.log| == |s.log| + 1 && s'.log == s.log + [s'.log[|s.log|]])
    ensures var s' := Apply(s, step); |s'.log| == |s.log| ==> s'.counter == s.counter
    ensures var s' := Apply(s, step);
            |s'.log| > |s.log| ==>
              var e := s'.log[|s.log|];
              (e.Reserve? ==> PumpIdle(s) && e == Reserve(s.counter + 1, s.session.value.gen) &&
                              s.counter < I64_MAX && s'.counter == s.counter + 1) &&
              (!e.Reserve? ==> s'.counter == s.counter) &&
              (e.Ask? ==> s.session.Some? && s.session.value.pump == Asking(e.pid) && e.gen == s.session.value.gen) &&
              (e.Forward? ==> s.session.Some? && s.session.value.permission == Some(e.response) &&
                              e.gen == s.session.value.gen)
  {
    var s' := Apply(s, step);
    if |s'.log| > |s.log| {
      assert s'.log == s.log + [s'.log[|s.log|]];
    }
  }

  lemma AppendIds(log: seq<Entry>, counter: int, e: Entry, counter': int)
    requires IdsIncrease(log, counter)
    requires counter <= counter' <= I64_MAX && (e.Reserve? ==> counter < e.pid <= counter')
    requires e.Ask? ==> FIRST_OUTGOING_REQUEST_ID < e.pid <= counter' && Unasked(log, e.pid)
    ensures IdsIncrease(log + [e], counter')
  {
    var log' := log + [e];
    assert forall i :: 0 <= i < |log| ==> log'[i] == log[i];
    assert log'[|log|] == e;
  }

  lemma ReservedBounds(log: seq<Entry>, counter: int, pid: int, gen: nat)
    requires IdsIncrease(log, counter) && ReservedBy(log, pid, gen)
    ensures FIRST_OUTGOING_REQUEST_ID < pid <= counter
  {
    var i :| 0 <= i < |log| && log[i] == Reserve(pid, gen);
    assert log[i].Reserve?;
  }

  lemma StepIds(s: State, step: Step)
    requires PermInv(s)
    ensures IdsIncrease(Apply(s, step).log, Apply(s, step).counter)
  {
    hide Apply, IdsIncrease, ForwardsOwned, Owned, Unasked, ReservedBy;
    StepEntry(s, step);
    var s' := Apply(s, step);
    CounterBounds(s.log, s.counter);
    if |s'.log| > |s.log| {
      var e := s'.log[|s.log|];
      if e.Ask? {
        ReservedBounds(s.log, s.counter, e.pid, e.gen);
      }
      AppendIds(s.log, s.counter, e, s'.counter);
    }
  }

  lemma CounterBounds(log: seq<Entry>, counter: int)
    requires IdsIncrease(log, counter)
    ensures counter <= I64_MAX
  {
  }

  lemma AppendForwards(log: seq<Entry>, e: Entry)
    requires ForwardsOwned(log)
    requires e.Forward? ==> e.response.Number? && Owned(log, e.response.n, e.gen)
    ensures ForwardsOwned(log + [e])
  {
    var log' := log + [e];
    assert forall i :: 0 <= i < |log| ==> log'[i] == log[i];
    assert forall i :: 0 <= i <= |log| ==> log'[..i] == log[..i];
    assert log[..|log|] == log;
  }

  lemma StepForwards(s: State, step: Step)
    requires PermInv(s)
    ensures ForwardsOwned(Apply(s, step).log)
  {
    hide Apply, IdsIncrease, ForwardsOwned, Owned, Unasked, ReservedBy;
    StepEntry(s, step);
    var s' := Apply(s, step);
    if |s'.log| > |s.log| {
      AppendForwards(s.log, s'.log[|s.log|]);
    }
  }

  /** The id after the counter has been neither answered, asked nor awaited. */
  lemma FreshId(s: State)
    requires PermInv(s)
    ensures Unanswered(s.log, s.counter + 1) && Unasked(s.log, s.counter + 1)
    ensures s.session.Some? ==> s.session.value.permission != Some(Number(s.counter + 1))
  {
    hide Unasked, ReservedBy;
    forall j | 0 <= j < |s.log| && s.log[j].Forward? ensures s.log[j].response != Number(s.counter + 1) {
      PrefixReserved(s.log, j, s.log[j].response.n, s.log[j].gen);
      ReservedBounds(s.log, s.counter, s.log[j].response.n, s.log[j].gen);
    }
    AllAskedBelow(s.log, s.counter);
    if s.session.Some? && s.session.value.permission.Some? {
      ReservedBounds(s.log, s.counter, s.session.value.permission.value.n, s.session.value.gen);
    }
  }

  lemma PrefixReserved(log: seq<Entry>, j: nat, pid: int, gen: nat)
    requires j <= |log| && ReservedBy(log[..j], pid, gen)
    ensures ReservedBy(log, pid, gen)
  {
  }

  lemma AllAskedBelow(log: seq<Entry>, counter: int)
    requires IdsIncrease(log, counter)
    ensures Unasked(log, counter + 1)
  {
  }

  lemma OwnedAppend(log: seq<Entry>, e: Entry, pid: int, gen: nat)
    ensures ReservedBy(log, pid, gen) || e == Reserve(pid, gen) ==> ReservedBy(log + [e], pid, gen)
    ensures Unanswered(log, pid) && !(e.Forward? && e.response == Number(pid)) ==> Unanswered(log + [e], pid)
    ensures Unasked(log, pid) && !e.Ask? ==> Unasked(log + [e], pid)
  {
    assert forall i :: 0 <= i < |log| ==> (log + [e])[i] == log[i];
    assert (log + [e])[|log|] == e;
  }

  lemma StepOwns(s: State, step: Step)
    requires PermInv(s)
    ensures SessionOwns(Apply(s, step))
  {
    hide IdsIncrease, ForwardsOwned, Unasked, ReservedBy, Unanswered;
    StepEntry(s, step);
    FreshId(s);
    var s' := Apply(s, step);
    if s'.session.Some? && |s'.log| > |s.log| {
      var e, session := s'.log[|s.log|], s'.session.value;
      if session.permission.Some? {
        OwnedAppend(s.log, e, session.permission.value.n, session.gen);
      }
      OwnedAppend(s.log, e, s'.counter, session.gen);
    }
  }

  lemma StepKeepsPermInv(s: State, step: Step)
    requires PermInv(s)
    ensures PermInv(Apply(s, step))
  {
    hide Apply, IdsIncrease, ForwardsOwned, SessionOwns;
    StepIds(s, step);
    StepForwards(s, step);
    StepOwns(s, step);
  }

  lemma {:induction false} RunKeepsPermInv(steps: seq<Step>)
    ensures PermInv(Run(INIT, steps))
    decreases |steps|
  {
    if steps != [] {
      hide PermInv, Apply;
      RunKeepsPermInv(steps[..|steps| - 1]);
      StepKeepsPermInv(Run(INIT, steps[..|steps| - 1]), steps[|steps| - 1]);
    }
  }

  /** Ids sent to the client strictly increase across sessions and never leave the i64 range. */
  lemma IdsNeverRepeat(steps: seq<Step>)
    ensures var log := Run(INIT, steps).log;
            (forall i :: 0 <= i < |log| && log[i].Ask? ==> FIRST_OUTGOING_REQUEST_ID < log[i].pid <= I64_MAX) &&
            (forall i, j :: 0 <= i < j < |log| && log[i].Ask? && log[j].Ask? ==> log[i].pid < log[j].pid)
  {
    hide Run, Apply;
    RunKeepsPermInv(steps);
  }

  /** A forwarded answer belongs to an id reserved earlier by the same session; no id is forwarded twice. */
  lemma ForwardedOnce(steps: seq<Step>)
    ensures var log := Run(INIT, steps).log;
            (forall j :: 0 <= j < |log| && log[j].Forward? ==>
               log[j].response.Number? && ReservedBy(log[..j], log[j].response.n, log[j].gen)) &&
            (forall i, j :: 0 <= i < j < |log| && log[i].Forward? && log[j].Forward? ==>
               log[i].response != log[j].response)
  {
    hide Run, Apply, ReservedBy;
    RunKeepsPermInv(steps);
  }

  lemma SameOwner(log: seq<Entry>, counter: int, pid: int, g: nat, h: nat)
    requires IdsIncrease(log, counter) && ReservedBy(log, pid, g) && ReservedBy(log, pid, h)
    ensures g == h
  {
    var i :| 0 <= i < |log| && log[i] == Reserve(pid, g);
    var j :| 0 <= j < |log| && log[j] == Reserve(pid, h);
    assert log[i].Reserve? && log[j].Reserve?;
  }

  /** A late response to an earlier session's request changes nothing. */
  lemma StaleResponseIgnored(steps: seq<Step>, pid: int, gen: nat)
    requires var s := Run(INIT, steps);
             s.session.Some? && gen != s.session.value.gen && ReservedBy(s.log, pid, gen)
    ensures var s := Run(INIT, steps); Apply(s, ReadResponse(Number(pid))) == s
  {
    hide Run, IdsIncrease, ForwardsOwned, ReservedBy;
    RunKeepsPermInv(steps);
    var s := Run(INIT, steps);
    if s.session.value.permission == Some(Number(pid)) {
      SameOwner(s.log, s.counter, pid, gen, s.session.value.gen);
    }
  }
}
