/**
 Cancellation tokens and the `cancelled()` wait loop, as atomic steps.

 Tokens form a forest: a child is created after its parent, so parent indices
 are smaller.  Firing a token is two steps, storing the flag and notifying the
 listeners registered at that moment.  Waiting on a token runs one frame per
 level of the ancestor chain; every frame repeats check, listen, re-check and
 block, and a frame that blocks starts the frame of its parent.  Each flag
 load of `is_cancelled` is a step of its own, so other threads run between
 the loads of one check.
 */
module CancelTree {
  import opened Wrappers

  type TokenId = nat

  /** `notifying` holds between the two halves of `fire`. */
  datatype Token = Token(parent: Option<TokenId>, cancelled: bool, notifying: bool)

  datatype Pc =
    | FirstCheck(at: TokenId)
    | Listening
    | SecondCheck(at: TokenId)
    | Blocked

  /** One activation of the loop; it owns a listener from `SecondCheck` on. */
  datatype Frame = Frame(token: TokenId, pc: Pc, notified: bool)

  /** One call of `cancelled()`; no frames are left once it has returned. */
  datatype Waiter = Waiter(token: TokenId, frames: seq<Frame>)

  datatype State = State(tokens: seq<Token>, waiters: seq<Waiter>)

  datatype Step =
    | NewToken(parent: Option<TokenId>)
    | Wait(token: TokenId)
    | Store(token: TokenId)
    | Notify(token: TokenId)
    | Advance(waiter: nat)
    | Wake(waiter: nat, level: nat)

  // ---------------------------------------------------------------- tokens

  ghost predicate ValidTokens(ts: seq<Token>) {
    forall i :: 0 <= i < |ts| ==>
      (ts[i].parent.Some? ==> ts[i].parent.value < i) && (ts[i].notifying ==> ts[i].cancelled)
  }

  /** The declarative meaning of cancellation: `a` is `t` or one of its ancestors. */
  ghost predicate OnChain(ts: seq<Token>, t: TokenId, a: TokenId)
    requires ValidTokens(ts) && t < |ts|
    decreases t
  {
    a == t || (ts[t].parent.Some? && OnChain(ts, ts[t].parent.value, a))
  }

  /** `is_cancelled` evaluated without interference. */
  ghost predicate Fired(ts: seq<Token>, t: TokenId)
    requires ValidTokens(ts) && t < |ts|
    decreases t
  {
    ts[t].cancelled || (ts[t].parent.Some? && Fired(ts, ts[t].parent.value))
  }

  /** The number of tokens from `t` up to its root. */
  ghost function Depth(ts: seq<Token>, t: TokenId): nat
    requires ValidTokens(ts) && t < |ts|
    decreases t
  {
    1 + if ts[t].parent.Some? then Depth(ts, ts[t].parent.value) else 0
  }

  /** A token is cancelled exactly when it or an ancestor fired. */
  lemma {:induction false} FiredIffAncestorFired(ts: seq<Token>, t: TokenId)
    requires ValidTokens(ts) && t < |ts|
    ensures Fired(ts, t) <==> exists a :: 0 <= a < |ts| && OnChain(ts, t, a) && ts[a].cancelled
    decreases t
  {
    if ts[t].parent.Some? {
      var p := ts[t].parent.value;
      FiredIffAncestorFired(ts, p);
      if Fired(ts, p) {
        var a :| 0 <= a < |ts| && OnChain(ts, p, a) && ts[a].cancelled;
        assert OnChain(ts, t, a);
      }
      if a :| 0 <= a < |ts| && OnChain(ts, t, a) && ts[a].cancelled && !ts[t].cancelled {
        assert OnChain(ts, p, a);
      }
    }
    assert OnChain(ts, t, t);
  }

  lemma {:induction false} ChainFacts(ts: seq<Token>, t: TokenId, a: TokenId)
    requires ValidTokens(ts) && t < |ts| && OnChain(ts, t, a)
    ensures a <= t && (Fired(ts, a) ==> Fired(ts, t)) && Depth(ts, a) <= Depth(ts, t)
    ensures ts[a].parent.Some? ==> OnChain(ts, t, ts[a].parent.value)
    decreases t
  {
    if a != t {
      ChainFacts(ts, ts[t].parent.value, a);
    } else if ts[a].parent.Some? {
      assert OnChain(ts, ts[a].parent.value, ts[a].parent.value);
    }
  }

  /** How the token table evolves: it grows, parents stay, flags only rise. */
  ghost predicate Extends(ts: seq<Token>, us: seq<Token>) {
    |ts| <= |us| &&
    forall i :: 0 <= i < |ts| ==>
      us[i].parent == ts[i].parent && (ts[i].cancelled ==> us[i].cancelled)
  }

  lemma {:induction false} ExtendsFacts(ts: seq<Token>, us: seq<Token>, t: TokenId)
    requires ValidTokens(ts) && ValidTokens(us) && Extends(ts, us) && t < |ts|
    ensures Fired(ts, t) ==> Fired(us, t)
    ensures Depth(ts, t) == Depth(us, t)
    ensures forall a :: OnChain(ts, t, a) <==> OnChain(us, t, a)
    decreases t
  {
    if ts[t].parent.Some? {
      ExtendsFacts(ts, us, ts[t].parent.value);
    }
  }

  // ----------------------------------------------------------------- steps

  ghost predicate TopIs(w: Waiter, pc: Pc) {
    w.frames != [] && w.frames[|w.frames| - 1].pc == pc
  }

  ghost predicate Enabled(s: State, step: Step) {
    match step
    case NewToken(parent) => parent.Some? ==> parent.value < |s.tokens|
    case Wait(t) => t < |s.tokens|
    case Store(t) => t < |s.tokens| && !s.tokens[t].notifying
    case Notify(t) => t < |s.tokens| && s.tokens[t].notifying
    case Advance(w) => w < |s.waiters| && s.waiters[w].frames != [] && !TopIs(s.waiters[w], Blocked)
    case Wake(w, k) =>
      w < |s.waiters| && k < |s.waiters[w].frames| &&
      s.waiters[w].frames[k].pc == Blocked && s.waiters[w].frames[k].notified
  }

  function Enter(t: TokenId): Frame { Frame(t, FirstCheck(t), false) }

  /** A frame owns a registered listener while re-checking or blocked. */
  predicate Registered(f: Frame) { f.pc.SecondCheck? || f.pc.Blocked? }

  function Deliver(f: Frame, t: TokenId): Frame {
    if f.token == t && Registered(f) then f.(notified := true) else f
  }

  /** The topmost frame returns: the race one level below resolves and loops. */
  function PopTop(fs: seq<Frame>): seq<Frame>
    requires fs != []
  {
    if |fs| == 1 then [] else fs[..|fs| - 2] + [Enter(fs[|fs| - 2].token)]
  }

  /** One step of the topmost frame. */
  function AdvanceFrames(ts: seq<Token>, fs: seq<Frame>): seq<Frame>
    requires fs != [] && !fs[|fs| - 1].pc.Blocked?
    requires fs[|fs| - 1].token < |ts|
    requires fs[|fs| - 1].pc.FirstCheck? || fs[|fs| - 1].pc.SecondCheck? ==> fs[|fs| - 1].pc.at < |ts|
  {
    var n := |fs| - 1;
    var f := fs[n];
    match f.pc
    case FirstCheck(at) =>
      if ts[at].cancelled then PopTop(fs)
      else if ts[at].parent.Some? then fs[n := f.(pc := FirstCheck(ts[at].parent.value))]
      else fs[n := f.(pc := Listening)]
    case Listening => fs[n := Frame(f.token, SecondCheck(f.token), false)]
    case SecondCheck(at) =>
      if ts[at].cancelled then PopTop(fs)
      else if ts[at].parent.Some? then fs[n := f.(pc := SecondCheck(ts[at].parent.value))]
      else if ts[f.token].parent.Some? then
        fs[n := f.(pc := Blocked)] + [Enter(ts[f.token].parent.value)]
      else fs[n := f.(pc := Blocked)]
  }

  /** A delivered notification resolves the race of frame `k` and drops the frames above it. */
  function WakeFrames(fs: seq<Frame>, k: nat): seq<Frame>
    requires k < |fs|
  {
    fs[..k] + [Enter(fs[k].token)]
  }

  ghost function Next(s: State, step: Step): State
    requires Inv(s) && Enabled(s, step)
  {
    match step
    case NewToken(parent) => s.(tokens := s.tokens + [Token(parent, false, false)])
    case Wait(t) => s.(waiters := s.waiters + [Waiter(t, [Enter(t)])])
    case Store(t) =>
      s.(tokens := s.tokens[t := s.tokens[t].(cancelled := true, notifying := true)])
    case Notify(t) =>
      State(s.tokens[t := s.tokens[t].(notifying := false)],
            seq(|s.waiters|, i requires 0 <= i < |s.waiters| => DeliverAll(s.waiters[i], t)))
    case Advance(w) =>
      s.(waiters := s.waiters[w := s.waiters[w].(frames := AdvanceFrames(s.tokens, s.waiters[w].frames))])
    case Wake(w, k) =>
      s.(waiters := s.waiters[w := s.waiters[w].(frames := WakeFrames(s.waiters[w].frames, k))])
  }

  function DeliverAll(w: Waiter, t: TokenId): Waiter {
    w.(frames := seq(|w.frames|, i requires 0 <= i < |w.frames| => Deliver(w.frames[i], t)))
  }

  // ------------------------------------------------------------- invariant

  /** What one frame promises about its own token. */
  ghost predicate FrameInv(ts: seq<Token>, f: Frame)
    requires ValidTokens(ts)
  {
    && f.token < |ts|
    && (f.pc.FirstCheck? || f.pc.SecondCheck? ==> f.pc.at < |ts| && OnChain(ts, f.token, f.pc.at))
    && (f.notified ==> Registered(f) && ts[f.token].cancelled)
    // the own flag was read as unset after registering, so a later fire reaches the listener
    && (f.pc.Blocked? || (f.pc.SecondCheck? && f.pc.at != f.token) ==>
          (ts[f.token].cancelled ==> f.notified || ts[f.token].notifying))
  }

  ghost predicate WaiterInv(ts: seq<Token>, w: Waiter)
    requires ValidTokens(ts)
  {
    var n := |w.frames|;
    && w.token < |ts|
    && (forall i :: 0 <= i < n ==> FrameInv(ts, w.frames[i]))
    && (n == 0 ==> Fired(ts, w.token))
    && (n > 0 ==> w.frames[0].token == w.token)
    && (forall i :: 0 <= i < n - 1 ==>
          w.frames[i].pc.Blocked? && ts[w.frames[i].token].parent == Some(w.frames[i + 1].token))
    && (n > 0 && w.frames[n - 1].pc.Blocked? ==> ts[w.frames[n - 1].token].parent.None?)
  }

  ghost predicate Inv(s: State) {
    ValidTokens(s.tokens) && forall i :: 0 <= i < |s.waiters| ==> WaiterInv(s.tokens, s.waiters[i])
  }

  lemma FrameInvExtends(ts: seq<Token>, us: seq<Token>, f: Frame)
    requires ValidTokens(ts) && ValidTokens(us) && Extends(ts, us) && FrameInv(ts, f)
    requires us[f.token].notifying || us[f.token] == ts[f.token]
    ensures FrameInv(us, f)
  {
    ExtendsFacts(ts, us, f.token);
  }

  lemma WaiterInvExtends(ts: seq<Token>, us: seq<Token>, w: Waiter)
    requires ValidTokens(ts) && ValidTokens(us) && Extends(ts, us) && WaiterInv(ts, w)
    requires forall i :: 0 <= i < |ts| ==> us[i].notifying || us[i] == ts[i]
    ensures WaiterInv(us, w)
  {
    ExtendsFacts(ts, us, w.token);
    forall i | 0 <= i < |w.frames| ensures FrameInv(us, w.frames[i]) {
      FrameInvExtends(ts, us, w.frames[i]);
    }
  }

  lemma DeliverKeepsFrame(ts: seq<Token>, us: seq<Token>, f: Frame, t: TokenId)
    requires ValidTokens(ts) && ValidTokens(us) && FrameInv(ts, f) && t < |ts| && ts[t].cancelled
    requires us == ts[t := ts[t].(notifying := false)]
    ensures FrameInv(us, Deliver(f, t))
  {
    ExtendsFacts(ts, us, f.token);
  }

  lemma DeliverKeepsInv(ts: seq<Token>, us: seq<Token>, w: Waiter, t: TokenId)
    requires ValidTokens(ts) && ValidTokens(us) && WaiterInv(ts, w) && t < |ts| && ts[t].cancelled
    requires us == ts[t := ts[t].(notifying := false)]
    ensures WaiterInv(us, DeliverAll(w, t))
  {
    ExtendsFacts(ts, us, w.token);
    forall i | 0 <= i < |w.frames| ensures FrameInv(us, Deliver(w.frames[i], t)) {
      DeliverKeepsFrame(ts, us, w.frames[i], t);
    }
  }

  /** Truncating the frames to level `k` and restarting the loop there keeps the shape. */
  lemma WakeKeepsInv(ts: seq<Token>, w: Waiter, k: nat)
    requires ValidTokens(ts) && WaiterInv(ts, w) && k < |w.frames|
    ensures WaiterInv(ts, w.(frames := WakeFrames(w.frames, k)))
  {
    var fs := WakeFrames(w.frames, k);
    forall i | 0 <= i < |fs| ensures FrameInv(ts, fs[i]) {
      assert i < k ==> fs[i] == w.frames[i];
    }
  }

  lemma FrameOnChain(ts: seq<Token>, w: Waiter, i: nat)
    requires ValidTokens(ts) && WaiterInv(ts, w) && i < |w.frames|
    ensures OnChain(ts, w.token, w.frames[i].token)
    ensures Depth(ts, w.frames[i].token) + i == Depth(ts, w.token)
    decreases i
  {
    if i > 0 {
      FrameOnChain(ts, w, i - 1);
      ChainFacts(ts, w.token, w.frames[i - 1].token);
    }
  }

  lemma AdvanceKeepsInv(ts: seq<Token>, w: Waiter)
    requires ValidTokens(ts) && WaiterInv(ts, w) && w.frames != [] && !TopIs(w, Blocked)
    ensures WaiterInv(ts, w.(frames := AdvanceFrames(ts, w.frames)))
  {
    var n := |w.frames| - 1;
    var f := w.frames[n];
    if f.pc.FirstCheck? || f.pc.SecondCheck? {
      var at := f.pc.at;
      ChainFacts(ts, f.token, at);
      if ts[at].cancelled {
        FrameOnChain(ts, w, n);
        ChainFacts(ts, w.token, f.token);
        assert Fired(ts, w.token);
        if n > 0 {
          WakeKeepsInv(ts, w, n - 1);
        }
      } else {
        KeepFrames(ts, w);
      }
    } else {
      KeepFrames(ts, w);
    }
  }

  /** A step that only moves the topmost frame on leaves the frames below it alone. */
  lemma KeepFrames(ts: seq<Token>, w: Waiter)
    requires ValidTokens(ts) && WaiterInv(ts, w) && w.frames != [] && !TopIs(w, Blocked)
    requires var f := w.frames[|w.frames| - 1]; f.pc.Listening? || !ts[f.pc.at].cancelled
    ensures WaiterInv(ts, w.(frames := AdvanceFrames(ts, w.frames)))
  {
    var n := |w.frames| - 1;
    var f := w.frames[n];
    var fs := AdvanceFrames(ts, w.frames);
    if !f.pc.Listening? {
      ChainFacts(ts, f.token, f.pc.at);
    }
    assert forall i :: 0 <= i < n ==> fs[i] == w.frames[i];
    assert FrameInv(ts, fs[n]);
    forall i | 0 <= i < |fs| ensures FrameInv(ts, fs[i]) {
      assert i < n ==> fs[i] == w.frames[i];
    }
  }

  /** Every step keeps the invariant. */
  lemma InvNext(s: State, step: Step)
    requires Inv(s) && Enabled(s, step)
    ensures Inv(Next(s, step)) && Extends(s.tokens, Next(s, step).tokens)
  {
    var s' := Next(s, step);
    match step
    case NewToken(_) =>
      forall i | 0 <= i < |s.waiters| ensures WaiterInv(s'.tokens, s.waiters[i]) {
        WaiterInvExtends(s.tokens, s'.tokens, s.waiters[i]);
      }
    case Wait(t) =>
      assert WaiterInv(s.tokens, Waiter(t, [Enter(t)]));
    case Store(t) =>
      forall i | 0 <= i < |s.waiters| ensures WaiterInv(s'.tokens, s.waiters[i]) {
        WaiterInvExtends(s.tokens, s'.tokens, s.waiters[i]);
      }
    case Notify(t) =>
      forall i | 0 <= i < |s.waiters| ensures WaiterInv(s'.tokens, s'.waiters[i]) {
        DeliverKeepsInv(s.tokens, s'.tokens, s.waiters[i], t);
      }
    case Advance(w) => AdvanceKeepsInv(s.tokens, s.waiters[w]);
    case Wake(w, k) => WakeKeepsInv(s.tokens, s.waiters[w], k);
  }

  // ------------------------------------------------------------------ runs

  ghost predicate Run(s: State, steps: seq<Step>, s': State)
    decreases |steps|
  {
    Inv(s) && if steps == [] then s' == s
    else Enabled(s, steps[0]) && Run(Next(s, steps[0]), steps[1..], s')
  }

  /** Runs keep the invariant and cancellation is monotone along them. */
  lemma {:induction false} RunKeepsInv(s: State, steps: seq<Step>, s': State, t: TokenId)
    requires Run(s, steps, s') && t < |s.tokens|
    ensures Inv(s') && t < |s'.tokens| && Extends(s.tokens, s'.tokens)
    ensures Fired(s.tokens, t) ==> Fired(s'.tokens, t)
    decreases |steps|
  {
    if steps != [] {
      InvNext(s, steps[0]);
      ExtendsFacts(s.tokens, Next(s, steps[0]).tokens, t);
      RunKeepsInv(Next(s, steps[0]), steps[1..], s', t);
    }
  }

  /** The waiter can take no step of its own. */
  ghost predicate Stuck(s: State, w: nat)
    requires w < |s.waiters|
  {
    !Enabled(s, Advance(w)) && forall k :: !Enabled(s, Wake(w, k))
  }

  /** A blocked waiter has a frame for every token of its chain. */
  lemma {:induction false} BlockedCoversChain(ts: seq<Token>, w: Waiter, a: TokenId, i: nat) returns (k: nat)
    requires ValidTokens(ts) && WaiterInv(ts, w) && TopIs(w, Blocked)
    requires i < |w.frames| && OnChain(ts, w.frames[i].token, a)
    ensures i <= k < |w.frames| && w.frames[k].token == a
    decreases |w.frames| - i
  {
    if w.frames[i].token == a {
      k := i;
    } else {
      k := BlockedCoversChain(ts, w, a, i + 1);
    }
  }

  /**
   No lost wakeup.  A waiter without a step of its own either has returned, or no token
   of its chain has fired, or the notification of every fired token of the chain is still
   on its way.
   */
  lemma NoLostWakeup(s: State, w: nat, a: TokenId)
    requires Inv(s) && w < |s.waiters| && Stuck(s, w)
    requires s.waiters[w].frames != []
    requires OnChain(s.tokens, s.waiters[w].token, a)
    ensures a < |s.tokens|
    ensures s.tokens[a].cancelled ==> s.tokens[a].notifying
  {
    ChainFacts(s.tokens, s.waiters[w].token, a);
    var k := BlockedCoversChain(s.tokens, s.waiters[w], a, 0);
    assert !Enabled(s, Wake(w, k));
    assert FrameInv(s.tokens, s.waiters[w].frames[k]);
  }

  const START := State([], [])

  lemma {:induction false} RunInv(s: State, steps: seq<Step>, s': State)
    requires Run(s, steps, s')
    ensures Inv(s')
    decreases |steps|
  {
    if steps != [] {
      RunInv(Next(s, steps[0]), steps[1..], s');
    }
  }

  /** The same from the start, for every interleaving: a stuck waiter is owed every notification. */
  lemma BlockedIsOwedNotification(steps: seq<Step>, s: State, w: nat)
    requires Run(START, steps, s) && w < |s.waiters| && s.waiters[w].frames != [] && Stuck(s, w)
    ensures Inv(s)
    ensures forall a :: 0 <= a < |s.tokens| && OnChain(s.tokens, s.waiters[w].token, a) && s.tokens[a].cancelled ==>
              s.tokens[a].notifying
  {
    RunInv(START, steps, s);
    forall a | 0 <= a < |s.tokens| && OnChain(s.tokens, s.waiters[w].token, a) && s.tokens[a].cancelled
      ensures s.tokens[a].notifying
    {
      NoLostWakeup(s, w, a);
    }
  }

  /** `cancelled()` returns only after its token or an ancestor fired. */
  lemma ReturnedMeansFired(s: State, w: nat)
    requires Inv(s) && w < |s.waiters| && s.waiters[w].frames == []
    ensures exists a :: 0 <= a < |s.tokens| && OnChain(s.tokens, s.waiters[w].token, a) && s.tokens[a].cancelled
  {
    FiredIffAncestorFired(s.tokens, s.waiters[w].token);
  }

  // ------------------------------------------------- bounded waiter effort

  /** The steps a chain of `h` frames takes to climb from its first check to all blocked. */
  ghost function Climb(h: nat): nat { if h == 0 then 0 else 2 * h + 1 + Climb(h - 1) }

  /** The cost of unwinding `n` levels, each of which re-reads a chain of at most `d` flags. */
  ghost function Unwind(n: nat, d: nat): nat { if n == 0 then 0 else d + 1 + Unwind(n - 1, d) }

  lemma {:induction false} UnwindMono(m: nat, n: nat, d: nat)
    requires m <= n
    ensures Unwind(m, d) <= Unwind(n, d)
    decreases n
  {
    if m < n {
      UnwindMono(m, n - 1, d);
    }
  }

  ghost function Effort(ts: seq<Token>, f: Frame): nat
    requires ValidTokens(ts) && f.token < |ts|
    requires f.pc.FirstCheck? || f.pc.SecondCheck? ==> f.pc.at < |ts|
  {
    match f.pc
    case FirstCheck(at) => Depth(ts, at) + 1 + Depth(ts, f.token)
    case Listening => 1 + Depth(ts, f.token)
    case SecondCheck(at) => Depth(ts, at)
    case Blocked => 0
  }

  /** The topmost frame is about to find a set flag, so the frames only unwind from here on. */
  ghost predicate Unwinding(ts: seq<Token>, f: Frame)
    requires ValidTokens(ts)
    requires f.pc.FirstCheck? ==> f.pc.at < |ts|
  {
    f.pc.FirstCheck? && Fired(ts, f.pc.at)
  }

  /** An upper bound on the steps a waiter can still take, whatever the other threads do. */
  ghost function Budget(ts: seq<Token>, w: Waiter): nat
    requires ValidTokens(ts) && WaiterInv(ts, w)
  {
    if w.frames == [] then 0 else
    var n := |w.frames| - 1;
    var f := w.frames[n];
    var d := Depth(ts, w.token);
    assert FrameInv(ts, f);
    AtInRange(ts, f);
    if Unwinding(ts, f) then Depth(ts, f.pc.at) + Unwind(n, d)
    else Unwind(d + 1, d) + Effort(ts, f) + Climb(Depth(ts, f.token) - 1)
  }

  lemma AtInRange(ts: seq<Token>, f: Frame)
    requires ValidTokens(ts) && FrameInv(ts, f)
    ensures f.pc.FirstCheck? || f.pc.SecondCheck? ==>
              f.pc.at < |ts| && Depth(ts, f.pc.at) <= Depth(ts, f.token)
  {
    if f.pc.FirstCheck? || f.pc.SecondCheck? {
      ChainFacts(ts, f.token, f.pc.at);
    }
  }

  /** Restarting level `k` on a fired token leaves less work than climbing, or than level `k + 1`. */
  lemma UnwindBudget(ts: seq<Token>, w: Waiter, k: nat)
    requires ValidTokens(ts) && WaiterInv(ts, w) && k < |w.frames| && Fired(ts, w.frames[k].token)
    ensures WaiterInv(ts, w.(frames := WakeFrames(w.frames, k)))
    ensures var d := Depth(ts, w.token);
            Budget(ts, w.(frames := WakeFrames(w.frames, k))) < Unwind(k + 1, d) <= Unwind(d + 1, d)
  {
    WakeKeepsInv(ts, w, k);
    FrameOnChain(ts, w, k);
    UnwindMono(k + 1, Depth(ts, w.token) + 1, Depth(ts, w.token));
  }

  lemma WakeSpends(ts: seq<Token>, w: Waiter, k: nat)
    requires ValidTokens(ts) && WaiterInv(ts, w) && k < |w.frames|
    requires w.frames[k].pc.Blocked? && w.frames[k].notified
    ensures WaiterInv(ts, w.(frames := WakeFrames(w.frames, k)))
    ensures Budget(ts, w.(frames := WakeFrames(w.frames, k))) < Budget(ts, w)
  {
    assert FrameInv(ts, w.frames[k]);
    UnwindBudget(ts, w, k);
    var n := |w.frames| - 1;
    if Unwinding(ts, w.frames[n]) {
      UnwindMono(k + 1, n, Depth(ts, w.token));
    }
  }

  lemma AdvanceSpends(ts: seq<Token>, w: Waiter)
    requires ValidTokens(ts) && WaiterInv(ts, w) && w.frames != [] && !TopIs(w, Blocked)
    ensures WaiterInv(ts, w.(frames := AdvanceFrames(ts, w.frames)))
    ensures Budget(ts, w.(frames := AdvanceFrames(ts, w.frames))) < Budget(ts, w)
  {
    AdvanceKeepsInv(ts, w);
    var n := |w.frames| - 1;
    var f := w.frames[n];
    AtInRange(ts, f);
    if !f.pc.Listening? && ts[f.pc.at].cancelled {
      if n > 0 {
        FrameOnChain(ts, w, n);
        FrameOnChain(ts, w, n - 1);
        ChainFacts(ts, f.token, f.pc.at);
        assert Fired(ts, w.frames[n - 1].token);
        UnwindBudget(ts, w, n - 1);
      }
    } else {
      ClimbSpends(ts, w);
    }
  }

  lemma ClimbSpends(ts: seq<Token>, w: Waiter)
    requires ValidTokens(ts) && WaiterInv(ts, w) && w.frames != [] && !TopIs(w, Blocked)
    requires var f := w.frames[|w.frames| - 1]; f.pc.Listening? || !ts[f.pc.at].cancelled
    ensures WaiterInv(ts, w.(frames := AdvanceFrames(ts, w.frames)))
    ensures Budget(ts, w.(frames := AdvanceFrames(ts, w.frames))) < Budget(ts, w)
  {
    AdvanceKeepsInv(ts, w);
    var n := |w.frames| - 1;
    var f := w.frames[n];
    AtInRange(ts, f);
    var w' := w.(frames := AdvanceFrames(ts, w.frames));
    if f.pc.SecondCheck? && ts[f.pc.at].parent.None? && ts[f.token].parent.Some? {
      PushBudget(ts, w', ts[f.token].parent.value);
    } else {
      assert |w'.frames| == n + 1;
    }
  }

  /** Entering the parent's frame costs what the blocked frame below it had reserved. */
  lemma PushBudget(ts: seq<Token>, w: Waiter, p: TokenId)
    requires ValidTokens(ts) && WaiterInv(ts, w) && |w.frames| >= 2 && w.frames[|w.frames| - 1] == Enter(p)
    ensures var d := Depth(ts, w.token);
            Budget(ts, w) <= Unwind(d + 1, d) + Climb(Depth(ts, p))
  {
    var n := |w.frames| - 1;
    var d := Depth(ts, w.token);
    FrameOnChain(ts, w, n);
    UnwindMono(n, d, d);
  }

  /** Steps of anyone else never raise the budget. */
  lemma EnvironmentKeepsBudget(ts: seq<Token>, us: seq<Token>, w: Waiter)
    requires ValidTokens(ts) && ValidTokens(us) && Extends(ts, us) && WaiterInv(ts, w) && WaiterInv(us, w)
    ensures Budget(us, w) <= Budget(ts, w)
  {
    ExtendsFacts(ts, us, w.token);
    if w.frames != [] {
      var n := |w.frames| - 1;
      var f := w.frames[n];
      AtInRange(ts, f);
      ExtendsFacts(ts, us, f.token);
      if f.pc.FirstCheck? || f.pc.SecondCheck? {
        ExtendsFacts(ts, us, f.pc.at);
      }
      var d := Depth(ts, w.token);
      FrameOnChain(ts, w, n);
      UnwindMono(n, d, d);
    }
  }

  lemma DeliverKeepsBudget(ts: seq<Token>, w: Waiter, t: TokenId)
    requires ValidTokens(ts) && WaiterInv(ts, w) && WaiterInv(ts, DeliverAll(w, t))
    ensures Budget(ts, DeliverAll(w, t)) == Budget(ts, w)
  {
    if w.frames != [] {
      AtInRange(ts, w.frames[|w.frames| - 1]);
    }
  }

  ghost predicate Own(step: Step, w: nat) {
    (step.Advance? || step.Wake?) && step.waiter == w
  }

  ghost function OwnSteps(steps: seq<Step>, w: nat): nat {
    if steps == [] then 0
    else (if Own(steps[0], w) then 1 else 0) + OwnSteps(steps[1..], w)
  }

  /** Where in a run the waiter moves: its own advances and its wake-ups. */
  ghost function OwnAt(steps: seq<Step>, w: nat): set<nat> {
    set i: nat | i < |steps| && (steps[i] == Advance(w) || (steps[i].Wake? && steps[i].waiter == w))
  }

  /** Those are the steps counted. */
  lemma {:induction false} OwnStepsCounted(steps: seq<Step>, w: nat)
    ensures OwnSteps(steps, w) == |OwnAt(steps, w)|
    decreases |steps|
  {
    if steps != [] {
      OwnStepsCounted(steps[1..], w);
      OwnAtHead(steps, w);
    }
  }

  lemma OwnAtHead(steps: seq<Step>, w: nat)
    requires steps != []
    ensures |OwnAt(steps, w)| == |OwnAt(steps[1..], w)| + if Own(steps[0], w) then 1 else 0
  {
    var later := OwnAt(steps, w) - {0};
    assert forall i: nat :: i in later <==> i > 0 && i - 1 in OwnAt(steps[1..], w);
    ShiftUp(OwnAt(steps[1..], w), later);
    assert OwnAt(steps, w) == later + if Own(steps[0], w) then {0} else {};
  }

  lemma {:induction false} ShiftUp(a: set<nat>, b: set<nat>)
    requires forall i: nat :: i in b <==> i > 0 && i - 1 in a
    ensures |a| == |b|
    decreases a
  {
    if i :| i in a {
      assert i + 1 in b;
      ShiftUp(a - {i}, b - {i + 1});
    } else {
      assert b == {};
    }
  }

  lemma StepSpends(s: State, step: Step, w: nat)
    requires Inv(s) && Enabled(s, step) && w < |s.waiters|
    ensures Inv(Next(s, step)) && w < |Next(s, step).waiters|
    ensures (if Own(step, w) then 1 else 0) + Budget(Next(s, step).tokens, Next(s, step).waiters[w])
            <= Budget(s.tokens, s.waiters[w])
    ensures Next(s, step).waiters[w].token == s.waiters[w].token
  {
    InvNext(s, step);
    var s' := Next(s, step);
    match step
    case NewToken(_) => EnvironmentKeepsBudget(s.tokens, s'.tokens, s.waiters[w]);
    case Wait(_) =>
    case Store(_) => EnvironmentKeepsBudget(s.tokens, s'.tokens, s.waiters[w]);
    case Notify(t) =>
      EnvironmentKeepsBudget(s.tokens, s'.tokens, s'.waiters[w]) by {
        DeliverKeepsInvBefore(s.tokens, s.waiters[w], t);
      }
      DeliverKeepsInvBefore(s.tokens, s.waiters[w], t);
      DeliverKeepsBudget(s.tokens, s.waiters[w], t);
    case Advance(v) => if v == w { AdvanceSpends(s.tokens, s.waiters[w]); }
    case Wake(v, k) => if v == w { WakeSpends(s.tokens, s.waiters[w], k); }
  }

  lemma DeliverKeepsInvBefore(ts: seq<Token>, w: Waiter, t: TokenId)
    requires ValidTokens(ts) && WaiterInv(ts, w) && t < |ts| && ts[t].notifying
    ensures WaiterInv(ts, DeliverAll(w, t))
  {
    forall i | 0 <= i < |w.frames| ensures FrameInv(ts, Deliver(w.frames[i], t)) {
      assert FrameInv(ts, w.frames[i]);
    }
  }

  /**
   Over any run, the steps a waiter takes are bounded by the budget it started with: it never
   spins, however often tokens fire.
   */
  lemma {:induction false} WaiterEffortBounded(s: State, steps: seq<Step>, s': State, w: nat)
    requires Run(s, steps, s') && w < |s.waiters|
    ensures Inv(s') && w < |s'.waiters| && s'.waiters[w].token == s.waiters[w].token
    ensures OwnSteps(steps, w) + Budget(s'.tokens, s'.waiters[w]) <= Budget(s.tokens, s.waiters[w])
    decreases |steps|
  {
    if steps != [] {
      StepSpends(s, steps[0], w);
      WaiterEffortBounded(Next(s, steps[0]), steps[1..], s', w);
    }
  }

  /**
   Once a token of the chain has fired and its notification is out, the waiter returns within
   its budget: a run that grants it that many steps ends with the call returned.
   */
  lemma FiredWaiterReturns(s: State, steps: seq<Step>, s': State, w: nat, a: TokenId)
    requires Run(s, steps, s') && w < |s.waiters|
    requires OnChain(s.tokens, s.waiters[w].token, a) && a < |s.tokens| && s.tokens[a].cancelled
    requires a < |s'.tokens| && !s'.tokens[a].notifying
    ensures Inv(s') && w < |s'.waiters|
    ensures s'.waiters[w].frames == [] || !Stuck(s', w)
    ensures OwnSteps(steps, w) <= Budget(s.tokens, s.waiters[w])
    ensures OwnSteps(steps, w) == Budget(s.tokens, s.waiters[w]) ==> s'.waiters[w].frames == []
  {
    WaiterEffortBounded(s, steps, s', w);
    RunKeepsInv(s, steps, s', s.waiters[w].token);
    ExtendsFacts(s.tokens, s'.tokens, s.waiters[w].token);
    if s'.waiters[w].frames != [] {
      if Stuck(s', w) {
        NoLostWakeup(s', w, a);
        assert false;
      }
      BudgetPositive(s'.tokens, s'.waiters[w]);
    }
  }

  lemma {:induction false} UnwindIs(n: nat, d: nat)
    ensures Unwind(n, d) == n * (d + 1)
    decreases n
  {
    if n > 0 {
      UnwindIs(n - 1, d);
    }
  }

  lemma {:induction false} ClimbIs(h: nat)
    ensures Climb(h) == h * h + 2 * h
    decreases h
  {
    if h > 0 {
      ClimbIs(h - 1);
    }
  }

  lemma FreshInv(ts: seq<Token>, t: TokenId)
    requires ValidTokens(ts) && t < |ts|
    ensures WaiterInv(ts, Waiter(t, [Enter(t)]))
  {
    var w := Waiter(t, [Enter(t)]);
    assert FrameInv(ts, w.frames[0]);
    assert WaiterInv(ts, w);
  }

  /** A call that starts on a token `d` levels deep takes at most `2 * d * d + 4 * d + 1` steps, and at most `d` if it is already cancelled. */
  lemma FreshBudget(ts: seq<Token>, t: TokenId)
    requires ValidTokens(ts) && t < |ts|
    ensures var w, d := Waiter(t, [Enter(t)]), Depth(ts, t);
            WaiterInv(ts, w) && Budget(ts, w) == if Fired(ts, t) then d else 2 * d * d + 4 * d + 1
  {
    var d := Depth(ts, t);
    FreshInv(ts, t);
    hide WaiterInv;
    UnwindIs(d + 1, d);
    ClimbIs(d - 1);
    assert (d + 1) * (d + 1) + (2 * d + 1) + (d - 1) * (d - 1) + 2 * (d - 1) == 2 * d * d + 4 * d + 1;
  }

  /** The depth of a token is the length of its chain. */
  lemma DepthIs(ts: seq<Token>, t: TokenId)
    requires ValidTokens(ts) && t < |ts|
    ensures ts[t].parent.None? ==> Depth(ts, t) == 1
    ensures ts[t].parent.Some? ==> Depth(ts, t) == Depth(ts, ts[t].parent.value) + 1
  {
  }

  lemma BudgetPositive(ts: seq<Token>, w: Waiter)
    requires ValidTokens(ts) && WaiterInv(ts, w) && w.frames != []
    ensures Budget(ts, w) > 0
  {
    var n := |w.frames| - 1;
    var f := w.frames[n];
    AtInRange(ts, f);
  }

  // --------------------------------------------------- what each step does

  /** A child hangs below its parent, and it starts cancelled exactly when the parent is. */
  lemma ChildHangsBelow(s: State, p: TokenId)
    requires Inv(s) && p < |s.tokens|
    ensures Enabled(s, NewToken(Some(p)))
    ensures var c, s' := |s.tokens|, Next(s, NewToken(Some(p)));
            Inv(s') && |s'.tokens| == c + 1 && s'.tokens[..c] == s.tokens && s'.waiters == s.waiters &&
            (forall a :: OnChain(s'.tokens, c, a) <==> a == c || OnChain(s.tokens, p, a)) &&
            (Fired(s'.tokens, c) <==> Fired(s.tokens, p))
  {
    var s' := Next(s, NewToken(Some(p)));
    InvNext(s, NewToken(Some(p)));
    OlderUnchanged(s.tokens, s'.tokens, p);
  }

  /** A token without a parent is alone on its chain, and not cancelled. */
  lemma RootStandsAlone(s: State)
    requires Inv(s)
    ensures Enabled(s, NewToken(None))
    ensures var c, s' := |s.tokens|, Next(s, NewToken(None));
            Inv(s') && |s'.tokens| == c + 1 && s'.tokens[..c] == s.tokens && s'.waiters == s.waiters &&
            (forall a :: OnChain(s'.tokens, c, a) <==> a == c) && !Fired(s'.tokens, c)
  {
    InvNext(s, NewToken(None));
  }

  lemma {:induction false} OlderUnchanged(ts: seq<Token>, us: seq<Token>, t: TokenId)
    requires ValidTokens(ts) && ValidTokens(us) && ts <= us && t < |ts|
    ensures Fired(ts, t) == Fired(us, t)
    ensures forall a :: OnChain(ts, t, a) <==> OnChain(us, t, a)
    decreases t
  {
    if ts[t].parent.Some? {
      OlderUnchanged(ts, us, ts[t].parent.value);
    }
  }

  /** Storing the flag of `t` cancels the tokens with `t` on their chain, and no others. */
  lemma StoreFiresBelow(s: State, t: TokenId)
    requires Inv(s) && t < |s.tokens| && !s.tokens[t].notifying
    ensures Enabled(s, Store(t))
    ensures var s' := Next(s, Store(t));
            Inv(s') && |s'.tokens| == |s.tokens| && s'.waiters == s.waiters && s'.tokens[t].notifying &&
            (forall c :: 0 <= c < |s.tokens| ==>
               (Fired(s'.tokens, c) <==> Fired(s.tokens, c) || OnChain(s.tokens, c, t)))
  {
    var s' := Next(s, Store(t));
    InvNext(s, Store(t));
    forall c | 0 <= c < |s.tokens|
      ensures Fired(s'.tokens, c) <==> Fired(s.tokens, c) || OnChain(s.tokens, c, t)
    {
      StoreFires(s.tokens, s'.tokens, t, c);
    }
  }

  lemma {:induction false} StoreFires(ts: seq<Token>, us: seq<Token>, t: TokenId, c: TokenId)
    requires ValidTokens(ts) && ValidTokens(us) && t < |ts| && c < |ts|
    requires us == ts[t := ts[t].(cancelled := true, notifying := true)]
    ensures Fired(us, c) <==> Fired(ts, c) || OnChain(ts, c, t)
    decreases c
  {
    if ts[c].parent.Some? {
      StoreFires(ts, us, t, ts[c].parent.value);
    }
  }

  /** Over every later run each token below `t`, old or new, is cancelled. */
  lemma FiredForGood(s: State, t: TokenId, steps: seq<Step>, s': State, c: TokenId)
    requires Inv(s) && Enabled(s, Store(t)) && Run(Next(s, Store(t)), steps, s')
    requires Inv(s') && c < |s'.tokens| && OnChain(s'.tokens, c, t)
    ensures Fired(s'.tokens, c)
  {
    InvNext(s, Store(t));
    RunKeepsInv(Next(s, Store(t)), steps, s', t);
    ChainFacts(s'.tokens, c, t);
  }

  /** Notifying reaches exactly the frames listening on `t`, and changes nothing else. */
  lemma NotifyReaches(s: State, t: TokenId, w: nat, k: nat)
    requires Inv(s) && t < |s.tokens| && s.tokens[t].notifying
    requires w < |s.waiters| && k < |s.waiters[w].frames|
    ensures Enabled(s, Notify(t))
    ensures var s' := Next(s, Notify(t));
            && (forall i :: 0 <= i < |s.tokens| && i != t ==> i < |s'.tokens| && s'.tokens[i] == s.tokens[i])
            && |s'.tokens| == |s.tokens| && s'.tokens[t] == Token(s.tokens[t].parent, true, false)
            && |s'.waiters| == |s.waiters| && s'.waiters[w].token == s.waiters[w].token
            && |s'.waiters[w].frames| == |s.waiters[w].frames|
            && (var f, f' := s.waiters[w].frames[k], s'.waiters[w].frames[k];
                f'.token == f.token && f'.pc == f.pc &&
                (f'.notified <==> f.notified || (f.token == t && (f.pc.SecondCheck? || f.pc.Blocked?))))
  {
  }

  /** A call of `cancelled()` starts by checking its own token, with no listener. */
  lemma WaitBegins(s: State, t: TokenId)
    requires Inv(s) && t < |s.tokens|
    ensures Enabled(s, Wait(t))
    ensures Next(s, Wait(t)).tokens == s.tokens
    ensures Next(s, Wait(t)).waiters == s.waiters + [Waiter(t, [Frame(t, FirstCheck(t), false)])]
  {
  }

  /** The steps of one waiter alone. */
  function Alone(w: nat, n: nat): seq<Step> { seq(n, _ => Advance(w)) }

  lemma AloneNext(w: nat, n: nat)
    ensures Alone(w, n + 1)[0] == Advance(w) && Alone(w, n + 1)[1..] == Alone(w, n)
  {
  }

  /** The frame below the one that returns starts its loop again; without one the call returns. */
  function Resumed(below: seq<Frame>): seq<Frame> {
    if below == [] then []
    else
      var t := below[|below| - 1].token;
      below[..|below| - 1] + [Frame(t, FirstCheck(t), false)]
  }

  /**
   * A check that nobody interrupts reads the flags up the chain and so decides by `Fired`: it
   * returns from the frame if the token is cancelled.  Otherwise the first check goes on to
   * listen, and the second one blocks and enters the parent's loop.
   */
  lemma {:induction false} CheckReadsChain(s: State, w: nat, below: seq<Frame>, f: Frame, at: TokenId)
    returns (n: nat, s': State)
    requires Inv(s) && w < |s.waiters| && s.waiters[w].frames == below + [f]
    requires f.pc == FirstCheck(at) || f.pc == SecondCheck(at)
    ensures at < |s.tokens| && f.token < |s.tokens| && 0 < n <= Depth(s.tokens, at)
    ensures Run(s, Alone(w, n), s') && s'.tokens == s.tokens && |s'.waiters| == |s.waiters|
    ensures s'.waiters[w].frames ==
            if Fired(s.tokens, at) then Resumed(below)
            else if f.pc.FirstCheck? then below + [Frame(f.token, Listening, f.notified)]
            else
              below + [Frame(f.token, Blocked, f.notified)] +
              match s.tokens[f.token].parent
              case None => []
              case Some(p) => [Frame(p, FirstCheck(p), false)]
    decreases at
  {
    assert s.waiters[w].frames[|below|] == f;
    assert FrameInv(s.tokens, f);
    var next := Next(s, Advance(w));
    InvNext(s, Advance(w));
    var fs := next.waiters[w].frames;
    if !s.tokens[at].cancelled && s.tokens[at].parent.Some? {
      var p := s.tokens[at].parent.value;
      var g := f.(pc := if f.pc.FirstCheck? then FirstCheck(p) else SecondCheck(p));
      assert fs == below + [g];
      n, s' := CheckReadsChain(next, w, below, g, p);
      AloneNext(w, n);
      n := n + 1;
    } else {
      n, s' := 1, next;
      AloneNext(w, 0);
      if s.tokens[at].cancelled && below != [] {
        assert s.waiters[w].frames[..|below| - 1] == below[..|below| - 1];
      }
    }
  }

  /** Listening registers a listener that has not been notified, and starts the second check. */
  lemma ListenRegisters(s: State, w: nat, below: seq<Frame>, f: Frame)
    requires Inv(s) && w < |s.waiters| && s.waiters[w].frames == below + [f] && f.pc == Listening
    ensures Enabled(s, Advance(w)) && Next(s, Advance(w)).tokens == s.tokens
    ensures Next(s, Advance(w)).waiters ==
            s.waiters[w := Waiter(s.waiters[w].token, below + [Frame(f.token, SecondCheck(f.token), false)])]
  {
    assert s.waiters[w].frames[|below|] == f;
    assert FrameInv(s.tokens, f);
    assert (below + [f])[|below| := Frame(f.token, SecondCheck(f.token), false)] ==
           below + [Frame(f.token, SecondCheck(f.token), false)];
  }

  /**
   * Firing a token wakes a call blocked on it: store, notify, wake, and the next check finds the
   * flag, so the call returns, or the frame below looks at its own chain again.
   */
  lemma FireWakes(s: State, w: nat, k: nat)
    requires Inv(s) && w < |s.waiters| && k < |s.waiters[w].frames| && s.waiters[w].frames[k].pc.Blocked?
    requires var t := s.waiters[w].frames[k].token; t < |s.tokens| && !s.tokens[t].notifying
    ensures var fs := s.waiters[w].frames; var t := fs[k].token;
            exists s' :: Run(s, [Store(t), Notify(t), Wake(w, k), Advance(w)], s') &&
                         w < |s'.waiters| && |s'.waiters[w].frames| == k &&
                         (k > 0 ==> s'.waiters[w].frames[k - 1] ==
                                    Frame(fs[k - 1].token, FirstCheck(fs[k - 1].token), false))
  {
    var t := s.waiters[w].frames[k].token;
    StoreAndNotify(s, t, w, k);
    var a := Next(s, Store(t));
    var b := Next(a, Notify(t));
    WakeAndCheck(b, w, k);
    var d := Next(Next(b, Wake(w, k)), Advance(w));
    hide Next, Inv, Enabled;
    RunThen(a, Notify(t), [Wake(w, k), Advance(w)], d);
    RunThen(s, Store(t), [Notify(t), Wake(w, k), Advance(w)], d);
  }

  lemma StoreAndNotify(s: State, t: TokenId, w: nat, k: nat)
    requires Inv(s) && t < |s.tokens| && !s.tokens[t].notifying
    requires w < |s.waiters| && k < |s.waiters[w].frames| && s.waiters[w].frames[k] == Frame(t, Blocked, s.waiters[w].frames[k].notified)
    ensures Enabled(s, Store(t)) && Inv(Next(s, Store(t))) && Enabled(Next(s, Store(t)), Notify(t))
    ensures var b := Next(Next(s, Store(t)), Notify(t));
            Inv(b) && t < |b.tokens| && b.tokens[t].cancelled && w < |b.waiters| &&
            |b.waiters[w].frames| == |s.waiters[w].frames| && b.waiters[w].frames[k] == Frame(t, Blocked, true) &&
            forall i :: 0 <= i < k ==> b.waiters[w].frames[i].token == s.waiters[w].frames[i].token
  {
    InvNext(s, Store(t));
    InvNext(Next(s, Store(t)), Notify(t));
  }

  lemma WakeAndCheck(s: State, w: nat, k: nat)
    requires Inv(s) && w < |s.waiters| && k < |s.waiters[w].frames|
    requires var f := s.waiters[w].frames[k];
             f.pc.Blocked? && f.notified && f.token < |s.tokens| && s.tokens[f.token].cancelled
    ensures Enabled(s, Wake(w, k)) && Inv(Next(s, Wake(w, k))) && Enabled(Next(s, Wake(w, k)), Advance(w))
    ensures var d := Next(Next(s, Wake(w, k)), Advance(w));
            Run(s, [Wake(w, k), Advance(w)], d) && w < |d.waiters| && |d.waiters[w].frames| == k &&
            (k > 0 ==> var t := s.waiters[w].frames[k - 1].token;
                       d.waiters[w].frames[k - 1] == Frame(t, FirstCheck(t), false))
  {
    var c := Next(s, Wake(w, k));
    InvNext(s, Wake(w, k));
    RunOne(c, Advance(w));
    RunThen(s, Wake(w, k), [Advance(w)], Next(c, Advance(w)));
  }

  lemma RunOne(s: State, step: Step)
    requires Inv(s) && Enabled(s, step)
    ensures Run(s, [step], Next(s, step))
  {
    InvNext(s, step);
    assert Run(Next(s, step), [step][1..], Next(s, step));
  }

  lemma RunThen(s: State, step: Step, rest: seq<Step>, s': State)
    requires Inv(s) && Enabled(s, step) && Run(Next(s, step), rest, s')
    ensures Run(s, [step] + rest, s')
  {
    assert ([step] + rest)[1..] == rest;
  }
}
