/**
 The keyed table of cancellation triggers with pre-cancellation, and the one-shot
 gate between cancellation and provider dispatch.

 A trigger fires when it is cancelled and also when it is dropped, so a table
 operation that removes a live trigger fires it.  Triggers are named by the order
 in which they were created; moving one into the table gives up the caller's copy,
 so no trigger is inserted twice.
 */
module CancelMap {
  type TriggerId = nat

  datatype Entry = Live(trigger: TriggerId) | PreCancelled

  /** The table and the triggers that have fired so far. */
  datatype View<!K> = View(entries: map<K, Entry>, fired: set<TriggerId>)

  // ------------------------------------------------------- specifications

  /** What dropping the entry under `k` fires. */
  ghost function Dropped<K>(v: View<K>, k: K): set<TriggerId> {
    if k in v.entries && v.entries[k].Live? then {v.entries[k].trigger} else {}
  }

  ghost function Inserted<K>(v: View<K>, k: K, t: TriggerId): View<K> {
    if k in v.entries && v.entries[k].PreCancelled? then View(v.entries - {k}, v.fired + {t})
    else View(v.entries[k := Live(t)], v.fired + Dropped(v, k))
  }

  ghost function Cancelled<K>(v: View<K>, k: K): View<K> {
    if k in v.entries && v.entries[k].Live? then View(v.entries - {k}, v.fired + Dropped(v, k))
    else View(v.entries[k := PreCancelled], v.fired)
  }

  ghost function Removed<K>(v: View<K>, k: K): View<K> {
    View(v.entries - {k}, v.fired + Dropped(v, k))
  }

  ghost function LiveIn<K>(entries: map<K, Entry>): set<TriggerId> {
    set k | k in entries && entries[k].Live? :: entries[k].trigger
  }

  ghost function Drained<K>(v: View<K>): View<K> {
    View(map[], v.fired + LiveIn(v.entries))
  }

  class Table<K(==)> {
    var entries: map<K, Entry>
    var fired: set<TriggerId>

    ghost function Now(): View<K>
      reads this
    {
      View(entries, fired)
    }

    constructor ()
      ensures Now() == View(map[], {})
    {
      entries, fired := map[], {};
    }

    method Insert(k: K, t: TriggerId)
      modifies this
      ensures Now() == Inserted(old(Now()), k, t)
    {
      if k in entries && entries[k].PreCancelled? {
        entries := entries - {k};
        fired := fired + {t};
      } else {
        var before := entries;
        entries := entries - {k};
        entries := entries[k := Live(t)];
        if k in before {
          fired := fired + {before[k].trigger};
        }
        assert entries == before[k := Live(t)];
      }
    }

    method CancelOrPrecancel(k: K)
      modifies this
      ensures Now() == Cancelled(old(Now()), k)
    {
      if k in entries && entries[k].Live? {
        fired := fired + {entries[k].trigger};
        entries := entries - {k};
      } else {
        entries := entries[k := PreCancelled];
      }
    }

    method Remove(k: K)
      modifies this
      ensures Now() == Removed(old(Now()), k)
    {
      if k in entries && entries[k].Live? {
        fired := fired + {entries[k].trigger};
      }
      entries := entries - {k};
    }

    method CancelAll()
      modifies this
      ensures Now() == Drained(old(Now()))
    {
      var drained := entries;
      entries := map[];
      var todo := drained.Keys;
      while todo != {}
        invariant entries == map[] && todo <= drained.Keys
        invariant fired == old(fired) +
          set k | k in drained && k !in todo && drained[k].Live? :: drained[k].trigger
        decreases |todo|
      {
        var k :| k in todo;
        ghost var before := fired;
        todo := todo - {k};
        if drained[k].Live? {
          fired := fired + {drained[k].trigger};
        }
      }
    }
  }

  // ------------------------------------------------------------------ runs

  datatype Op<!K> = Insert(key: K, trigger: TriggerId) | Cancel(key: K) | Remove(key: K) | CancelAll

  ghost function Apply<K>(v: View<K>, op: Op<K>): View<K> {
    match op
    case Insert(k, t) => Inserted(v, k, t)
    case Cancel(k) => Cancelled(v, k)
    case Remove(k) => Removed(v, k)
    case CancelAll => Drained(v)
  }

  ghost function RunOps<K>(ops: seq<Op<K>>): View<K> {
    if ops == [] then View(map[], {}) else Apply(RunOps(ops[..|ops| - 1]), ops[|ops| - 1])
  }

  ghost function EverInserted<K>(ops: seq<Op<K>>): set<TriggerId> {
    set i | 0 <= i < |ops| && ops[i].Insert? :: ops[i].trigger
  }

  /** Moving a trigger into the table consumes it, so every insertion brings a new one. */
  ghost predicate MovesOnce<K>(ops: seq<Op<K>>) {
    forall i, j :: 0 <= i < j < |ops| && ops[i].Insert? && ops[j].Insert? ==> ops[i].trigger != ops[j].trigger
  }

  ghost predicate LiveUnder<K>(v: View<K>, k: K, t: TriggerId) {
    k in v.entries && v.entries[k] == Live(t)
  }

  /** Fired and live triggers partition the inserted ones, and no trigger is live twice. */
  ghost predicate Conserved<K(!new)>(v: View<K>, inserted: set<TriggerId>) {
    && inserted == v.fired + LiveIn(v.entries)
    && v.fired !! LiveIn(v.entries)
    && (forall k, l, t :: LiveUnder(v, k, t) && LiveUnder(v, l, t) ==> k == l)
  }

  lemma LiveWitness<K(!new)>(v: View<K>, t: TriggerId)
    ensures t in LiveIn(v.entries) <==> exists k :: LiveUnder(v, k, t)
  {
    if t in LiveIn(v.entries) {
      var k :| k in v.entries && v.entries[k].Live? && v.entries[k].trigger == t;
      assert LiveUnder(v, k, t);
    }
  }

  /** An entry live after an operation was live before it or has just been inserted. */
  lemma LiveOrigin<K>(v: View<K>, op: Op<K>, k: K, t: TriggerId)
    requires LiveUnder(Apply(v, op), k, t)
    ensures LiveUnder(v, k, t) || (op == Insert(k, t))
    ensures k !in v.entries || !(op.Insert? && op.key == k && v.entries[k].PreCancelled?)
  {
  }

  /** One operation keeps the books, whichever it is. */
  lemma ApplyConserves<K(!new)>(v: View<K>, op: Op<K>, inserted: set<TriggerId>)
    requires Conserved(v, inserted)
    requires op.Insert? ==> op.trigger !in inserted
    ensures Conserved(Apply(v, op), inserted + if op.Insert? then {op.trigger} else {})
  {
    var v' := Apply(v, op);
    var after := inserted + if op.Insert? then {op.trigger} else {};
    forall k, t | LiveUnder(v', k, t) ensures LiveUnder(v, k, t) || op == Insert(k, t) {
      LiveOrigin(v, op, k, t);
    }
    forall t | t in v'.fired && t !in v.fired
      ensures op.CancelAll? || LiveUnder(v, op.key, t) || op == Insert(op.key, t)
    {
    }
    forall t | t in after ensures t in v'.fired || t in LiveIn(v'.entries) {
      LiveWitness(v, t);
      LiveWitness(v', t);
      if t in LiveIn(v.entries) {
        var k :| LiveUnder(v, k, t);
        assert LiveUnder(v', k, t) || t in v'.fired;
      } else if op.Insert? && t == op.trigger {
        assert LiveUnder(v', op.key, t) || t in v'.fired;
      }
    }
    forall t | t in LiveIn(v'.entries) ensures t in after && t !in v'.fired {
      LiveWitness(v, t);
      LiveWitness(v', t);
      var k :| LiveUnder(v', k, t);
      LiveOrigin(v, op, k, t);
    }
    forall k, l, t | LiveUnder(v', k, t) && LiveUnder(v', l, t) ensures k == l {
      LiveWitness(v, t);
    }
  }

  /**
   Conservation: over any sequence of operations every inserted trigger is either live under
   exactly one key or has fired, never both and never neither.
   */
  lemma {:induction false} TriggersConserved<K(!new)>(ops: seq<Op<K>>)
    requires MovesOnce(ops)
    ensures Conserved(RunOps(ops), EverInserted(ops))
  {
    if ops != [] {
      var before := ops[..|ops| - 1];
      var op := ops[|ops| - 1];
      TriggersConserved(before);
      ApplyConserves(RunOps(before), op, EverInserted(before));
      assert ops == before + [op];
      assert EverInserted(ops) == EverInserted(before) + if op.Insert? then {op.trigger} else {};
    }
  }

  /** Firing is irrevocable. */
  lemma {:induction false} FiredForever<K>(ops: seq<Op<K>>, more: seq<Op<K>>)
    ensures RunOps(ops).fired <= RunOps(ops + more).fired
    decreases |more|
  {
    if more == [] {
      assert ops + more == ops;
    } else {
      FiredForever(ops, more[..|more| - 1]);
      assert (ops + more)[..|ops + more| - 1] == ops + more[..|more| - 1];
    }
  }

  /**
   Cancelling and inserting commute on a key without an entry: either order fires the trigger
   and leaves no entry behind.
   */
  lemma CancelInsertCommute<K>(v: View<K>, k: K, t: TriggerId)
    requires k !in v.entries
    ensures Cancelled(Inserted(v, k, t), k) == Inserted(Cancelled(v, k), k, t) == View(v.entries, v.fired + {t})
  {
    assert v.entries[k := Live(t)] - {k} == v.entries;
    assert v.entries[k := PreCancelled] - {k} == v.entries;
  }

  // ----------------------------------------------------- what each one does

  /** Removing an entry fires its live trigger, and touches no other key. */
  lemma RemoveFires<K>(v: View<K>, k: K, t: TriggerId)
    ensures k !in Removed(v, k).entries
    ensures forall l :: l != k ==> (l in v.entries <==> l in Removed(v, k).entries)
    ensures forall l :: l != k && l in v.entries ==> Removed(v, k).entries[l] == v.entries[l]
    ensures t in Removed(v, k).fired <==> t in v.fired || LiveUnder(v, k, t)
  {
  }

  /** Cancelling all leaves no entry, and fires the live triggers and no others. */
  lemma DrainFires<K(!new)>(v: View<K>, t: TriggerId)
    ensures Drained(v).entries == map[]
    ensures t in Drained(v).fired <==> t in v.fired || exists k :: LiveUnder(v, k, t)
  {
    LiveWitness(v, t);
  }

  /** Cancelling a live key fires its trigger and takes the entry; any other key is left pre-cancelled. */
  lemma CancelFires<K>(v: View<K>, k: K, t: TriggerId)
    ensures LiveUnder(v, k, t) ==> Cancelled(v, k) == View(v.entries - {k}, v.fired + {t})
    ensures (k !in v.entries || v.entries[k].PreCancelled?) ==>
              Cancelled(v, k).fired == v.fired && Cancelled(v, k).entries == v.entries[k := PreCancelled]
  {
  }

  /** Inserting makes the trigger live, and fires the one it replaces; on a pre-cancelled key it fires at once. */
  lemma InsertPlaces<K>(v: View<K>, k: K, t: TriggerId, u: TriggerId)
    ensures k !in v.entries ==> LiveUnder(Inserted(v, k, t), k, t) && Inserted(v, k, t).fired == v.fired
    ensures LiveUnder(v, k, u) ==> LiveUnder(Inserted(v, k, t), k, t) && Inserted(v, k, t).fired == v.fired + {u}
    ensures k in v.entries && v.entries[k].PreCancelled? ==>
              k !in Inserted(v, k, t).entries && Inserted(v, k, t).fired == v.fired + {t}
    ensures forall l :: l != k ==> (l in v.entries <==> l in Inserted(v, k, t).entries)
    ensures forall l :: l != k && l in v.entries ==> Inserted(v, k, t).entries[l] == v.entries[l]
  {
  }

  /** Two different triggers may be inserted under one key, the same trigger may not be twice. */
  lemma MovedOnce<K>(k: K, l: K, t: TriggerId, u: TriggerId)
    ensures MovesOnce([Insert(k, t), Insert(l, u)]) <==> t != u
  {
    var ops := [Insert(k, t), Insert(l, u)];
    assert ops[0].trigger == t && ops[1].trigger == u;
  }
}

/** The compare-exchange cell that decides between cancelling and dispatching a submission. */
module PreDispatch {
  datatype Phase = Pending | Committed | Cancelled
  datatype Call = TryCancel | TryCommit

  class Gate {
    var phase: Phase

    constructor ()
      ensures phase == Pending
    {
      phase := Pending;
    }

    method TryCancel() returns (ok: bool)
      modifies this
      ensures (phase, ok) == Decide(old(phase), Call.TryCancel)
    {
      ok := phase == Pending;
      if ok { phase := Cancelled; }
    }

    method TryCommit() returns (ok: bool)
      modifies this
      ensures (phase, ok) == Decide(old(phase), Call.TryCommit)
    {
      if phase == Pending { phase := Committed; }
      ok := phase == Committed;
    }
  }

  function Decide(p: Phase, c: Call): (Phase, bool) {
    match (p, c)
    case (Pending, TryCancel) => (Cancelled, true)
    case (Pending, TryCommit) => (Committed, true)
    case (Committed, TryCommit) => (Committed, true)
    case _ => (p, false)
  }

  function PhaseAfter(calls: seq<Call>): Phase {
    if calls == [] then Pending else Decide(PhaseAfter(calls[..|calls| - 1]), calls[|calls| - 1]).0
  }

  function Result(calls: seq<Call>, i: nat): bool
    requires i < |calls|
  {
    Decide(PhaseAfter(calls[..i]), calls[i]).1
  }

  /** The first call wins for good. */
  lemma {:induction false} FirstCallDecides(calls: seq<Call>, n: nat)
    requires 0 < n <= |calls|
    ensures PhaseAfter(calls[..n]) == if calls[0].TryCancel? then Cancelled else Committed
    decreases n
  {
    assert calls[..n][..n - 1] == calls[..n - 1];
    if n > 1 {
      FirstCallDecides(calls, n - 1);
    } else {
      assert calls[..1][..0] == [];
    }
  }

  /**
   In every interleaving exactly one side succeeds: a call is granted iff it agrees with the
   first call, and only the very first cancellation is.
   */
  lemma HandoffIsExclusive(calls: seq<Call>, i: nat)
    requires i < |calls|
    ensures Result(calls, i) <==> calls[i] == calls[0] && (calls[i].TryCancel? ==> i == 0)
  {
    if i > 0 {
      FirstCallDecides(calls, i);
    }
  }
}
