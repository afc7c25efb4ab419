/** The bounded list of compaction checkpoints kept with a stored session. */
module Checkpoints {
  import opened Wrappers

  const U64_MAX: nat := 0xFFFF_FFFF_FFFF_FFFF
  type U64 = n: int | 0 <= n <= U64_MAX

  const MAX_COMPACTION_STATE_CHECKPOINTS: nat := 64
  const MAX_COMPACTION_STATE_BYTES: nat := 4 * 1024 * 1024

  /** A plugin-state snapshot; one written by another schema, or malformed, has no readable revision. */
  datatype Snapshot = Supported(revision: U64, body: string) | Unusable(raw: string)

  datatype Error =
    | MissingRevision | FutureRevision | RevisionConflict | RevisionRegression | TooManyCheckpoints
    | CheckpointsTooLarge | InvalidSnapshot | InvalidEnvelope | UnsupportedSchema | CaptureFailed

  datatype Result<+T> = Ok(value: T) | Err(error: Error)

  /** What serialisation decides: whether a snapshot is applicable, and the size of a list of them. */
  datatype Codec = Codec(applies: Snapshot -> bool, size: seq<Snapshot> -> nat)

  datatype CheckpointSet = Kept(list: seq<Snapshot>) | Foreign(malformed: bool)

  function ForeignError(cs: CheckpointSet): Error {
    if cs.Foreign? && !cs.malformed then UnsupportedSchema else InvalidEnvelope
  }

  predicate HasRevision(s: Snapshot, revision: U64) { s.Supported? && s.revision == revision }

  function Find(list: seq<Snapshot>, revision: U64): (found: Option<Snapshot>)
    ensures found.Some? ==> found.value in list && HasRevision(found.value, revision)
    ensures found.None? ==> forall s :: s in list ==> !HasRevision(s, revision)
  {
    if list == [] then None
    else if HasRevision(list[0], revision) then Some(list[0])
    else Find(list[1..], revision)
  }

  /** The revision of the last checkpoint, if it can be read. */
  function LatestRevision(list: seq<Snapshot>): Option<U64> {
    if list != [] && list[|list| - 1].Supported? then Some(list[|list| - 1].revision) else None
  }

  /** `snapshot_at`. */
  function SnapshotAt(codec: Codec, cs: CheckpointSet, revision: U64): Result<Snapshot> {
    if cs.Foreign? then Err(ForeignError(cs))
    else
      var found := Find(cs.list, revision);
      if found.Some? then (if codec.applies(found.value) then Ok(found.value) else Err(InvalidSnapshot))
      else
        var latest := LatestRevision(cs.list);
        if latest.Some? && revision > latest.value then Err(FutureRevision) else Err(MissingRevision)
  }

  /** The first complaint about a snapshot of the list or about the order of revisions. */
  function OrderError(codec: Codec, list: seq<Snapshot>, previous: Option<U64>): Option<Error> {
    if list == [] then None
    else
      var s := list[0];
      if !codec.applies(s) then Some(InvalidSnapshot)
      else if s.Unusable? then Some(InvalidEnvelope)
      else if previous.Some? && s.revision == previous.value then Some(RevisionConflict)
      else if previous.Some? && s.revision < previous.value then Some(RevisionRegression)
      else OrderError(codec, list[1..], Some(s.revision))
  }

  /** `validate_compaction_state_checkpoints`. */
  function Validate(codec: Codec, list: seq<Snapshot>): Option<Error> {
    if |list| > MAX_COMPACTION_STATE_CHECKPOINTS then Some(TooManyCheckpoints)
    else if OrderError(codec, list, None).Some? then OrderError(codec, list, None)
    else if codec.size(list) > MAX_COMPACTION_STATE_BYTES then Some(CheckpointsTooLarge)
    else None
  }

  predicate IsProtected(s: Snapshot, protected: set<U64>) { s.Supported? && s.revision in protected }

  /** The oldest checkpoint nothing refers to, else the oldest of all. */
  function FirstUnprotected(list: seq<Snapshot>, protected: set<U64>): (i: nat)
    ensures i <= |list|
    ensures forall k :: 0 <= k < i ==> IsProtected(list[k], protected)
    ensures i < |list| ==> !IsProtected(list[i], protected)
  {
    if list == [] || !IsProtected(list[0], protected) then 0 else 1 + FirstUnprotected(list[1..], protected)
  }

  function Victim(list: seq<Snapshot>, protected: set<U64>): (i: nat)
    requires list != []
    ensures i < |list|
  {
    var i := FirstUnprotected(list, protected); if i < |list| then i else 0
  }

  function Remove(list: seq<Snapshot>, i: nat): seq<Snapshot>
    requires i < |list|
  {
    list[..i] + list[i + 1..]
  }

  predicate OverLimit(e: Option<Error>) { e == Some(TooManyCheckpoints) || e == Some(CheckpointsTooLarge) }

  /** The pruning loop, as a function of the candidate list. */
  function Prune(codec: Codec, list: seq<Snapshot>, protected: set<U64>): Result<seq<Snapshot>>
    decreases |list|
  {
    var e := Validate(codec, list);
    if e.None? then Ok(list)
    else if OverLimit(e) && |list| > 1 then Prune(codec, Remove(list, Victim(list, protected)), protected)
    else Err(e.value)
  }

  /** `candidate_with`: the list with the snapshot at its end, or `None` when it is already there. */
  function CandidateWith(codec: Codec, cs: CheckpointSet, s: Snapshot): Result<Option<seq<Snapshot>>> {
    if cs.Foreign? then Err(ForeignError(cs))
    else if !codec.applies(s) then Err(InvalidSnapshot)
    else if s.Unusable? then Err(InvalidEnvelope)
    else
      var existing := Find(cs.list, s.revision);
      if existing.Some? then (if existing.value == s then Ok(None) else Err(RevisionConflict))
      else
        var latest := LatestRevision(cs.list);
        if latest.Some? && s.revision < latest.value then Err(RevisionRegression) else Ok(Some(cs.list + [s]))
  }

  /** `insert_pruning_oldest_with_protected`. */
  function Insert(codec: Codec, cs: CheckpointSet, s: Snapshot, protected: set<U64>): Result<CheckpointSet> {
    match CandidateWith(codec, cs, s)
    case Err(e) => Err(e)
    case Ok(None) => Ok(cs)
    case Ok(Some(list)) =>
      match Prune(codec, list, protected)
      case Err(e) => Err(e)
      case Ok(kept) => Ok(Kept(kept))
  }

  method InsertPruning(codec: Codec, cs: CheckpointSet, s: Snapshot, protected: set<U64>) returns (r: Result<CheckpointSet>)
    ensures r == Insert(codec, cs, s, protected)
  {
    var start := CandidateWith(codec, cs, s);
    if start.Err? {
      return Err(start.error);
    }
    if start.value.None? {
      return Ok(cs);
    }
    var candidate := start.value.value;
    while true
      invariant Prune(codec, candidate, protected) == Prune(codec, start.value.value, protected)
      decreases |candidate|
    {
      var e := Validate(codec, candidate);
      if e.None? {
        break;
      }
      if !OverLimit(e) || |candidate| <= 1 {
        return Err(e.value);
      }
      candidate := Remove(candidate, Victim(candidate, protected));
    }
    return Ok(Kept(candidate));
  }

  // ------------------------------------------------------- what pruning keeps

  ghost predicate Increasing(list: seq<Snapshot>) {
    && (forall i :: 0 <= i < |list| ==> list[i].Supported?)
    && (forall i, j :: 0 <= i < j < |list| ==> list[i].revision < list[j].revision)
  }

  lemma {:induction false} OrderMeansIncreasing(codec: Codec, list: seq<Snapshot>, previous: Option<U64>)
    requires OrderError(codec, list, previous).None?
    ensures Increasing(list) && forall i :: 0 <= i < |list| ==>
              codec.applies(list[i]) && (previous.Some? ==> previous.value < list[i].revision)
    decreases |list|
  {
    if list != [] {
      OrderMeansIncreasing(codec, list[1..], Some(list[0].revision));
    }
  }

  /** What is kept is within the limits, applicable, and strictly increasing. */
  lemma {:induction false} PruneValid(codec: Codec, list: seq<Snapshot>, protected: set<U64>)
    requires Prune(codec, list, protected).Ok?
    ensures var kept := Prune(codec, list, protected).value;
            Increasing(kept) && |kept| <= MAX_COMPACTION_STATE_CHECKPOINTS &&
            codec.size(kept) <= MAX_COMPACTION_STATE_BYTES && forall s :: s in kept ==> codec.applies(s)
    decreases |list|
  {
    if Validate(codec, list).None? {
      OrderMeansIncreasing(codec, list, None);
    } else {
      PruneValid(codec, Remove(list, Victim(list, protected)), protected);
    }
  }

  /** A protected newcomer is never the one evicted. */
  lemma {:induction false} NewestSurvives(codec: Codec, list: seq<Snapshot>, protected: set<U64>)
    requires list != [] && IsProtected(list[|list| - 1], protected) && Prune(codec, list, protected).Ok?
    ensures var kept := Prune(codec, list, protected).value; kept != [] && kept[|kept| - 1] == list[|list| - 1]
    decreases |list|
  {
    if !Validate(codec, list).None? {
      NewestSurvives(codec, Remove(list, Victim(list, protected)), protected);
    }
  }

  /** A protected checkpoint goes only when nothing unprotected is left; nothing appears from nowhere. */
  lemma {:induction false} ProtectedLast(codec: Codec, list: seq<Snapshot>, protected: set<U64>, s: Snapshot)
    requires Prune(codec, list, protected).Ok?
    ensures var kept := Prune(codec, list, protected).value;
            (s in kept ==> s in list) &&
            (s in list && IsProtected(s, protected) && s !in kept ==> forall t :: t in kept ==> IsProtected(t, protected))
    decreases |list|
  {
    if !Validate(codec, list).None? {
      var i := Victim(list, protected);
      var shorter := Remove(list, i);
      ProtectedLast(codec, shorter, protected, s);
      RemoveMembers(list, i);
      var kept := Prune(codec, list, protected).value;
      if s in list && IsProtected(s, protected) && s !in kept && s !in shorter {
        assert list[i] == s;
        assert forall t :: t in list ==> IsProtected(t, protected);
        forall t | t in kept ensures IsProtected(t, protected) {
          ProtectedLast(codec, shorter, protected, t);
        }
      }
    }
  }

  lemma RemoveMembers(list: seq<Snapshot>, i: nat)
    requires i < |list|
    ensures forall t :: t in Remove(list, i) ==> t in list
    ensures forall t :: t in list && t != list[i] ==> t in Remove(list, i)
  {
    forall t | t in list && t != list[i] ensures t in Remove(list, i) {
      var k :| 0 <= k < |list| && list[k] == t;
      if k < i {
        assert Remove(list, i)[k] == t;
      } else {
        assert Remove(list, i)[k - 1] == t;
      }
    }
  }

  /** Within the limits nothing is evicted. */
  lemma NothingNeedless(codec: Codec, list: seq<Snapshot>, protected: set<U64>)
    requires Validate(codec, list).None?
    ensures Prune(codec, list, protected) == Ok(list)
  {
  }

  lemma {:induction false} FindIn(list: seq<Snapshot>, i: nat)
    requires i < |list| && Increasing(list)
    ensures Find(list, list[i].revision) == Some(list[i])
    decreases i
  {
    if i > 0 {
      FindIn(list[1..], i - 1);
    }
  }

  /** Once inserted with its revision protected, a checkpoint can be read back. */
  lemma InsertedIsFound(codec: Codec, cs: CheckpointSet, s: Snapshot, protected: set<U64>)
    requires Insert(codec, cs, s, protected).Ok? && IsProtected(s, protected)
    ensures SnapshotAt(codec, Insert(codec, cs, s, protected).value, s.revision) == Ok(s)
  {
    var list := CandidateWith(codec, cs, s).value;
    if list.Some? {
      NewestSurvives(codec, list.value, protected);
      PruneValid(codec, list.value, protected);
      var kept := Prune(codec, list.value, protected).value;
      FindIn(kept, |kept| - 1);
    }
  }

  lemma OrderStep(codec: Codec, s: Snapshot, rest: seq<Snapshot>, previous: Option<U64>)
    requires codec.applies(s) && s.Supported? && (previous.Some? ==> previous.value < s.revision)
    ensures OrderError(codec, [s] + rest, previous) == OrderError(codec, rest, Some(s.revision))
  {
    assert ([s] + rest)[1..] == rest;
  }

  /** Without that protection the newcomer itself can be the one that goes. */
  lemma NewestCanGo(codec: Codec, kept: Snapshot, s: Snapshot)
    requires codec.applies(kept) && codec.applies(s) && kept.Supported? && s.Supported? && kept.revision < s.revision
    requires codec.size([kept, s]) > MAX_COMPACTION_STATE_BYTES && codec.size([kept]) <= MAX_COMPACTION_STATE_BYTES
    ensures Insert(codec, Kept([kept]), s, {kept.revision}) == Ok(Kept([kept]))
  {
    var list := [kept] + [s];
    var protected := {kept.revision};
    OrderStep(codec, kept, [s], None);
    OrderStep(codec, s, [], Some(kept.revision));
    OrderStep(codec, kept, [], None);
    assert list == [kept, s] && [s] + [] == [s] && [kept] + [] == [kept];
    assert Validate(codec, list) == Some(CheckpointsTooLarge) && Validate(codec, [kept]).None?;
    assert list[1..] == [s];
    assert FirstUnprotected(list, protected) == 1;
    assert Remove(list, 1) == [kept];
    NothingNeedless(codec, [kept], protected);
  }

  // -------------------------------------------------- what goes, and in what order

  function Unprotected(list: seq<Snapshot>, protected: set<U64>): (u: nat)
    ensures u <= |list|
  {
    if list == [] then 0 else (if IsProtected(list[0], protected) then 0 else 1) + Unprotected(list[1..], protected)
  }

  /** The list without its `n` oldest unprotected checkpoints. */
  function WithoutOldest(list: seq<Snapshot>, protected: set<U64>, n: nat): (rest: seq<Snapshot>)
    requires n <= Unprotected(list, protected)
    ensures |rest| == |list| - n
  {
    if n == 0 then list
    else if IsProtected(list[0], protected) then [list[0]] + WithoutOldest(list[1..], protected, n)
    else WithoutOldest(list[1..], protected, n - 1)
  }

  /** The list after `n` evictions: unprotected ones oldest first, and then the others oldest first. */
  function Evicted(list: seq<Snapshot>, protected: set<U64>, n: nat): seq<Snapshot>
    requires n <= |list|
  {
    var u := Unprotected(list, protected);
    if n <= u then WithoutOldest(list, protected, n) else WithoutOldest(list, protected, u)[n - u..]
  }

  lemma {:induction false} EvictUnprotected(list: seq<Snapshot>, protected: set<U64>, n: nat)
    requires 0 < n <= Unprotected(list, protected)
    ensures FirstUnprotected(list, protected) < |list|
    ensures var shorter := Remove(list, FirstUnprotected(list, protected));
            Unprotected(shorter, protected) == Unprotected(list, protected) - 1 &&
            WithoutOldest(list, protected, n) == WithoutOldest(shorter, protected, n - 1)
    decreases |list|
  {
    hide Remove, IsProtected;
    if IsProtected(list[0], protected) {
      EvictUnprotected(list[1..], protected, n);
      RemoveLater(list, FirstUnprotected(list, protected));
    } else {
      RemoveFirst(list);
    }
  }

  lemma RemoveLater(list: seq<Snapshot>, i: nat)
    requires 0 < i < |list|
    ensures var shorter := Remove(list, i);
            shorter != [] && shorter[0] == list[0] && shorter[1..] == Remove(list[1..], i - 1)
  {
  }

  lemma RemoveFirst(list: seq<Snapshot>)
    requires list != []
    ensures Remove(list, 0) == list[1..]
  {
  }

  lemma {:induction false} AllProtected(list: seq<Snapshot>, protected: set<U64>)
    requires Unprotected(list, protected) == 0
    ensures FirstUnprotected(list, protected) == |list|
    decreases |list|
  {
    if list != [] {
      AllProtected(list[1..], protected);
    }
  }

  lemma EvictNext(list: seq<Snapshot>, protected: set<U64>, n: nat)
    requires n < |list|
    ensures Evicted(list, protected, n + 1) == Evicted(Remove(list, Victim(list, protected)), protected, n)
  {
    if Unprotected(list, protected) > 0 {
      EvictOldest(list, protected, n);
    } else {
      EvictProtected(list, protected, n);
    }
  }

  lemma EvictOldest(list: seq<Snapshot>, protected: set<U64>, n: nat)
    requires n < |list| && Unprotected(list, protected) > 0
    ensures Evicted(list, protected, n + 1) == Evicted(Remove(list, Victim(list, protected)), protected, n)
  {
    hide Unprotected, WithoutOldest, FirstUnprotected, Remove;
    var u := Unprotected(list, protected);
    EvictUnprotected(list, protected, if n < u then n + 1 else u);
  }

  lemma EvictProtected(list: seq<Snapshot>, protected: set<U64>, n: nat)
    requires n < |list| && Unprotected(list, protected) == 0
    ensures Evicted(list, protected, n + 1) == Evicted(Remove(list, Victim(list, protected)), protected, n)
  {
    AllProtected(list, protected);
    assert Unprotected(list[1..], protected) == 0;
    hide FirstUnprotected, Unprotected, Remove, Evicted;
    RemoveFirst(list);
    EvictedOldest(list, protected, n + 1);
    EvictedOldest(list[1..], protected, n);
    assert list[n + 1..] == list[1..][n..];
  }

  lemma EvictedOldest(list: seq<Snapshot>, protected: set<U64>, n: nat)
    requires n <= |list| && Unprotected(list, protected) == 0
    ensures Evicted(list, protected, n) == list[n..]
  {
    NoneOld(list, protected);
    assert list[0..] == list;
  }

  lemma NoneOld(list: seq<Snapshot>, protected: set<U64>)
    ensures WithoutOldest(list, protected, 0) == list
  {
  }

  /**
   What pruning keeps: the list after the fewest evictions that bring it within the limits, in
   that order of eviction.
   */
  lemma {:induction false} PruneEvicts(codec: Codec, list: seq<Snapshot>, protected: set<U64>) returns (n: nat)
    requires Prune(codec, list, protected).Ok?
    ensures n <= |list| && Prune(codec, list, protected) == Ok(Evicted(list, protected, n))
    ensures Validate(codec, Evicted(list, protected, n)).None?
    ensures forall m :: 0 <= m < n ==>
              Validate(codec, Evicted(list, protected, m)) in {Some(TooManyCheckpoints), Some(CheckpointsTooLarge)}
    decreases |list|
  {
    hide Evicted, Victim, Validate;
    EvictedNone(list, protected);
    if Validate(codec, list).None? {
      n := 0;
    } else {
      var shorter := Remove(list, Victim(list, protected));
      n := PruneEvicts(codec, shorter, protected);
      OverLimitIs(Validate(codec, list));
      forall m: nat | 0 < m <= n + 1 ensures Evicted(list, protected, m) == Evicted(shorter, protected, m - 1) {
        EvictNext(list, protected, m - 1);
      }
      n := n + 1;
    }
  }

  lemma EvictedNone(list: seq<Snapshot>, protected: set<U64>)
    ensures Evicted(list, protected, 0) == list
  {
  }

  lemma OverLimitIs(e: Option<Error>)
    ensures OverLimit(e) <==> e in {Some(TooManyCheckpoints), Some(CheckpointsTooLarge)}
  {
  }

  lemma {:induction false} IncreasingIsOrdered(codec: Codec, list: seq<Snapshot>, previous: Option<U64>)
    requires Increasing(list) && forall i :: 0 <= i < |list| ==> codec.applies(list[i])
    requires previous.Some? && list != [] ==> previous.value < list[0].revision
    ensures OrderError(codec, list, previous).None?
    decreases |list|
  {
    if list != [] {
      IncreasingIsOrdered(codec, list[1..], Some(list[0].revision));
    }
  }

  /** A list is accepted exactly if it is short and small enough, applicable, and strictly increasing. */
  lemma ValidIff(codec: Codec, list: seq<Snapshot>)
    ensures Validate(codec, list).None? <==>
            |list| <= 64 && codec.size(list) <= 4_194_304 && (forall s :: s in list ==> codec.applies(s)) &&
            (forall i :: 0 <= i < |list| ==> list[i].Supported?) &&
            (forall i, j :: 0 <= i < j < |list| ==> list[i].revision < list[j].revision)
  {
    if OrderError(codec, list, None).None? {
      OrderMeansIncreasing(codec, list, None);
    }
    if Increasing(list) && forall s :: s in list ==> codec.applies(s) {
      IncreasingIsOrdered(codec, list, None);
    }
  }

  /** Reading a checkpoint back by its revision. */
  lemma SnapshotAtIs(codec: Codec, list: seq<Snapshot>, revision: U64, i: nat)
    requires i < |list| && Increasing(list)
    ensures list[i].revision == revision ==>
              SnapshotAt(codec, Kept(list), revision) ==
              if codec.applies(list[i]) then Ok(list[i]) else Err(InvalidSnapshot)
    ensures (forall k :: 0 <= k < |list| ==> list[k].revision != revision) ==>
              SnapshotAt(codec, Kept(list), revision) ==
              Err(if revision > list[|list| - 1].revision then FutureRevision else MissingRevision)
  {
    if list[i].revision == revision {
      FindIn(list, i);
    }
  }

  /** A file without checkpoints has none to read, and one of another schema or none at all is refused. */
  lemma NoSnapshotAt(codec: Codec, revision: U64)
    ensures SnapshotAt(codec, Kept([]), revision) == Err(MissingRevision)
    ensures SnapshotAt(codec, Foreign(false), revision) == Err(UnsupportedSchema)
    ensures SnapshotAt(codec, Foreign(true), revision) == Err(InvalidEnvelope)
  {
  }

  /** What inserting starts from, or why it does not. */
  lemma CandidateCases(codec: Codec, list: seq<Snapshot>, s: Snapshot, protected: set<U64>, malformed: bool)
    requires Increasing(list)
    ensures Insert(codec, Foreign(malformed), s, protected) == Err(if malformed then InvalidEnvelope else UnsupportedSchema)
    ensures !codec.applies(s) ==> Insert(codec, Kept(list), s, protected) == Err(InvalidSnapshot)
    ensures codec.applies(s) && s.Unusable? ==> Insert(codec, Kept(list), s, protected) == Err(InvalidEnvelope)
    ensures codec.applies(s) && s.Supported? && s in list ==> Insert(codec, Kept(list), s, protected) == Ok(Kept(list))
    ensures codec.applies(s) && s.Supported? && s !in list && (exists t :: t in list && t.revision == s.revision) ==>
              Insert(codec, Kept(list), s, protected) == Err(RevisionConflict)
    ensures codec.applies(s) && s.Supported? && list != [] && s.revision < list[|list| - 1].revision &&
            (forall t :: t in list ==> t.revision != s.revision) ==>
              Insert(codec, Kept(list), s, protected) == Err(RevisionRegression)
    ensures codec.applies(s) && s.Supported? && (list == [] || list[|list| - 1].revision < s.revision) ==>
              CandidateWith(codec, Kept(list), s) == Ok(Some(list + [s])) &&
              (Validate(codec, list + [s]).None? ==> Insert(codec, Kept(list), s, protected) == Ok(Kept(list + [s])))
  {
    hide Validate, Prune;
    if s.Supported? {
      forall i | 0 <= i < |list| && list[i].revision == s.revision ensures Find(list, s.revision) == Some(list[i]) {
        FindIn(list, i);
      }
      if Validate(codec, list + [s]).None? {
        NothingNeedless(codec, list + [s], protected);
      }
    }
  }

  /** Pruning succeeds on any increasing list of applicable checkpoints of which none alone is too large. */
  lemma {:induction false} PruneSucceeds(codec: Codec, list: seq<Snapshot>, protected: set<U64>)
    requires list != [] && Increasing(list) && forall s :: s in list ==> codec.applies(s) && codec.size([s]) <= 4_194_304
    ensures Prune(codec, list, protected).Ok?
    decreases |list|
  {
    IncreasingIsOrdered(codec, list, None);
    if |list| == 1 {
      assert list == [list[0]];
    } else if Validate(codec, list).Some? {
      var i := Victim(list, protected);
      RemoveMembers(list, i);
      StaysIncreasing(list, i);
      PruneSucceeds(codec, Remove(list, i), protected);
    }
  }

  lemma StaysIncreasing(list: seq<Snapshot>, i: nat)
    requires i < |list| && Increasing(list)
    ensures Increasing(Remove(list, i))
  {
  }
}
