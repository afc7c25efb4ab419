/**
 The staged allocator that fits the injected todo block into its byte budget: drop
 pending todos oldest first, then other todos, then trim the header, then shrink.
 */
module TodoBudget {
  import opened Wrappers
  import opened Utf8
  import opened TodoShrink

  const CAP: nat := 2048
  const RESERVED: nat := 64

  datatype Todo = Todo(line: string, status: string)

  predicate InProgress(t: Todo) { t.status == "in_progress" }
  predicate Pending(t: Todo) { t.status == "pending" }

  function SatSub(a: nat, b: nat): nat { if a >= b then a - b else 0 }
  function Min(a: nat, b: nat): nat { if a <= b then a else b }

  // ------------------------------------------------------ rendered lengths

  function Cost(t: Todo, kept: bool): nat { if kept then Bytes(t.line) + 1 else 0 }

  /** The bytes the kept lines take, each with its newline. */
  function KeptBytes(es: seq<Todo>, keep: seq<bool>): nat
    requires |es| == |keep|
  {
    if es == [] then 0 else Cost(es[0], keep[0]) + KeptBytes(es[1..], keep[1..])
  }

  /** The kept lines as they are emitted after the header. */
  function Render(es: seq<Todo>, keep: seq<bool>): string
    requires |es| == |keep|
  {
    if es == [] then "" else (if keep[0] then "\n" + es[0].line else "") + Render(es[1..], keep[1..])
  }

  /** The running total is the length of what is emitted. */
  lemma {:induction false} RenderBytes(es: seq<Todo>, keep: seq<bool>)
    requires |es| == |keep|
    ensures Bytes(Render(es, keep)) == KeptBytes(es, keep)
    decreases |es|
  {
    if es != [] {
      RenderBytes(es[1..], keep[1..]);
      BytesAppend("\n", es[0].line);
      assert Bytes("\n") == 1;
      BytesAppend(if keep[0] then "\n" + es[0].line else "", Render(es[1..], keep[1..]));
    }
  }

  /** Changing one entry changes the total by the difference of its costs. */
  lemma {:induction false} KeptUpdate(es: seq<Todo>, keep: seq<bool>, i: nat, t: Todo, b: bool)
    requires |es| == |keep| && i < |es|
    ensures KeptBytes(es[i := t], keep[i := b]) + Cost(es[i], keep[i]) == KeptBytes(es, keep) + Cost(t, b)
    decreases i
  {
    if i == 0 {
      assert es[0 := t][1..] == es[1..] && keep[0 := b][1..] == keep[1..];
    } else {
      assert es[i := t][1..] == es[1..][i - 1 := t] && keep[i := b][1..] == keep[1..][i - 1 := b];
      KeptUpdate(es[1..], keep[1..], i - 1, t, b);
    }
  }

  lemma KeptDrop(es: seq<Todo>, keep: seq<bool>, i: nat)
    requires |es| == |keep| && i < |es| && keep[i]
    ensures KeptBytes(es, keep[i := false]) + Bytes(es[i].line) + 1 == KeptBytes(es, keep)
  {
    KeptUpdate(es, keep, i, es[i], false);
    assert es[i := es[i]] == es;
  }

  lemma {:induction false} KeptNone(es: seq<Todo>, keep: seq<bool>)
    requires |es| == |keep| && forall i :: 0 <= i < |keep| ==> !keep[i]
    ensures KeptBytes(es, keep) == 0 && Render(es, keep) == ""
    decreases |es|
  {
    if es != [] {
      KeptNone(es[1..], keep[1..]);
    }
  }

  // ------------------------------------------------------------- selection

  /** The indices below `n` that satisfy `f`, oldest first. */
  function Select(n: nat, f: nat -> bool): (r: seq<nat>)
    ensures forall j :: 0 <= j < |r| ==> r[j] < n && f(r[j])
    ensures forall i :: 0 <= i < n && f(i) ==> i in r
    ensures forall j, k :: 0 <= j < k < |r| ==> r[j] < r[k]
  {
    if n == 0 then [] else Select(n - 1, f) + if f(n - 1) then [n - 1] else []
  }

  lemma {:induction false} SelectSame(n: nat, f: nat -> bool, g: nat -> bool)
    requires forall i :: 0 <= i < n ==> f(i) == g(i)
    ensures Select(n, f) == Select(n, g)
    decreases n
  {
    if n > 0 {
      SelectSame(n - 1, f, g);
    }
  }

  function PendingOf(es: seq<Todo>): (r: seq<nat>)
    ensures forall j :: 0 <= j < |r| ==> r[j] < |es|
  {
    Select(|es|, (i: nat) => i < |es| && Pending(es[i]))
  }

  function OthersOf(es: seq<Todo>): (r: seq<nat>)
    ensures forall j :: 0 <= j < |r| ==> r[j] < |es|
  {
    Select(|es|, (i: nat) => i < |es| && !Pending(es[i]) && !InProgress(es[i]))
  }

  /** The order in which todos are given up: pending oldest first, then the others oldest first. */
  function Victims(es: seq<Todo>): (r: seq<nat>)
    ensures forall j :: 0 <= j < |r| ==> r[j] < |es|
  {
    PendingOf(es) + OthersOf(es)
  }

  lemma VictimsFacts(es: seq<Todo>)
    ensures forall j, k :: 0 <= j < k < |Victims(es)| ==> Victims(es)[j] != Victims(es)[k]
    ensures forall i :: 0 <= i < |es| ==> (i in Victims(es) <==> !InProgress(es[i]))
  {
    var p, o := PendingOf(es), OthersOf(es);
    forall j, k | 0 <= j < |p| && 0 <= k < |o| ensures p[j] != o[k] {
      assert Pending(es[p[j]]) && !Pending(es[o[k]]);
    }
    forall i | 0 <= i < |es| ensures i in Victims(es) <==> !InProgress(es[i]) {
      if i in p { assert Pending(es[i]); }
    }
  }

  function All(n: nat): seq<bool> { seq(n, i => true) }

  function Without(keep: seq<bool>, vs: seq<nat>): (r: seq<bool>)
    requires forall j :: 0 <= j < |vs| ==> vs[j] < |keep|
    ensures |r| == |keep|
    ensures forall i :: 0 <= i < |keep| ==> (r[i] <==> keep[i] && i !in vs)
  {
    if vs == [] then keep else Without(keep, vs[..|vs| - 1])[vs[|vs| - 1] := false]
  }

  /** What remains over budget without the first `p` victims. */
  ghost function TotalWithout(base: nat, es: seq<Todo>, vs: seq<nat>, p: nat): nat
    requires p <= |vs| && forall j :: 0 <= j < |vs| ==> vs[j] < |es|
  {
    base + KeptBytes(es, Without(All(|es|), vs[..p]))
  }

  /** `p` is the shortest prefix of `vs` whose removal fits the cap, or all of it. */
  ghost predicate ShortestDrop(base: nat, es: seq<Todo>, vs: seq<nat>, p: nat)
    requires forall j :: 0 <= j < |vs| ==> vs[j] < |es|
  {
    p <= |vs| && (p < |vs| ==> TotalWithout(base, es, vs, p) <= CAP) &&
    (p > 0 ==> TotalWithout(base, es, vs, p - 1) > CAP)
  }

  /** Giving up the next victim saves its line and newline. */
  lemma DropNext(base: nat, es: seq<Todo>, vs: seq<nat>, p: nat)
    requires forall j :: 0 <= j < |vs| ==> vs[j] < |es|
    requires forall j, k :: 0 <= j < k < |vs| ==> vs[j] != vs[k]
    requires p < |vs|
    ensures Without(All(|es|), vs[..p + 1]) == Without(All(|es|), vs[..p])[vs[p] := false]
    ensures TotalWithout(base, es, vs, p + 1) + Bytes(es[vs[p]].line) + 1 == TotalWithout(base, es, vs, p)
  {
    assert vs[..p + 1][..p] == vs[..p];
    KeptDrop(es, Without(All(|es|), vs[..p]), vs[p]);
  }

  /** Dropping more victims only ever shortens the block, so every drop before `p` was needed. */
  lemma {:induction false} DropsShorten(base: nat, es: seq<Todo>, vs: seq<nat>, p: nat, q: nat)
    requires forall j :: 0 <= j < |vs| ==> vs[j] < |es|
    requires forall j, k :: 0 <= j < k < |vs| ==> vs[j] != vs[k]
    requires p <= q <= |vs|
    ensures TotalWithout(base, es, vs, q) <= TotalWithout(base, es, vs, p)
    decreases q - p
  {
    if p < q {
      DropsShorten(base, es, vs, p, q - 1);
      DropNext(base, es, vs, q - 1);
    }
  }

  /** One drop loop, continuing after the first `p0` victims up to at most the first `limit`. */
  method DropWhileOver(base: nat, es: seq<Todo>, vs: seq<nat>, p0: nat, limit: nat, keep0: seq<bool>, total0: nat)
    returns (keep: seq<bool>, total: nat, p: nat)
    requires forall j :: 0 <= j < |vs| ==> vs[j] < |es|
    requires forall j, k :: 0 <= j < k < |vs| ==> vs[j] != vs[k]
    requires p0 <= limit <= |vs| && keep0 == Without(All(|es|), vs[..p0])
    requires total0 == TotalWithout(base, es, vs, p0)
    requires p0 > 0 ==> TotalWithout(base, es, vs, p0 - 1) > CAP
    ensures p0 <= p <= limit && keep == Without(All(|es|), vs[..p])
    ensures total == TotalWithout(base, es, vs, p)
    ensures p < limit ==> total <= CAP
    ensures p > 0 ==> TotalWithout(base, es, vs, p - 1) > CAP
  {
    hide Bytes, KeptBytes, Without, TotalWithout;
    keep, total, p := keep0, total0, p0;
    while total > CAP && p < limit
      invariant p0 <= p <= limit && keep == Without(All(|es|), vs[..p])
      invariant total == TotalWithout(base, es, vs, p)
      invariant p > 0 ==> TotalWithout(base, es, vs, p - 1) > CAP
    {
      var idx := vs[p];
      DropNext(base, es, vs, p);
      total := SatSub(total, Bytes(es[idx].line) + 1);
      keep := keep[idx := false];
      p := p + 1;
    }
  }

  // -------------------------------------------------- the stages, in order

  /** The source's second candidate list: kept entries that are not in progress. */
  function Fallback(es: seq<Todo>, keep: seq<bool>): seq<nat>
    requires |es| == |keep|
  {
    Select(|es|, (i: nat) => i < |es| && keep[i] && !InProgress(es[i]))
  }

  /** Once the pending todos are gone, that list holds the todos of other status. */
  lemma FallbackIsOthers(es: seq<Todo>)
    ensures Fallback(es, Without(All(|es|), PendingOf(es))) == OthersOf(es)
  {
    var keep := Without(All(|es|), PendingOf(es));
    forall i: nat | i < |es| ensures keep[i] <==> !Pending(es[i]) {
      if i in PendingOf(es) {
        assert Pending(es[i]);
      }
    }
    SelectSame(|es|, (i: nat) => i < |es| && keep[i] && !InProgress(es[i]),
               (i: nat) => i < |es| && !Pending(es[i]) && !InProgress(es[i]));
  }

  /** Both drop loops, in the order of the source. */
  method DropTodos(base: nat, es: seq<Todo>, total0: nat)
    returns (keep: seq<bool>, total: nat, ghost p: nat)
    requires total0 == base + KeptBytes(es, All(|es|))
    ensures ShortestDrop(base, es, Victims(es), p) && keep == Without(All(|es|), Victims(es)[..p])
    ensures total == TotalWithout(base, es, Victims(es), p)
  {
    VictimsFacts(es);
    FallbackIsOthers(es);
    var pending := PendingOf(es);
    var fallback := OthersOf(es);
    ghost var vs := pending + fallback;
    assert vs[..|pending|] == pending;
    assert vs[..0] == [];
    var n: nat;
    keep, total, n := DropWhileOver(base, es, pending + fallback, 0, |pending|, All(|es|), total0);
    if total > CAP {
      fallback := Fallback(es, keep);
      keep, total, n := DropWhileOver(base, es, pending + fallback, n, |pending + fallback|, keep, total);
    }
    p := n;
  }

  /** The header budget left when `count` todos each keep their reserve. */
  function HeaderBudget(count: nat): nat { SatSub(CAP, Min(count * RESERVED, CAP)) }

  function TrimmedHeader(header: string, count: nat): string {
    if count > 0 && Bytes(header) > HeaderBudget(count) then header[..FloorBoundary(header, HeaderBudget(count))]
    else header
  }

  /** The room beside every other kept line. */
  ghost function Room(header: string, es: seq<Todo>, keep: seq<bool>, i: nat): nat
    requires |es| == |keep| && i < |es| && keep[i]
  {
    SatSub(CAP, SatSub(Bytes(header) + KeptBytes(es, keep), Bytes(es[i].line)))
  }

  ghost predicate SomeKept(keep: seq<bool>, from: nat) {
    exists i :: from <= i < |keep| && keep[i]
  }

  ghost predicate AllSmall(parse: string -> Parsed, es: seq<Todo>, keep: seq<bool>)
    requires |es| == |keep|
  {
    forall i :: 0 <= i < |es| && keep[i] ==> Minimal(parse(es[i].line)) <= RESERVED - 1
  }

  /**
   The shrink loop's outcome: the entries before `cut` are dropped, the entry at `cut` may be
   shrunk into the room left beside the others, and the entries after it are untouched.
   */
  ghost predicate ShrunkAt(parse: string -> Parsed, header: string, es: seq<Todo>, keep0: seq<bool>,
                           todos: seq<Todo>, keep: seq<bool>, cut: nat)
    requires |es| == |keep0| == |todos| == |keep|
  {
    && (forall i :: 0 <= i < |es| ==> (keep[i] <==> keep0[i] && cut <= i))
    && (forall i :: 0 <= i < |es| && i != cut ==> todos[i] == es[i])
    && (cut < |es| && todos[cut] != es[cut] ==>
          todos[cut].status == es[cut].status && keep[cut] &&
          Shrinks(parse(es[cut].line), es[cut].line, Room(header, es, keep, cut), Some(todos[cut].line)))
  }

  /** The last line left cannot fail to shrink when the header has made room for its reserve. */
  lemma LastLineFits(parse: string -> Parsed, header: string, es: seq<Todo>, keep: seq<bool>, i: nat)
    requires |es| == |keep| && i < |es| && keep[i] && !SomeKept(keep[i := false], 0)
    requires Bytes(header) <= CAP - RESERVED && Bytes(header) + KeptBytes(es, keep) > CAP
    requires Shrinks(parse(es[i].line), es[i].line, Room(header, es, keep, i), None)
    ensures Minimal(parse(es[i].line)) > RESERVED - 1
  {
    KeptDrop(es, keep, i);
    KeptNone(es, keep[i := false]);
    ShrinkSucceedsIff(parse(es[i].line), es[i].line, Room(header, es, keep, i), None);
  }

  /** What holds when the shrink loop reaches entry `idx`. */
  ghost predicate LoopInv(parse: string -> Parsed, header: string, es: seq<Todo>, keep0: seq<bool>,
                          todos: seq<Todo>, keep: seq<bool>, total: nat, cut: nat, idx: nat)
    requires |es| == |keep0| && idx <= |es|
  {
    && |todos| == |keep| == |es|
    && total == Bytes(header) + KeptBytes(todos, keep)
    && ShrunkAt(parse, header, es, keep0, todos, keep, cut) && cut <= idx
    && (total > CAP ==> cut == idx && todos == es && (AllSmall(parse, es, keep0) ==> SomeKept(keep, idx)))
    && (total <= CAP && AllSmall(parse, es, keep0) ==> SomeKept(keep, 0))
  }

  lemma ShrinkStep(parse: string -> Parsed, header: string, es: seq<Todo>, keep0: seq<bool>, keep: seq<bool>,
                   total: nat, idx: nat, line: string)
    requires |es| == |keep0| && idx < |es|
    requires LoopInv(parse, header, es, keep0, es, keep, total, idx, idx) && total > CAP && keep[idx]
    requires Shrinks(parse(es[idx].line), es[idx].line, Room(header, es, keep, idx), Some(line))
    requires Bytes(line) <= Room(header, es, keep, idx) && Room(header, es, keep, idx) > 0
    ensures total >= Bytes(es[idx].line)
    ensures LoopInv(parse, header, es, keep0, es[idx := es[idx].(line := line)], keep,
                    total - Bytes(es[idx].line) + Bytes(line), idx, idx + 1)
  {
    hide Shrinks, Bytes, KeptBytes, Minimal, AllSmall;
    KeptUpdate(es, keep, idx, es[idx].(line := line), true);
    assert keep[idx := true] == keep;
    KeptDrop(es, keep, idx);
    assert SomeKept(keep, 0);
  }

  lemma DropStep(parse: string -> Parsed, header: string, es: seq<Todo>, keep0: seq<bool>, keep: seq<bool>,
                 total: nat, idx: nat)
    requires |es| == |keep0| && idx < |es| && Bytes(header) <= CAP - RESERVED
    requires LoopInv(parse, header, es, keep0, es, keep, total, idx, idx) && total > CAP && keep[idx]
    requires Shrinks(parse(es[idx].line), es[idx].line, Room(header, es, keep, idx), None)
    ensures total >= Bytes(es[idx].line) + 1
    ensures LoopInv(parse, header, es, keep0, es, keep[idx := false],
                    total - Bytes(es[idx].line) - 1, idx + 1, idx + 1)
  {
    var keep' := keep[idx := false];
    KeptDrop(es, keep, idx);
    if SomeKept(keep', idx + 1) {
      var i :| idx + 1 <= i < |keep'| && keep'[i];
      assert SomeKept(keep', 0);
    } else {
      assert !SomeKept(keep', 0);
      LastLineFits(parse, header, es, keep, idx);
    }
  }

  // ------------------------------------------ where the shrink loop stops

  /** What is kept once every entry before `i` is dropped. */
  function From(keep: seq<bool>, i: nat): (r: seq<bool>)
    ensures |r| == |keep| && forall k :: 0 <= k < |keep| ==> (r[k] <==> keep[k] && i <= k)
  {
    seq(|keep|, k requires 0 <= k < |keep| => keep[k] && i <= k)
  }

  ghost function TotalFrom(header: string, es: seq<Todo>, keep0: seq<bool>, i: nat): nat
    requires |es| == |keep0|
  {
    Bytes(header) + KeptBytes(es, From(keep0, i))
  }

  /**
   The first entry at which the loop is done: what is left fits, or the entry can be shrunk into
   the room beside what follows it. A function of the input alone.
   */
  ghost function StopAt(parse: string -> Parsed, header: string, es: seq<Todo>, keep0: seq<bool>, i: nat): (stop: nat)
    requires |es| == |keep0| && i <= |es|
    ensures i <= stop <= |es|
    decreases |es| - i
  {
    if i == |es| || TotalFrom(header, es, keep0, i) <= CAP ||
       (keep0[i] && Minimal(parse(es[i].line)) <= Room(header, es, From(keep0, i), i))
    then i
    else StopAt(parse, header, es, keep0, i + 1)
  }

  /** The entry where the loop stops is shrunk exactly when the block is then still too long. */
  ghost predicate ShrunkIfNeeded(header: string, es: seq<Todo>, keep0: seq<bool>, todos: seq<Todo>, cut: nat)
    requires |es| == |keep0| == |todos|
  {
    cut < |es| ==> (todos[cut] != es[cut] <==> keep0[cut] && TotalFrom(header, es, keep0, cut) > CAP)
  }

  ghost predicate StopInv(parse: string -> Parsed, header: string, es: seq<Todo>, keep0: seq<bool>, todos: seq<Todo>,
                          total: nat, cut: nat, idx: nat)
    requires |es| == |keep0| == |todos| && idx <= |es|
  {
    if total > CAP then
      StopAt(parse, header, es, keep0, 0) == StopAt(parse, header, es, keep0, idx) &&
      total == TotalFrom(header, es, keep0, idx)
    else StopAt(parse, header, es, keep0, 0) == cut && ShrunkIfNeeded(header, es, keep0, todos, cut)
  }

  lemma StopSkip(parse: string -> Parsed, header: string, es: seq<Todo>, keep0: seq<bool>, total: nat, idx: nat)
    requires |es| == |keep0| && idx < |es| && total > CAP && !keep0[idx]
    requires StopInv(parse, header, es, keep0, es, total, idx, idx)
    ensures StopInv(parse, header, es, keep0, es, total, idx + 1, idx + 1)
  {
    assert From(keep0, idx + 1) == From(keep0, idx);
  }

  lemma StopShrink(parse: string -> Parsed, header: string, es: seq<Todo>, keep0: seq<bool>, total: nat, idx: nat, line: string,
                   total': nat)
    requires |es| == |keep0| && idx < |es| && keep0[idx] && total > CAP && total' <= CAP && line != es[idx].line
    requires StopInv(parse, header, es, keep0, es, total, idx, idx)
    requires Minimal(parse(es[idx].line)) <= Room(header, es, From(keep0, idx), idx)
    ensures StopInv(parse, header, es, keep0, es[idx := es[idx].(line := line)], total', idx, idx + 1)
  {
  }

  lemma StopDrop(parse: string -> Parsed, header: string, es: seq<Todo>, keep0: seq<bool>, total: nat, idx: nat)
    requires |es| == |keep0| && idx < |es| && keep0[idx] && total > CAP
    requires StopInv(parse, header, es, keep0, es, total, idx, idx)
    requires Minimal(parse(es[idx].line)) > Room(header, es, From(keep0, idx), idx)
    ensures total >= Bytes(es[idx].line) + 1
    ensures StopInv(parse, header, es, keep0, es, total - Bytes(es[idx].line) - 1, idx + 1, idx + 1)
  {
    assert From(keep0, idx)[idx := false] == From(keep0, idx + 1);
    KeptDrop(es, From(keep0, idx), idx);
  }

  method ShrinkLoop(parse: string -> Parsed, header: string, es: seq<Todo>, keep0: seq<bool>, total0: nat)
    returns (todos: seq<Todo>, keep: seq<bool>, total: nat, ghost cut: nat)
    requires |es| == |keep0| && total0 == Bytes(header) + KeptBytes(es, keep0) && total0 > CAP
    requires Bytes(header) <= CAP - RESERVED && SomeKept(keep0, 0)
    ensures |todos| == |keep| == |es| && total == Bytes(header) + KeptBytes(todos, keep) <= CAP
    ensures ShrunkAt(parse, header, es, keep0, todos, keep, cut)
    ensures cut == StopAt(parse, header, es, keep0, 0) && ShrunkIfNeeded(header, es, keep0, todos, cut)
    ensures AllSmall(parse, es, keep0) ==> SomeKept(keep, 0)
  {
    hide LoopInv, StopInv, StopAt, Shrinks, ShrunkAt, ShrunkIfNeeded, AllSmall, SomeKept, Bytes, KeptBytes;
    todos, keep, total, cut := es, keep0, total0, 0;
    LoopStarts(parse, header, es, keep0, total0);
    for idx := 0 to |es|
      invariant |todos| == |keep| == |es|
      invariant LoopInv(parse, header, es, keep0, todos, keep, total, cut, idx)
      invariant StopInv(parse, header, es, keep0, todos, total, cut, idx)
    {
      if !keep[idx] || total <= CAP {
        LoopSkips(parse, header, es, keep0, todos, keep, total, cut, idx);
        cut := if total > CAP then idx + 1 else cut;
        continue;
      }
      LoopOver(parse, header, es, keep0, todos, keep, total, cut, idx);
      var line := todos[idx].line;
      var avail := SatSub(CAP, SatSub(total, Bytes(line)));
      var shrunk := ShrinkTodoLine(parse, line, avail);
      if shrunk.Some? {
        LoopShrinks(parse, header, es, keep0, keep, total, idx, shrunk.value);
        total := SatSub(total, Bytes(line)) + Bytes(shrunk.value);
        todos := todos[idx := todos[idx].(line := shrunk.value)];
      } else {
        LoopDrops(parse, header, es, keep0, keep, total, idx);
        total := SatSub(total, Bytes(line) + 1);
        keep := keep[idx := false];
        cut := idx + 1;
      }
    }
    LoopEnds(parse, header, es, keep0, todos, keep, total, cut);
  }

  lemma LoopStarts(parse: string -> Parsed, header: string, es: seq<Todo>, keep0: seq<bool>, total: nat)
    requires |es| == |keep0| && total > CAP && total == Bytes(header) + KeptBytes(es, keep0) && SomeKept(keep0, 0)
    ensures LoopInv(parse, header, es, keep0, es, keep0, total, 0, 0) && StopInv(parse, header, es, keep0, es, total, 0, 0)
  {
    StopStarts(parse, header, es, keep0, total);
  }

  lemma LoopSkips(parse: string -> Parsed, header: string, es: seq<Todo>, keep0: seq<bool>, todos: seq<Todo>,
                  keep: seq<bool>, total: nat, cut: nat, idx: nat)
    requires |es| == |keep0| == |todos| == |keep| && idx < |es| && (!keep[idx] || total <= CAP)
    requires LoopInv(parse, header, es, keep0, todos, keep, total, cut, idx)
    requires StopInv(parse, header, es, keep0, todos, total, cut, idx)
    ensures var cut' := if total > CAP then idx + 1 else cut;
            LoopInv(parse, header, es, keep0, todos, keep, total, cut', idx + 1) &&
            StopInv(parse, header, es, keep0, todos, total, cut', idx + 1)
  {
    hide StopInv, Bytes, KeptBytes;
    if total > CAP {
      StopSkip(parse, header, es, keep0, total, idx);
    } else {
      StopStays(parse, header, es, keep0, todos, total, cut, idx);
    }
  }

  /** While the block is too long nothing has been shrunk, and the entry at hand is longer than its room. */
  lemma LoopOver(parse: string -> Parsed, header: string, es: seq<Todo>, keep0: seq<bool>, todos: seq<Todo>,
                 keep: seq<bool>, total: nat, cut: nat, idx: nat)
    requires |es| == |keep0| == |todos| == |keep| && idx < |es| && keep[idx] && total > CAP
    requires LoopInv(parse, header, es, keep0, todos, keep, total, cut, idx)
    ensures todos == es && cut == idx && keep == From(keep0, idx) && keep0[idx]
    ensures total >= Bytes(es[idx].line) + 1 && total == Bytes(header) + KeptBytes(es, keep)
    ensures var avail := SatSub(CAP, SatSub(total, Bytes(es[idx].line)));
            avail == Room(header, es, keep, idx) && (avail == 0 || Bytes(es[idx].line) > avail)
  {
    hide Bytes, KeptBytes;
    KeptDrop(todos, keep, idx);
  }

  lemma LoopShrinks(parse: string -> Parsed, header: string, es: seq<Todo>, keep0: seq<bool>, keep: seq<bool>,
                    total: nat, idx: nat, line: string)
    requires |es| == |keep0| == |keep| && idx < |es| && keep[idx] && total > CAP
    requires LoopInv(parse, header, es, keep0, es, keep, total, idx, idx)
    requires StopInv(parse, header, es, keep0, es, total, idx, idx)
    requires Shrinks(parse(es[idx].line), es[idx].line, Room(header, es, keep, idx), Some(line))
    requires Bytes(line) <= Room(header, es, keep, idx)
    ensures var total' := SatSub(total, Bytes(es[idx].line)) + Bytes(line);
            LoopInv(parse, header, es, keep0, es[idx := es[idx].(line := line)], keep, total', idx, idx + 1) &&
            StopInv(parse, header, es, keep0, es[idx := es[idx].(line := line)], total', idx, idx + 1)
  {
    hide LoopInv, StopInv, Shrinks, Minimal, Bytes, KeptBytes;
    LoopOver(parse, header, es, keep0, es, keep, total, idx, idx);
    ShrinkSucceedsIff(parse(es[idx].line), es[idx].line, Room(header, es, keep, idx), Some(line));
    MinimalPositive(parse(es[idx].line));
    ShrinkStep(parse, header, es, keep0, keep, total, idx, line);
    assert total - Bytes(es[idx].line) + Bytes(line) <= CAP by {
      RoomFits(header, es, keep, idx, total);
    }
    StopShrink(parse, header, es, keep0, total, idx, line, SatSub(total, Bytes(es[idx].line)) + Bytes(line));
  }

  lemma RoomFits(header: string, es: seq<Todo>, keep: seq<bool>, i: nat, total: nat)
    requires |es| == |keep| && i < |es| && keep[i] && total == Bytes(header) + KeptBytes(es, keep)
    requires Room(header, es, keep, i) > 0 && total >= Bytes(es[i].line)
    ensures total - Bytes(es[i].line) + Room(header, es, keep, i) <= CAP
  {
    hide Bytes, KeptBytes;
  }

  lemma MinimalPositive(parsed: Parsed)
    ensures Minimal(parsed) > 0
  {
    if parsed.Json? && parsed.content.Some? {
      EncodeSize(parsed.content.value, 0);
    }
  }

  lemma LoopDrops(parse: string -> Parsed, header: string, es: seq<Todo>, keep0: seq<bool>, keep: seq<bool>,
                  total: nat, idx: nat)
    requires |es| == |keep0| == |keep| && idx < |es| && keep[idx] && total > CAP && Bytes(header) <= CAP - RESERVED
    requires LoopInv(parse, header, es, keep0, es, keep, total, idx, idx)
    requires StopInv(parse, header, es, keep0, es, total, idx, idx)
    requires Shrinks(parse(es[idx].line), es[idx].line, Room(header, es, keep, idx), None)
    ensures var total' := SatSub(total, Bytes(es[idx].line) + 1);
            LoopInv(parse, header, es, keep0, es, keep[idx := false], total', idx + 1, idx + 1) &&
            StopInv(parse, header, es, keep0, es, total', idx + 1, idx + 1)
  {
    hide LoopInv, StopInv, Shrinks, Minimal, Bytes, KeptBytes;
    LoopOver(parse, header, es, keep0, es, keep, total, idx, idx);
    ShrinkSucceedsIff(parse(es[idx].line), es[idx].line, Room(header, es, keep, idx), None);
    DropStep(parse, header, es, keep0, keep, total, idx);
    StopDrop(parse, header, es, keep0, total, idx);
  }

  lemma LoopEnds(parse: string -> Parsed, header: string, es: seq<Todo>, keep0: seq<bool>, todos: seq<Todo>,
                 keep: seq<bool>, total: nat, cut: nat)
    requires |es| == |keep0| == |todos| == |keep| && Bytes(header) <= CAP - RESERVED
    requires LoopInv(parse, header, es, keep0, todos, keep, total, cut, |es|)
    requires StopInv(parse, header, es, keep0, todos, total, cut, |es|)
    ensures total == Bytes(header) + KeptBytes(todos, keep) <= CAP && ShrunkAt(parse, header, es, keep0, todos, keep, cut)
    ensures cut == StopAt(parse, header, es, keep0, 0) && ShrunkIfNeeded(header, es, keep0, todos, cut)
    ensures AllSmall(parse, es, keep0) ==> SomeKept(keep, 0)
  {
    if total > CAP {
      KeptNone(todos, keep);
    }
    StopEnds(parse, header, es, keep0, todos, total, cut);
  }

  lemma StopStarts(parse: string -> Parsed, header: string, es: seq<Todo>, keep0: seq<bool>, total: nat)
    requires |es| == |keep0| && total > CAP && total == Bytes(header) + KeptBytes(es, keep0)
    ensures StopInv(parse, header, es, keep0, es, total, 0, 0)
  {
    assert From(keep0, 0) == keep0;
  }

  lemma StopStays(parse: string -> Parsed, header: string, es: seq<Todo>, keep0: seq<bool>, todos: seq<Todo>,
                  total: nat, cut: nat, idx: nat)
    requires |es| == |keep0| == |todos| && idx < |es| && total <= CAP
    requires StopInv(parse, header, es, keep0, todos, total, cut, idx)
    ensures StopInv(parse, header, es, keep0, todos, total, cut, idx + 1)
  {
  }

  lemma StopEnds(parse: string -> Parsed, header: string, es: seq<Todo>, keep0: seq<bool>, todos: seq<Todo>,
                 total: nat, cut: nat)
    requires |es| == |keep0| == |todos| && total <= CAP && StopInv(parse, header, es, keep0, todos, total, cut, |es|)
    ensures cut == StopAt(parse, header, es, keep0, 0) && ShrunkIfNeeded(header, es, keep0, todos, cut)
  {
  }

  // ------------------------------------------------------- the whole block

  function KeptCount(keep: seq<bool>): nat {
    if keep == [] then 0 else (if keep[0] then 1 else 0) + KeptCount(keep[1..])
  }

  function InProgressCount(es: seq<Todo>): nat {
    if es == [] then 0 else (if InProgress(es[0]) then 1 else 0) + InProgressCount(es[1..])
  }

  ghost predicate HasInProgress(es: seq<Todo>) { exists i :: 0 <= i < |es| && InProgress(es[i]) }

  ghost predicate KeepsInProgress(es: seq<Todo>, keep: seq<bool>) {
    |keep| == |es| && forall i :: 0 <= i < |es| ==> (keep[i] <==> InProgress(es[i]))
  }

  lemma {:induction false} CountsAgree(es: seq<Todo>, keep: seq<bool>)
    requires KeepsInProgress(es, keep)
    ensures KeptCount(keep) == InProgressCount(es)
    ensures KeptCount(keep) > 0 <==> HasInProgress(es)
    ensures HasInProgress(es) <==> SomeKept(keep, 0)
    decreases |es|
  {
    if i :| 0 <= i < |es| && InProgress(es[i]) {
      assert keep[i];
    }
    if es != [] {
      CountsAgree(es[1..], keep[1..]);
      if i :| 0 <= i < |es| && InProgress(es[i]) {
        assert i > 0 ==> InProgress(es[1..][i - 1]);
      }
      if i :| 0 <= i < |es[1..]| && InProgress(es[1..][i]) {
        assert InProgress(es[i + 1]);
      }
    }
  }

  /**
   The second half of the promise, once only in-progress todos are left and the block is still
   too long: the header is trimmed to leave each its reserve, then todos are dropped oldest
   first up to `cut`, the first place where that is enough or one can be shrunk.
   */
  ghost predicate FitsInProgress(parse: string -> Parsed, header0: string, es: seq<Todo>, kept: seq<bool>,
                                 header: string, todos: seq<Todo>, keep: seq<bool>, cut: nat)
    requires |kept| == |es|
  {
    && |todos| == |keep| == |es|
    && header == TrimmedHeader(header0, InProgressCount(es))
    && ShrunkAt(parse, header, es, kept, todos, keep, cut)
    && (HasInProgress(es) ==> Bytes(header) + KeptBytes(todos, keep) <= CAP)
    && (HasInProgress(es) && AllSmall(parse, es, kept) ==> SomeKept(keep, 0))
    && (HasInProgress(es) ==> cut == StopAt(parse, header, es, kept, 0))
    && ShrunkIfNeeded(header, es, kept, todos, cut)
  }

  /**
   What the allocator promises: `p` victims are dropped, as few as possible in priority order;
   if that suffices nothing else is touched.
   */
  ghost predicate Fits(parse: string -> Parsed, header0: string, es: seq<Todo>,
                       header: string, todos: seq<Todo>, keep: seq<bool>, p: nat, cut: nat)
  {
    ShortestDrop(Bytes(header0), es, Victims(es), p) &&
    var kept := Without(All(|es|), Victims(es)[..p]);
    if TotalWithout(Bytes(header0), es, Victims(es), p) <= CAP then
      header == header0 && todos == es && keep == kept
    else
      p == |Victims(es)| && FitsInProgress(parse, header0, es, kept, header, todos, keep, cut)
  }

  method FitInProgress(parse: string -> Parsed, header0: string, es: seq<Todo>, kept: seq<bool>, total0: nat)
    returns (header: string, todos: seq<Todo>, keep: seq<bool>, total: nat, ghost cut: nat)
    requires KeepsInProgress(es, kept) && total0 == Bytes(header0) + KeptBytes(es, kept) && total0 > CAP
    ensures FitsInProgress(parse, header0, es, kept, header, todos, keep, cut)
    ensures total == Bytes(header) + KeptBytes(todos, keep)
    ensures !HasInProgress(es) ==> total > CAP && header == header0 && !SomeKept(keep, 0)
  {
    header, todos, keep, total, cut := header0, es, kept, total0, 0;
    CountsAgree(es, kept);
    var count := KeptCount(kept);
    if count > 0 {
      var budget := HeaderBudget(count);
      if Bytes(header) > budget {
        var boundary := FloorBoundary(header, budget);
        BytesPrefix(header, boundary);
        total := SatSub(total, Bytes(header) - Bytes(header[..boundary]));
        header := header[..boundary];
      }
    }
    assert From(kept, 0) == kept;
    if total > CAP {
      if count > 0 {
        todos, keep, total, cut := ShrinkLoop(parse, header, es, kept, total);
      }
    }
  }

  method FitTodos(parse: string -> Parsed, header0: string, es: seq<Todo>)
    returns (header: string, todos: seq<Todo>, keep: seq<bool>, total: nat, ghost p: nat, ghost cut: nat)
    ensures Fits(parse, header0, es, header, todos, keep, p, cut)
    ensures |todos| == |keep| && total == Bytes(header) + KeptBytes(todos, keep)
    ensures total > CAP ==> !HasInProgress(es) && header == header0 && !SomeKept(keep, 0)
  {
    header, todos, cut := header0, es, 0;
    total := Bytes(header0) + KeptBytes(es, All(|es|));
    keep, total, p := DropTodos(Bytes(header0), es, total);
    if total > CAP {
      VictimsFacts(es);
      assert Victims(es)[..p] == Victims(es);
      header, todos, keep, total, cut := FitInProgress(parse, header0, es, keep, total);
    }
  }
}
