/** Capping the text injected after the instructions, from raw text to emitted text. */
module AfterInstructions {
  import opened Wrappers
  import opened Chars
  import opened Utf8
  import opened TodoShrink
  import opened TodoBudget

  // ------------------------------------------------------------- splitting

  function NewlineAt(s: string): (k: nat)
    ensures k <= |s| && (k < |s| ==> s[k] == '\n')
  {
    if s == [] || s[0] == '\n' then 0 else 1 + NewlineAt(s[1..])
  }

  function StripCr(s: string): string {
    if s != [] && s[|s| - 1] == '\r' then s[..|s| - 1] else s
  }

  /** `str::lines`: a newline, or a carriage return and newline, ends a line. */
  function Lines(s: string): seq<string>
    decreases |s|
  {
    if s == [] then []
    else
      var k := NewlineAt(s);
      if k == |s| then [s] else [StripCr(s[..k])] + Lines(s[k + 1..])
  }

  function Join(ls: seq<string>): string {
    if ls == [] then "" else if |ls| == 1 then ls[0] else ls[0] + "\n" + Join(ls[1..])
  }

  predicate Contains(s: string, pat: string) {
    pat <= s || (s != [] && Contains(s[1..], pat))
  }

  function TrimStart(s: string): string {
    if s != [] && IsWhitespace(s[0]) then TrimStart(s[1..]) else s
  }

  predicate OpensObject(line: string) { "{" <= TrimStart(line) }

  /** How many lines come before the first one that opens an object. */
  function HeaderEnd(lines: seq<string>): (n: nat)
    ensures n <= |lines|
  {
    if lines == [] || OpensObject(lines[0]) then 0 else 1 + HeaderEnd(lines[1..])
  }

  function StatusOf(parsed: Parsed): string {
    if parsed.Json? && parsed.status.Some? then parsed.status.value else "pending"
  }

  /** Blank lines are skipped; a malformed line counts as pending. */
  function TodosOf(parse: string -> Parsed, lines: seq<string>): seq<Todo> {
    if lines == [] then []
    else (if TrimStart(lines[0]) == [] then [] else [Todo(lines[0], StatusOf(parse(lines[0])))]) +
         TodosOf(parse, lines[1..])
  }

  method FindHeaderEnd(lines: seq<string>) returns (headerEnd: nat)
    ensures headerEnd == HeaderEnd(lines)
  {
    headerEnd := 0;
    while headerEnd < |lines| && !OpensObject(lines[headerEnd])
      invariant headerEnd <= |lines| && HeaderEnd(lines) == headerEnd + HeaderEnd(lines[headerEnd..])
    {
      assert lines[headerEnd..][1..] == lines[headerEnd + 1..];
      headerEnd := headerEnd + 1;
    }
  }

  lemma TodosHead(parse: string -> Parsed, lines: seq<string>, es: seq<Todo>)
    requires lines != []
    ensures es + TodosOf(parse, lines) ==
            (if TrimStart(lines[0]) != [] then es + [Todo(lines[0], StatusOf(parse(lines[0])))] else es) +
            TodosOf(parse, lines[1..])
  {
    hide TrimStart, StatusOf;
  }

  lemma NoTodos(parse: string -> Parsed)
    ensures TodosOf(parse, []) == []
  {
  }

  method ParseTodos(parse: string -> Parsed, lines: seq<string>) returns (es: seq<Todo>)
    ensures es == TodosOf(parse, lines)
  {
    hide TodosOf, TrimStart, StatusOf;
    es := [];
    assert lines[0..] == lines;
    for i := 0 to |lines|
      invariant es + TodosOf(parse, lines[i..]) == TodosOf(parse, lines)
    {
      assert lines[i..][1..] == lines[i + 1..];
      TodosHead(parse, lines[i..], es);
      if TrimStart(lines[i]) != [] {
        es := es + [Todo(lines[i], StatusOf(parse(lines[i])))];
      }
    }
    assert lines[|lines|..] == [];
    NoTodos(parse);
  }

  // ------------------------------------------------------------- rendering

  method Emit(header: string, todos: seq<Todo>, keep: seq<bool>) returns (out: string)
    requires |todos| == |keep|
    ensures out == header + Render(todos, keep)
    ensures Bytes(out) == Bytes(header) + KeptBytes(todos, keep)
  {
    out := header;
    for i := 0 to |todos|
      invariant out + Render(todos[i..], keep[i..]) == header + Render(todos, keep)
    {
      assert todos[i..][1..] == todos[i + 1..] && keep[i..][1..] == keep[i + 1..];
      if keep[i] {
        out := out + "\n" + todos[i].line;
      }
    }
    BytesAppend(header, Render(todos, keep));
    RenderBytes(todos, keep);
  }

  function LastNewline(s: string): (r: Option<nat>)
    ensures r.Some? ==> r.value < |s| && s[r.value] == '\n' && forall k :: r.value < k < |s| ==> s[k] != '\n'
    ensures r.None? ==> forall k :: 0 <= k < |s| ==> s[k] != '\n'
  {
    if s == [] then None
    else if s[|s| - 1] == '\n' then Some(|s| - 1)
    else LastNewline(s[..|s| - 1])
  }

  /** The whole text, or the text before a newline that lies beyond the header. */
  ghost predicate WholeLines(s: string, headerLen: nat, k: nat) {
    k <= |s| && (k == |s| || (s[k] == '\n' && Bytes(s[..k]) >= headerLen))
  }

  ghost predicate FitsUpTo(s: string, headerLen: nat, k: nat) { WholeLines(s, headerLen, k) && Bytes(s[..k]) <= CAP }

  /**
   The final safety net: the most whole lines that fit, the header kept; if none fit, a cut at a
   character boundary.
   */
  method TrimTail(out0: string, headerLen: nat) returns (out: string)
    ensures Bytes(out) <= CAP
    ensures (exists k: nat :: FitsUpTo(out0, headerLen, k)) ==>
              exists k: nat :: FitsUpTo(out0, headerLen, k) && out == out0[..k] &&
                               forall j: nat :: k < j ==> !FitsUpTo(out0, headerLen, j)
    ensures !(exists k: nat :: FitsUpTo(out0, headerLen, k)) ==> out == out0[..FloorBoundary(out0, CAP)]
  {
    hide Bytes, FloorBoundary, LastNewline;
    out := out0;
    assert out0[..|out0|] == out0;
    ghost var n: nat := |out0|;
    while Bytes(out) > CAP
      invariant n <= |out0| && out == out0[..n] && WholeLines(out0, headerLen, n)
      invariant forall j: nat :: n < j ==> !FitsUpTo(out0, headerLen, j)
      decreases |out|
    {
      var nl := LastNewline(out);
      if nl.None? || Bytes(out[..nl.value]) < headerLen {
        NoEarlierLine(out0, headerLen, n);
        break;
      }
      SkipsNoLine(out0, headerLen, n, nl.value);
      assert out[..nl.value] == out0[..nl.value];
      out, n := out[..nl.value], nl.value;
    }
    if Bytes(out) > CAP {
      assert forall k: nat :: !FitsUpTo(out0, headerLen, k);
      FloorOfPrefix(out, out0, CAP);
      out := out[..FloorBoundary(out, CAP)];
    } else {
      assert FitsUpTo(out0, headerLen, n);
    }
  }

  /** The text is longer than the cap up to `n`, and no newline before `n` lies beyond the header. */
  lemma NoEarlierLine(s: string, headerLen: nat, n: nat)
    requires n <= |s| && Bytes(s[..n]) > CAP && forall j: nat :: n < j ==> !FitsUpTo(s, headerLen, j)
    requires var nl := LastNewline(s[..n]); nl.None? || Bytes(s[..n][..nl.value]) < headerLen
    ensures forall j: nat :: !FitsUpTo(s, headerLen, j)
  {
    hide LastNewline;
    var nl := LastNewline(s[..n]);
    forall j: nat | j < n ensures !FitsUpTo(s, headerLen, j) {
      assert s[j] == s[..n][j];
      if s[j] == '\n' {
        assert s[..n][..nl.value] == s[..nl.value] && j <= nl.value;
        assert s[..nl.value][..j] == s[..j];
        BytesPrefix(s[..nl.value], j);
      }
    }
  }

  lemma SkipsNoLine(s: string, headerLen: nat, n: nat, k: nat)
    requires k < n <= |s| && Bytes(s[..n]) > CAP && forall j: nat :: n < j ==> !FitsUpTo(s, headerLen, j)
    requires forall j :: k < j < n ==> s[..n][j] != '\n'
    ensures forall j: nat :: k < j ==> !FitsUpTo(s, headerLen, j)
  {
    assert forall j :: k < j < n ==> s[j] == s[..n][j];
  }

  const MARKER := "[truncated]"

  /** Lines joined by newlines; a separator is written only once there is something to separate. */
  function Tight(lines: seq<string>): string {
    if lines == [] then "" else Joined(Tight(lines[..|lines| - 1]), lines[|lines| - 1])
  }

  function Joined(result: string, line: string): string { if result != "" then result + "\n" + line else line }

  lemma TightNext(lines: seq<string>, i: nat)
    requires i < |lines|
    ensures Tight(lines[..i + 1]) == Joined(Tight(lines[..i]), lines[i])
    ensures Bytes(Tight(lines[..i + 1])) ==
            Bytes(Tight(lines[..i])) + (if Tight(lines[..i]) != "" then 1 else 0) + Bytes(lines[i])
  {
    hide Tight;
    TightLast(lines[..i + 1]);
    assert lines[..i + 1][..i] == lines[..i];
    var before := Tight(lines[..i]);
    BytesAppend(before + "\n", lines[i]);
    BytesAppend(before, "\n");
    Newline();
  }

  lemma TightLast(lines: seq<string>)
    requires lines != []
    ensures Tight(lines) == Joined(Tight(lines[..|lines| - 1]), lines[|lines| - 1])
  {
  }

  lemma Newline()
    ensures Bytes("\n") == 1 && Bytes("") == 0 && Bytes("\n" + MARKER) == 12 && Bytes(MARKER) == 11
  {
    assert forall c :: c in "\n" + MARKER ==> Width(c) == 1;
    AllNarrow("\n" + MARKER);
    AllNarrow(MARKER);
    AllNarrow("\n");
  }

  lemma {:induction false} AllNarrow(s: string)
    requires forall c :: c in s ==> Width(c) == 1
    ensures Bytes(s) == |s|
  {
    if s != [] {
      AllNarrow(s[1..]);
    }
  }

  lemma {:induction false} TightPrefix(lines: seq<string>, i: nat)
    requires i <= |lines|
    ensures Tight(lines[..i]) <= Tight(lines) && Bytes(Tight(lines[..i])) <= Bytes(Tight(lines))
    decreases |lines| - i
  {
    if i < |lines| {
      hide Tight;
      TightNext(lines, i);
      TightPrefix(lines, i + 1);
    } else {
      assert lines[..i] == lines;
    }
  }

  /** The marker goes on a line of its own, unless not even one character fits before it. */
  function Suffix(full: string, maxBytes: nat): string {
    if FloorBoundary(full, maxBytes) == 0 then MARKER else "\n" + MARKER
  }

  /** What is left of a text whose lines do not fit: as much as leaves room for the marker, if there is any. */
  function Truncated(full: string, maxBytes: nat): string {
    var suffix := Suffix(full, maxBytes);
    if Bytes(full) <= maxBytes then full
    else if Bytes(suffix) >= maxBytes then suffix[..FloorBoundary(suffix, maxBytes)]
    else full[..FloorBoundary(full, maxBytes - Bytes(suffix))] + suffix
  }

  /** What the loop leaves in the result when a line does not fit beside what is there. */
  function CutLine(before: string, line: string, maxBytes: nat): string {
    var separator := if before != "" then 1 else 0;
    var remaining := SatSub(maxBytes, Bytes(before) + separator);
    (if separator != 0 && remaining > 0 then before + "\n" else before) + line[..FloorBoundary(line, remaining)]
  }

  /** It is cut into the room left, less than a character short of the limit. */
  lemma CutLineFits(before: string, line: string, maxBytes: nat)
    requires Bytes(before) <= maxBytes < Bytes(before) + (if before != "" then 1 else 0) + Bytes(line)
    ensures var part := CutLine(before, line, maxBytes);
            part <= Joined(before, line) && Bytes(part) <= maxBytes && maxBytes < Bytes(part) + 4
    ensures CutLine(before, line, maxBytes) == "" ==> before == "" && FloorBoundary(line, maxBytes) == 0
  {
    hide FloorBoundary, Bytes;
    Newline();
    if before == "" {
      CutInto("", line, maxBytes);
      assert "" + line == line;
    } else if maxBytes > Bytes(before) + 1 {
      BytesAppend(before, "\n");
      CutInto(before + "\n", line, maxBytes - Bytes(before) - 1);
    } else {
      NoRoom(line);
      assert before + "" == before;
      PrefixOf(before, "\n" + line);
      assert before + ("\n" + line) == before + "\n" + line;
    }
  }

  lemma PartialLine(lines: seq<string>, i: nat, maxBytes: nat)
    requires i < |lines| && Bytes(Tight(lines[..i])) <= maxBytes
    requires maxBytes < Bytes(Tight(lines[..i])) + (if Tight(lines[..i]) != "" then 1 else 0) + Bytes(lines[i])
    ensures var part := CutLine(Tight(lines[..i]), lines[i], maxBytes);
            part <= Tight(lines) && Bytes(part) <= maxBytes < Bytes(part) + 4 &&
            (part == "" <==> FloorBoundary(Tight(lines), maxBytes) == 0)
    ensures Bytes(Tight(lines)) > maxBytes
  {
    hide Tight, CutLine, Bytes, Joined, FloorBoundary;
    var before, part := Tight(lines[..i]), CutLine(Tight(lines[..i]), lines[i], maxBytes);
    CutLineFits(before, lines[i], maxBytes);
    TightNext(lines, i);
    TightPrefix(lines, i + 1);
    PrefixTransitive(part, Tight(lines[..i + 1]), Tight(lines));
    if part == "" {
      JoinedAlone(lines[i]);
      FloorOfLonger(lines[i], Tight(lines), maxBytes);
    } else {
      FloorAtLeast(part, Tight(lines), maxBytes);
    }
  }

  lemma JoinedAlone(line: string)
    ensures Joined("", line) == line
  {
  }

  /** A text that starts with one too long to fit is cut where that one is. */
  lemma FloorOfLonger(line: string, full: string, maxBytes: nat)
    requires line <= full && Bytes(line) > maxBytes && FloorBoundary(line, maxBytes) == 0
    ensures FloorBoundary(full, maxBytes) == 0
  {
    FloorOfPrefix(line, full, maxBytes);
  }

  lemma FloorAtLeast(part: string, full: string, maxBytes: nat)
    requires part <= full && part != "" && Bytes(part) <= maxBytes
    ensures FloorBoundary(full, maxBytes) > 0
  {
    assert full[..1] == part[..1];
    BytesPrefix(part, 1);
    FloorNonZero(full, maxBytes);
  }

  lemma FloorNonZero(s: string, n: nat)
    requires s != "" && Bytes(s[..1]) <= n
    ensures FloorBoundary(s, n) > 0
  {
    hide Bytes;
    assert FloorBoundary(s, n) < |s| ==> Bytes(s[..FloorBoundary(s, n) + 1]) > n;
  }

  lemma PrefixTransitive(a: string, b: string, c: string)
    requires a <= b <= c
    ensures a <= c
  {
  }

  lemma CutInto(start: string, line: string, remaining: nat)
    requires Bytes(line) > remaining
    ensures var part := start + line[..FloorBoundary(line, remaining)];
            part <= start + line && Bytes(part) <= Bytes(start) + remaining < Bytes(part) + 4
  {
    hide FloorBoundary, Bytes;
    var k := FloorBoundary(line, remaining);
    FloorIsTight(line, remaining);
    BytesAppend(start, line[..k]);
    assert line == line[..k] + line[k..];
    assert start + line == (start + line[..k]) + line[k..];
  }

  lemma PrefixOf(a: string, b: string)
    ensures a <= a + b
  {
  }

  lemma NoRoom(s: string)
    ensures s[..FloorBoundary(s, 0)] == ""
  {
  }

  /** The general truncation used when the block holds no todos; no line limit applies here. */
  method TruncateOutput(text: string, maxBytes: nat) returns (result: string)
    ensures Bytes(result) <= maxBytes
    ensures result == Truncated(Tight(Lines(text)), maxBytes)
  {
    hide Tight, Lines, FloorBoundary, Bytes, Truncated, CutLine;
    Newline();
    if maxBytes == 0 {
      NoBytes(Tight(Lines(text)));
      return "";
    }
    var lines := Lines(text);
    result := "";
    var truncated := false;
    NothingYet(lines);
    for i := 0 to |lines|
      invariant Bytes(result) <= maxBytes && !truncated && result == Tight(lines[..i])
    {
      var separator := if result != "" then 1 else 0;
      TightNext(lines, i);
      if Bytes(result) + separator + Bytes(lines[i]) > maxBytes {
        var remaining := SatSub(maxBytes, Bytes(result) + separator);
        if separator != 0 && remaining > 0 {
          result := result + "\n";
        }
        result := result + lines[i][..FloorBoundary(lines[i], remaining)];
        CutLineIs(Tight(lines[..i]), lines[i], maxBytes);
        PartialLine(lines, i, maxBytes);
        truncated := true;
        break;
      }
      if separator != 0 {
        result := result + "\n";
      }
      result := result + lines[i];
      assert result == Tight(lines[..i + 1]);
    }
    if truncated {
      MarkedIs(result, Tight(lines), maxBytes);
      var suffix := if result == "" then MARKER else "\n" + MARKER;
      if Bytes(suffix) >= maxBytes {
        result := suffix[..FloorBoundary(suffix, maxBytes)];
      } else {
        var limit := maxBytes - Bytes(suffix);
        result := result[..FloorBoundary(result, limit)];
        result := result + suffix;
      }
    } else {
      assert lines[..|lines|] == lines;
      Untruncated(result, maxBytes);
    }
  }

  lemma CutLineIs(before: string, line: string, maxBytes: nat)
    ensures var separator := if before != "" then 1 else 0;
            var remaining := SatSub(maxBytes, Bytes(before) + separator);
            CutLine(before, line, maxBytes) ==
            (if separator != 0 && remaining > 0 then before + "\n" else before) + line[..FloorBoundary(line, remaining)]
  {
    hide Bytes, FloorBoundary;
  }

  lemma Untruncated(full: string, maxBytes: nat)
    requires Bytes(full) <= maxBytes
    ensures Truncated(full, maxBytes) == full
  {
  }

  /** The marker put behind what the loop left. */
  lemma MarkedIs(part: string, full: string, maxBytes: nat)
    requires part <= full && Bytes(part) <= maxBytes < Bytes(part) + 4 && maxBytes < Bytes(full)
    requires part == "" <==> FloorBoundary(full, maxBytes) == 0
    ensures var suffix := if part == "" then MARKER else "\n" + MARKER;
            Truncated(full, maxBytes) ==
            (if Bytes(suffix) >= maxBytes then suffix[..FloorBoundary(suffix, maxBytes)]
             else part[..FloorBoundary(part, maxBytes - Bytes(suffix))] + suffix)
    ensures Bytes(Truncated(full, maxBytes)) <= maxBytes
  {
    hide Bytes, FloorBoundary;
    Newline();
    var suffix := if part == "" then MARKER else "\n" + MARKER;
    assert Suffix(full, maxBytes) == suffix;
    if Bytes(suffix) < maxBytes {
      var limit := maxBytes - Bytes(suffix);
      FloorOfPrefix(part, full, limit);
      BytesAppend(part[..FloorBoundary(part, limit)], suffix);
    }
  }

  lemma NoBytes(full: string)
    ensures Truncated(full, 0) == ""
  {
    NoRoom(MARKER);
    NoRoom("\n" + MARKER);
    BytesAtLeastLength(full);
  }

  lemma NothingYet(lines: seq<string>)
    ensures Tight(lines[..0]) == ""
  {
  }

  // ----------------------------------------------------------- the cap

  const TODO_HEADING := "# Current todos"

  ghost predicate IsTodoBlock(parse: string -> Parsed, content: string) {
    Bytes(content) > 2048 && Contains(content, "# Current todos") &&
    TodosOf(parse, Lines(content)[HeaderEnd(Lines(content))..]) != []
  }

  /** The emitted block: every kept line as it was fitted, and a hard cut only when no todo is left. */
  ghost predicate Emitted(out: string, header: string, todos: seq<Todo>, keep: seq<bool>) {
    |todos| == |keep| &&
    if Bytes(header) + KeptBytes(todos, keep) <= CAP then out == header + Render(todos, keep)
    else !SomeKept(keep, 0) && out == header[..FloorBoundary(header, CAP)]
  }

  lemma HeaderOnly(header: string, todos: seq<Todo>, keep: seq<bool>)
    requires |todos| == |keep| && !SomeKept(keep, 0)
    ensures header + Render(todos, keep) == header
    ensures Bytes(header) > CAP ==> forall k: nat :: !FitsUpTo(header, Bytes(header), k)
  {
    KeptNone(todos, keep);
    assert header[..|header|] == header;
    forall k: nat | k < |header| ensures Bytes(header[..k]) < Bytes(header) {
      BytesPrefix(header, k);
    }
  }

  lemma FitsWhole(s: string, headerLen: nat)
    requires Bytes(s) <= CAP
    ensures FitsUpTo(s, headerLen, |s|) && forall j: nat :: |s| < j ==> !FitsUpTo(s, headerLen, j)
    ensures s[..|s|] == s
  {
    assert s[..|s|] == s;
  }

  /** Fitting and emitting one todo block. */
  method CapTodos(parse: string -> Parsed, header0: string, es: seq<Todo>)
    returns (out: string, ghost header: string, ghost todos: seq<Todo>, ghost keep: seq<bool>,
             ghost p: nat, ghost cut: nat)
    ensures Fits(parse, header0, es, header, todos, keep, p, cut)
    ensures Emitted(out, header, todos, keep) && Bytes(out) <= CAP
    ensures Bytes(header) + KeptBytes(todos, keep) > CAP ==> !HasInProgress(es)
  {
    var h, ts, ks, total;
    h, ts, ks, total, p, cut := FitTodos(parse, header0, es);
    header, todos, keep := h, ts, ks;
    var block := Emit(h, ts, ks);
    if total > CAP {
      HeaderOnly(h, ts, ks);
    } else {
      FitsWhole(block, Bytes(h));
    }
    out := TrimTail(block, Bytes(h));
  }

  /**
   The whole function: at most 2048 bytes for every text, text that fits is untouched, a
   todo block is the fitted block with no line removed after fitting, and any other text is
   its longest prefix that leaves room for the truncation marker.
   */
  method CapAfterInstructions(parse: string -> Parsed, content: string)
    returns (out: string, ghost header: string, ghost todos: seq<Todo>, ghost keep: seq<bool>,
             ghost p: nat, ghost cut: nat)
    ensures Bytes(out) <= 2048
    ensures Bytes(content) <= 2048 ==> out == content
    ensures Bytes(content) > 2048 && !IsTodoBlock(parse, content) ==> out == Truncated(Tight(Lines(content)), 2048)
    ensures IsTodoBlock(parse, content) ==>
      var lines := Lines(content);
      Fits(parse, Join(lines[..HeaderEnd(lines)]), TodosOf(parse, lines[HeaderEnd(lines)..]), header, todos, keep, p, cut) &&
      Emitted(out, header, todos, keep)
  {
    header, todos, keep, p, cut := "", [], [], 0, 0;
    if Bytes(content) <= CAP {
      return content, header, todos, keep, p, cut;
    }
    if !Contains(content, TODO_HEADING) {
      out := TruncateOutput(content, CAP);
      return;
    }
    var lines := Lines(content);
    var headerEnd := FindHeaderEnd(lines);
    var header0 := Join(lines[..headerEnd]);
    var es := ParseTodos(parse, lines[headerEnd..]);
    if es == [] {
      out := TruncateOutput(content, CAP);
      return;
    }
    out, header, todos, keep, p, cut := CapTodos(parse, header0, es);
  }

  // ----------------------------------------------------- what a reader gets

  /** A pending or other todo survives iff the drop loops stopped before it, and then unchanged. */
  lemma VictimSurvives(parse: string -> Parsed, header0: string, es: seq<Todo>,
                       header: string, todos: seq<Todo>, keep: seq<bool>, p: nat, cut: nat, a: nat)
    requires Fits(parse, header0, es, header, todos, keep, p, cut) && a < |Victims(es)|
    ensures |keep| == |es| == |todos|
    ensures keep[Victims(es)[a]] <==> p <= a
    ensures p <= a ==> todos[Victims(es)[a]] == es[Victims(es)[a]]
  {
    VictimsFacts(es);
    InPrefix(Victims(es), p, a);
  }

  /**
   Among pending and other todos the survivors come last in the order pending before other,
   older before newer.
   */
  lemma DropPriority(parse: string -> Parsed, header0: string, es: seq<Todo>,
                     header: string, todos: seq<Todo>, keep: seq<bool>, p: nat, cut: nat, i: nat, j: nat)
    requires Fits(parse, header0, es, header, todos, keep, p, cut)
    requires i < |es| && j < |es| && es[i].status != "in_progress" && es[j].status != "in_progress"
    requires if es[i].status == "pending" then es[j].status != "pending" || i < j else es[j].status != "pending" && i < j
    ensures |keep| == |es| == |todos|
    ensures keep[i] ==> keep[j]
    ensures keep[i] ==> todos[i] == es[i]
  {
    VictimsFacts(es);
    var a :| 0 <= a < |Victims(es)| && Victims(es)[a] == i;
    var b :| 0 <= b < |Victims(es)| && Victims(es)[b] == j;
    PriorityOrder(es, a, b);
    VictimSurvives(parse, header0, es, header, todos, keep, p, cut, a);
    VictimSurvives(parse, header0, es, header, todos, keep, p, cut, b);
  }

  /**
   An in-progress todo is touched only when no todo of another status survives, and the touched
   ones are a dropped prefix followed by at most one shrunk line.
   */
  lemma InProgressLast(parse: string -> Parsed, header0: string, es: seq<Todo>,
                       header: string, todos: seq<Todo>, keep: seq<bool>, p: nat, cut: nat, i: nat, j: nat)
    requires Fits(parse, header0, es, header, todos, keep, p, cut)
    requires i < |es| && j < |es| && es[i].status == "in_progress"
    ensures |keep| == |es| == |todos|
    ensures !(keep[i] && todos[i] == es[i]) && es[j].status != "in_progress" ==> !keep[j]
    ensures keep[i] && es[j].status == "in_progress" && i < j ==> keep[j] && todos[j] == es[j]
  {
    var vs := Victims(es);
    InProgressSafe(es, p, i);
    if TotalWithout(Bytes(header0), es, vs, p) > CAP {
      assert vs[..p] == vs;
      VictimsFacts(es);
    } else if InProgress(es[j]) {
      InProgressSafe(es, p, j);
    }
  }

  lemma InPrefix(vs: seq<nat>, p: nat, a: nat)
    requires p <= |vs| && a < |vs| && forall j, k :: 0 <= j < k < |vs| ==> vs[j] != vs[k]
    ensures vs[a] in vs[..p] <==> a < p
  {
    if a < p {
      assert vs[..p][a] == vs[a];
    }
  }

  lemma InProgressSafe(es: seq<Todo>, p: nat, i: nat)
    requires p <= |Victims(es)| && i < |es| && InProgress(es[i])
    ensures i !in Victims(es)[..p]
  {
    VictimsFacts(es);
  }

  /** Earlier in the victim order means pending before others, and older before newer. */
  lemma PriorityOrder(es: seq<Todo>, a: nat, b: nat)
    requires a < |Victims(es)| && b < |Victims(es)|
    ensures var i, j := Victims(es)[a], Victims(es)[b];
            (Pending(es[i]) && !Pending(es[j]) ==> a < b) &&
            (Pending(es[i]) == Pending(es[j]) && i < j ==> a < b)
  {
    var n := |PendingOf(es)|;
    assert forall k :: 0 <= k < n ==> Pending(es[PendingOf(es)[k]]);
    assert forall k :: 0 <= k < |OthersOf(es)| ==> !Pending(es[OthersOf(es)[k]]);
  }

  /** Every victim was dropped while the block was still too long. */
  lemma EachDropNeeded(parse: string -> Parsed, header0: string, es: seq<Todo>,
                       header: string, todos: seq<Todo>, keep: seq<bool>, p: nat, cut: nat, q: nat)
    requires Fits(parse, header0, es, header, todos, keep, p, cut) && q < p
    ensures TotalWithout(Bytes(header0), es, Victims(es), q) > CAP
  {
    VictimsFacts(es);
    hide Bytes, KeptBytes, TotalWithout, FitsInProgress;
    assert ShortestDrop(Bytes(header0), es, Victims(es), p);
    DropsShorten(Bytes(header0), es, Victims(es), q, p - 1);
  }

  /** If some todo is in progress and each needs at most 63 bytes, one survives. */
  lemma InProgressSurvives(parse: string -> Parsed, header0: string, es: seq<Todo>,
                           header: string, todos: seq<Todo>, keep: seq<bool>, p: nat, cut: nat)
    requires Fits(parse, header0, es, header, todos, keep, p, cut) && HasInProgress(es)
    requires forall i :: 0 <= i < |es| && InProgress(es[i]) ==> Minimal(parse(es[i].line)) <= 63
    ensures |keep| == |es| && exists i :: 0 <= i < |es| && InProgress(es[i]) && keep[i]
  {
    hide Bytes, KeptBytes, Minimal, TrimmedHeader, InProgressCount, TotalWithout, Victims, StopAt, Shrinks, ShrunkIfNeeded,
      AllSmall, InProgressOnly;
    var vs := Victims(es);
    if TotalWithout(Bytes(header0), es, vs, p) <= CAP {
      var i :| 0 <= i < |es| && InProgress(es[i]);
      InProgressSafe(es, p, i);
      assert keep[i];
    } else {
      WithoutVictims(es);
      OnlyInProgress(es);
      SmallInProgress(parse, es);
      var i :| 0 <= i < |keep| && keep[i];
      assert InProgress(es[i]);
    }
  }

  lemma SmallInProgress(parse: string -> Parsed, es: seq<Todo>)
    requires forall i :: 0 <= i < |es| && InProgress(es[i]) ==> Minimal(parse(es[i].line)) <= 63
    ensures AllSmall(parse, es, InProgressOnly(es))
  {
    hide Minimal;
  }

  // -------------------------------------------- do the lines stay whole?

  /** Every kept line is whole if and only if each line that was changed has a text content. */
  lemma WholeIff(parse: string -> Parsed, header0: string, es: seq<Todo>,
                 header: string, todos: seq<Todo>, keep: seq<bool>, p: nat, cut: nat)
    requires Fits(parse, header0, es, header, todos, keep, p, cut)
    ensures |keep| == |es| == |todos|
    ensures (forall i :: 0 <= i < |es| && keep[i] ==> Whole(parse(es[i].line), es[i].line, todos[i].line)) <==>
            (forall i :: 0 <= i < |es| && keep[i] && todos[i] != es[i] ==> HasText(parse(es[i].line)))
  {
    forall i | 0 <= i < |es| && keep[i]
      ensures Whole(parse(es[i].line), es[i].line, todos[i].line) <==>
              (todos[i] != es[i] ==> HasText(parse(es[i].line)))
    {
      LineWholeIff(parse, header0, es, header, todos, keep, p, cut, i);
    }
  }

  lemma LineWholeIff(parse: string -> Parsed, header0: string, es: seq<Todo>,
                     header: string, todos: seq<Todo>, keep: seq<bool>, p: nat, cut: nat, i: nat)
    requires Fits(parse, header0, es, header, todos, keep, p, cut) && i < |es|
    ensures |keep| == |es| == |todos|
    ensures keep[i] ==> (Whole(parse(es[i].line), es[i].line, todos[i].line) <==>
                         (todos[i] != es[i] ==> HasText(parse(es[i].line))))
    ensures keep[i] && todos[i] != es[i] && !HasText(parse(es[i].line)) ==>
              exists n :: 0 <= n <= CAP && todos[i].line == es[i].line[..FloorBoundary(es[i].line, n)] + "..." &&
                          !EndsLikeJson(todos[i].line)
  {
    hide Bytes, KeptBytes, Victims, StopAt, Shrinks, Minimal, TrimmedHeader, InProgressCount, Encode, FloorBoundary;
    if keep[i] && todos[i] != es[i] {
      var room := Room(header, es, keep, i);
      assert i == cut && todos[i].line != es[i].line;
      ShrinkIsShorter(parse(es[i].line), es[i].line, room, todos[i].line);
      ShrunkWholeIff(parse(es[i].line), es[i].line, room, Some(todos[i].line));
    }
  }

  lemma ShrinkIsShorter(parsed: Parsed, line: string, avail: nat, shrunk: string)
    requires Shrinks(parsed, line, avail, Some(shrunk)) && shrunk != line
    ensures Bytes(line) > avail
  {
  }

  /** The todos in progress. */
  function InProgressOnly(es: seq<Todo>): seq<bool> {
    seq(|es|, i requires 0 <= i < |es| => InProgress(es[i]))
  }

  /**
   Whether a line will be cut raw, from the input alone: without the other todos the block is too
   long, and where the shrink loop stops it still is, at a line without a text content.
   */
  ghost predicate CutsRaw(parse: string -> Parsed, header0: string, es: seq<Todo>) {
    var header, kept := TrimmedHeader(header0, InProgressCount(es)), InProgressOnly(es);
    var stop := StopAt(parse, header, es, kept, 0);
    Bytes(header0) + KeptBytes(es, kept) > CAP && stop < |es| && kept[stop] &&
    TotalFrom(header, es, kept, stop) > CAP && !HasText(parse(es[stop].line))
  }

  lemma WithoutVictims(es: seq<Todo>)
    ensures Without(All(|es|), Victims(es)[..|Victims(es)|]) == InProgressOnly(es)
  {
    VictimsFacts(es);
    var vs := Victims(es);
    assert vs[..|vs|] == vs;
  }

  /** If dropping some victims was enough, the todos in progress fit. */
  lemma EnoughDropped(header0: string, es: seq<Todo>, p: nat)
    requires p <= |Victims(es)| && TotalWithout(Bytes(header0), es, Victims(es), p) <= CAP
    ensures Bytes(header0) + KeptBytes(es, InProgressOnly(es)) <= CAP
  {
    hide Bytes, KeptBytes;
    VictimsFacts(es);
    DropsShorten(Bytes(header0), es, Victims(es), p, |Victims(es)|);
    WithoutVictims(es);
  }

  lemma SomeInProgress(es: seq<Todo>, i: nat)
    requires i < |es| && InProgress(es[i])
    ensures HasInProgress(es)
  {
  }

  /** The emitted block holds a line that is not whole if and only if the input cuts one raw. */
  lemma RawCutIff(parse: string -> Parsed, header0: string, es: seq<Todo>,
                  header: string, todos: seq<Todo>, keep: seq<bool>, p: nat, cut: nat)
    requires Fits(parse, header0, es, header, todos, keep, p, cut)
    ensures |keep| == |es| == |todos|
    ensures (exists i :: 0 <= i < |es| && keep[i] && !Whole(parse(es[i].line), es[i].line, todos[i].line)) <==>
            CutsRaw(parse, header0, es)
  {
    hide Bytes, KeptBytes, Victims, StopAt, Shrinks, Minimal, TrimmedHeader, InProgressCount, Encode, Whole, HasInProgress,
      TotalWithout, InProgressOnly;
    forall i: nat | i < |es| {
      LineWholeIff(parse, header0, es, header, todos, keep, p, cut, i);
    }
    if TotalWithout(Bytes(header0), es, Victims(es), p) <= CAP {
      EnoughDropped(header0, es, p);
    } else {
      WithoutVictims(es);
      TotalOfAll(header0, es);
      var kept := InProgressOnly(es);
      OnlyInProgress(es);
      if i: nat :| i < |es| && keep[i] && !Whole(parse(es[i].line), es[i].line, todos[i].line) {
        assert i == cut && kept[i];
        SomeInProgress(es, i);
      }
      if CutsRaw(parse, header0, es) {
        var stop := StopAt(parse, header, es, kept, 0);
        SomeInProgress(es, stop);
        assert cut == stop && keep[cut] && todos[cut] != es[cut];
      }
    }
  }

  lemma OnlyInProgress(es: seq<Todo>)
    ensures |InProgressOnly(es)| == |es| && forall i :: 0 <= i < |es| ==> (InProgressOnly(es)[i] <==> InProgress(es[i]))
  {
  }

  lemma TotalOfAll(header0: string, es: seq<Todo>)
    ensures TotalWithout(Bytes(header0), es, Victims(es), |Victims(es)|) == Bytes(header0) + KeptBytes(es, InProgressOnly(es))
  {
    WithoutVictims(es);
  }

  lemma OneLine(t: Todo)
    ensures KeptBytes([t], [true]) == Bytes(t.line) + 1 && Render([t], [true]) == "\n" + t.line
  {
    assert [t][1..] == [] && [true][1..] == [];
    assert "\n" + t.line + "" == "\n" + t.line;
  }

  lemma OneVictim(t: Todo)
    requires InProgress(t)
    ensures Victims([t]) == []
  {
    VictimsFacts([t]);
    HasZero(Victims([t]));
  }

  lemma HasZero(vs: seq<nat>)
    requires forall j :: 0 <= j < |vs| ==> vs[j] < 1
    ensures vs != [] ==> 0 in vs
  {
    if vs != [] {
      assert vs[0] == 0;
    }
  }

  lemma StopsAtOnce(parse: string -> Parsed, line: string, kept: seq<bool>)
    requires Bytes(line) > CAP && !HasText(parse(line)) && kept == [true]
    ensures var es := [Todo(line, "in_progress")];
            StopAt(parse, "", es, kept, 0) == 0 && TotalFrom("", es, kept, 0) > CAP && Room("", es, kept, 0) == 2047
  {
    hide Bytes, KeptBytes;
    OneLine(Todo(line, "in_progress"));
    assert From(kept, 0) == kept;
    Newline();
  }

  lemma NoHeader()
    ensures TrimmedHeader("", 1) == "" && Bytes("") == 0
  {
  }

  lemma OneCount(t: Todo)
    requires InProgress(t)
    ensures InProgressCount([t]) == 1 && HasInProgress([t])
  {
    assert [t][1..] == [] && InProgress([t][0]);
  }

  /** What the allocator does with one todo in progress that has no text and is longer than the cap. */
  lemma LongLineFits(parse: string -> Parsed, line: string,
                     header: string, todos: seq<Todo>, keep: seq<bool>, p: nat, cut: nat)
    requires Bytes(line) > CAP && !HasText(parse(line))
    requires Fits(parse, "", [Todo(line, "in_progress")], header, todos, keep, p, cut)
    ensures header == "" && keep == [true] && |todos| == 1
    ensures Shrinks(parse(line), line, 2047, Some(todos[0].line))
  {
    hide Bytes, KeptBytes, Victims, StopAt, Minimal, Shrinks, InProgressCount, TrimmedHeader, HasInProgress;
    var t := Todo(line, "in_progress");
    OneVictim(t);
    OneLine(t);
    OneCount(t);
    NoHeader();
    var kept := Without(All(1), []);
    assert kept == [true];
    StopsAtOnce(parse, line, kept);
    assert keep == [keep[0]];
  }

  /**
   One todo in progress, longer than the cap and without a text content: what is emitted is as much
   of it as fits 2044 bytes, and three dots.
   */
  lemma LongLineCutRaw(parse: string -> Parsed, line: string,
                       header: string, todos: seq<Todo>, keep: seq<bool>, p: nat, cut: nat)
    requires Bytes(line) > CAP && !HasText(parse(line))
    requires Fits(parse, "", [Todo(line, "in_progress")], header, todos, keep, p, cut)
    ensures |todos| == |keep|
    ensures header + Render(todos, keep) == "\n" + (line[..FloorBoundary(line, 2044)] + "...")
    ensures !EndsLikeJson(header + Render(todos, keep))
  {
    hide Fits, Shrinks, Render, Bytes, FloorBoundary, EndsLikeJson;
    LongLineFits(parse, line, header, todos, keep, p, cut);
    ShrunkWholeIff(parse(line), line, 2047, Some(todos[0].line));
    OneLine(todos[0]);
    assert todos == [todos[0]];
    assert "" + ("\n" + todos[0].line) == "\n" + todos[0].line;
    DotsAfter("\n", line[..FloorBoundary(line, 2044)]);
  }

  lemma DotsAfter(a: string, b: string)
    ensures !EndsLikeJson(a + (b + "..."))
  {
    assert (a + (b + "..."))[|a| + |b| + 2] == '.';
  }

  lemma {:induction false} StopPasses(parse: string -> Parsed, header: string, es: seq<Todo>, keep0: seq<bool>, i: nat, k: nat)
    requires |es| == |keep0| && i <= k < |es| && k < StopAt(parse, header, es, keep0, i)
    ensures TotalFrom(header, es, keep0, k) > CAP
    ensures keep0[k] ==> Minimal(parse(es[k].line)) > Room(header, es, From(keep0, k), k)
    decreases k - i
  {
    hide Minimal, Bytes, KeptBytes;
    if i < k {
      StopPasses(parse, header, es, keep0, i + 1, k);
    }
  }

  /** A todo in progress is dropped only while the block is too long and the todo cannot be shrunk into its room. */
  lemma InProgressDropNeeded(parse: string -> Parsed, header0: string, es: seq<Todo>,
                             header: string, todos: seq<Todo>, keep: seq<bool>, p: nat, cut: nat, i: nat)
    requires Fits(parse, header0, es, header, todos, keep, p, cut) && i < |es| && InProgress(es[i])
    ensures |keep| == |es|
    ensures !keep[i] ==> TotalFrom(header, es, InProgressOnly(es), i) > CAP
    ensures !keep[i] ==> Minimal(parse(es[i].line)) > Room(header, es, From(InProgressOnly(es), i), i)
  {
    hide Bytes, KeptBytes, Victims, StopAt, Shrinks, Minimal, TrimmedHeader, InProgressCount, HasInProgress, TotalWithout;
    VictimsFacts(es);
    WithoutVictims(es);
    SomeInProgress(es, i);
    InProgressSafe(es, p, i);
    if !keep[i] {
      StopPasses(parse, header, es, InProgressOnly(es), 0, i);
    }
  }

  // ------------------------------------------------------ what the header keeps

  /** The todos in progress, as indices. */
  ghost function InProgressAt(es: seq<Todo>): set<nat> { set i: nat | i < |es| && es[i].status == "in_progress" }

  lemma {:induction false} CountInProgress(es: seq<Todo>)
    ensures InProgressCount(es) == |InProgressAt(es)|
    decreases |es|
  {
    hide InProgressAt;
    if es == [] {
      NoneAt();
    } else {
      CountInProgress(es[1..]);
      FirstAt(es);
    }
  }

  lemma NoneAt()
    ensures InProgressAt([]) == {}
  {
  }

  lemma FirstAt(es: seq<Todo>)
    requires es != []
    ensures |InProgressAt(es)| == |InProgressAt(es[1..])| + if es[0].status == "in_progress" then 1 else 0
  {
    var later := InProgressAt(es) - {0};
    assert forall i: nat :: i in later <==> i > 0 && i - 1 in InProgressAt(es[1..]);
    ShiftDown(InProgressAt(es[1..]), later);
    assert InProgressAt(es) == later + if es[0].status == "in_progress" then {0} else {};
  }

  lemma {:induction false} ShiftDown(a: set<nat>, b: set<nat>)
    requires forall i: nat :: i in b <==> i > 0 && i - 1 in a
    ensures |a| == |b|
    decreases a
  {
    if i :| i in a {
      assert i + 1 in b;
      ShiftDown(a - {i}, b - {i + 1});
    } else {
      assert b == {};
    }
  }

  /** `header` is the longest character prefix of `header0` that takes at most `budget` bytes. */
  ghost predicate LongestPrefix(header0: string, budget: nat, header: string) {
    header <= header0 && Bytes(header) <= budget &&
    forall k :: |header| < k <= |header0| ==> Bytes(header0[..k]) > budget
  }

  /** That is the prefix up to the character boundary at or below the budget. */
  lemma LongestPrefixIs(header0: string, budget: nat, header: string)
    ensures LongestPrefix(header0, budget, header) <==> header == header0[..FloorBoundary(header0, budget)]
  {
    hide Bytes, FloorBoundary;
    var f := FloorBoundary(header0, budget);
    if LongestPrefix(header0, budget, header) {
      assert header == header0[..|header|];
      FloorUnique(header0, budget, |header|);
    }
    forall k | f < k <= |header0| ensures Bytes(header0[..k]) > budget {
      assert header0[..k][..f + 1] == header0[..f + 1];
      BytesPrefix(header0[..k], f + 1);
    }
  }

  /** What is emitted, by the bytes the header and the kept lines take. */
  lemma EmittedIs(out: string, header: string, todos: seq<Todo>, keep: seq<bool>)
    requires |todos| == |keep| && Emitted(out, header, todos, keep)
    ensures Bytes(header + Render(todos, keep)) <= 2048 ==> out == header + Render(todos, keep)
    ensures Bytes(header + Render(todos, keep)) > 2048 ==>
              (forall i :: 0 <= i < |keep| ==> !keep[i]) && out == header[..FloorBoundary(header, 2048)]
  {
    hide Bytes, Render, KeptBytes, FloorBoundary;
    BytesAppend(header, Render(todos, keep));
    RenderBytes(todos, keep);
    assert !SomeKept(keep, 0) ==> forall i :: 0 <= i < |keep| ==> !keep[i];
  }

  /**
   What becomes of the header.  Unless `n` todos in progress alone make the block too long it stays
   as it was; then it is cut to the bytes that leave each of them 64, and so is whole if it leaves them that.
   */
  lemma HeaderCut(parse: string -> Parsed, header0: string, es: seq<Todo>,
                  header: string, todos: seq<Todo>, keep: seq<bool>, p: nat, cut: nat)
    requires Fits(parse, header0, es, header, todos, keep, p, cut)
    ensures var n, rest := |InProgressAt(es)|, Bytes(header0) + Bytes(Render(es, InProgressOnly(es)));
            if rest <= 2048 || n == 0 then header == header0
            else LongestPrefix(header0, if 64 * n <= 2048 then 2048 - 64 * n else 0, header)
    ensures Bytes(header0) + 64 * |InProgressAt(es)| <= 2048 ==> header == header0
  {
    hide Bytes, KeptBytes, StopAt, Shrinks, Minimal, FloorBoundary, Victims;
    CountInProgress(es);
    RenderBytes(es, InProgressOnly(es));
    TotalOfAll(header0, es);
    if TotalWithout(Bytes(header0), es, Victims(es), p) <= CAP {
      EnoughDropped(header0, es, p);
    } else {
      var n := InProgressCount(es);
      if n > 0 {
        TrimmedIsLongest(header0, n);
      }
    }
  }

  lemma BudgetIs(n: nat)
    ensures HeaderBudget(n) == if 64 * n <= 2048 then 2048 - 64 * n else 0
  {
  }

  lemma TrimmedIsLongest(header0: string, n: nat)
    requires n > 0
    ensures var budget := if 64 * n <= 2048 then 2048 - 64 * n else 0;
            LongestPrefix(header0, budget, TrimmedHeader(header0, n)) &&
            (Bytes(header0) <= budget ==> TrimmedHeader(header0, n) == header0)
  {
    hide LongestPrefix, TrimmedHeader, Bytes;
    BudgetIs(n);
    TrimmedToBudget(header0, n);
  }

  lemma TrimmedToBudget(header0: string, n: nat)
    requires n > 0
    ensures LongestPrefix(header0, HeaderBudget(n), TrimmedHeader(header0, n))
    ensures Bytes(header0) <= HeaderBudget(n) ==> TrimmedHeader(header0, n) == header0
  {
    hide FloorBoundary, Bytes, HeaderBudget;
    var budget := HeaderBudget(n);
    if Bytes(header0) > budget {
      var f := FloorBoundary(header0, budget);
      forall k | f < k <= |header0| ensures Bytes(header0[..k]) > budget {
        assert header0[..k][..f + 1] == header0[..f + 1];
        BytesPrefix(header0[..k], f + 1);
      }
    }
  }

  /**
   A header that leaves the one todo in progress its reserve is kept whole, and a line with a text
   content that is too long beside it is shrunk into all the room there is.
   */
  lemma OneTodoUsesAllRoom(parse: string -> Parsed, header0: string, line: string,
                           header: string, todos: seq<Todo>, keep: seq<bool>, p: nat, cut: nat)
    requires Bytes(header0) <= 1984 && Bytes(header0) + Bytes(line) >= 2048
    requires HasText(parse(line)) && Minimal(parse(line)) <= 63
    requires Fits(parse, header0, [Todo(line, "in_progress")], header, todos, keep, p, cut)
    ensures header == header0 && keep == [true] && |todos| == 1
    ensures LongestFit(parse(line).content.value, 2047 - Bytes(header0), Some(todos[0].line))
  {
    hide Bytes, KeptBytes, Victims, StopAt, Minimal, LongestFit, HasInProgress, InProgressAt;
    var t := Todo(line, "in_progress");
    OneVictim(t);
    OneLine(t);
    OneCount(t);
    TrimmedIsLongest(header0, 1);
    var kept := Without(All(1), []);
    assert kept == [true];
    StopsHere(parse, header0, line, kept);
    assert keep == [keep[0]];
  }

  lemma StopsHere(parse: string -> Parsed, header: string, line: string, kept: seq<bool>)
    requires Bytes(header) <= 1984 && Bytes(header) + Bytes(line) >= 2048 && Minimal(parse(line)) <= 63 && kept == [true]
    ensures var es := [Todo(line, "in_progress")];
            StopAt(parse, header, es, kept, 0) == 0 && TotalFrom(header, es, kept, 0) > CAP &&
            Room(header, es, kept, 0) == 2047 - Bytes(header)
  {
    hide Bytes, KeptBytes, Minimal;
    OneLine(Todo(line, "in_progress"));
    assert From(kept, 0) == kept;
  }

  // ------------------------------------------------- lines, todos and text

  lemma {:induction false} FirstNewline(a: string, rest: string)
    requires '\n' !in a
    ensures NewlineAt(a) == |a| && NewlineAt(a + "\n" + rest) == |a|
    decreases |a|
  {
    if a == "" {
      assert a + "\n" + rest == ['\n'] + rest;
    } else {
      assert (a + "\n" + rest)[1..] == a[1..] + "\n" + rest;
      FirstNewline(a[1..], rest);
    }
  }

  /** A newline ends a line, with one carriage return before it; a last line needs no newline and keeps its carriage return. */
  lemma LinesEnd(a: string, rest: string)
    requires '\n' !in a
    ensures Lines("") == []
    ensures a != "" ==> Lines(a) == [a]
    ensures a == "" || a[|a| - 1] != '\r' ==> Lines(a + "\n" + rest) == [a] + Lines(rest)
    ensures Lines(a + "\r\n" + rest) == [a] + Lines(rest)
  {
    hide NewlineAt;
    FirstNewline(a, rest);
    assert (a + "\n" + rest)[..|a|] == a && (a + "\n" + rest)[|a| + 1..] == rest;
    var b := a + "\r";
    assert a + "\r\n" + rest == b + "\n" + rest;
    FirstNewline(b, rest);
    assert (b + "\n" + rest)[..|b|] == b && (b + "\n" + rest)[|b| + 1..] == rest;
    assert b[..|b| - 1] == a;
  }

  /** Joining undoes the splitting: the header holds the lines it was made of. */
  lemma {:induction false} JoinedLinesSplit(ls: seq<string>)
    requires forall i :: 0 <= i < |ls| ==> '\n' !in ls[i] && (ls[i] == "" || ls[i][|ls[i]| - 1] != '\r')
    requires ls != [] ==> ls[|ls| - 1] != ""
    ensures Lines(Join(ls)) == ls
    decreases |ls|
  {
    hide Lines;
    if ls == [] {
      LinesEnd("", "");
    } else if |ls| == 1 {
      LinesEnd(ls[0], "");
    } else {
      LinesEnd(ls[0], Join(ls[1..]));
      JoinedLinesSplit(ls[1..]);
    }
  }

  /** A text contains another where it stands somewhere in it. */
  lemma {:induction false} ContainsIff(s: string, pat: string)
    ensures Contains(s, pat) <==> exists i :: 0 <= i <= |s| && pat <= s[i..]
    decreases |s|
  {
    assert s[0..] == s;
    if s != [] {
      ContainsIff(s[1..], pat);
      if i :| 0 <= i <= |s[1..]| && pat <= s[1..][i..] {
        assert s[i + 1..] == s[1..][i..];
      }
      if i :| 0 <= i <= |s| && pat <= s[i..] && !(pat <= s) {
        assert s[1..][i - 1..] == s[i..];
      }
    }
  }

  lemma {:induction false} TrimStartIs(s: string) returns (i: nat)
    ensures i <= |s| && TrimStart(s) == s[i..] && forall k :: 0 <= k < i ==> IsWhitespace(s[k])
    ensures i < |s| ==> !IsWhitespace(s[i])
    decreases |s|
  {
    hide IsWhitespace;
    if s != [] && IsWhitespace(s[0]) {
      i := TrimStartIs(s[1..]);
      assert s[i + 1..] == s[1..][i..];
      assert forall k :: 0 < k < i + 1 ==> s[k] == s[1..][k - 1];
      i := i + 1;
    } else {
      i := 0;
    }
  }

  /** The first character that is not white space is an opening brace. */
  ghost predicate BraceFirst(line: string) {
    exists i :: 0 <= i < |line| && line[i] == '{' && forall k :: 0 <= k < i ==> IsWhitespace(line[k])
  }

  /** The header is the lines before the first one that opens an object. */
  lemma {:induction false} HeaderStopsAtObject(lines: seq<string>)
    ensures forall i :: 0 <= i < HeaderEnd(lines) ==> !BraceFirst(lines[i])
    ensures HeaderEnd(lines) < |lines| ==> BraceFirst(lines[HeaderEnd(lines)])
    decreases |lines|
  {
    hide TrimStart, IsWhitespace;
    if lines != [] {
      BraceIsNoSpace();
      var i := TrimStartIs(lines[0]);
      if !OpensObject(lines[0]) {
        HeaderStopsAtObject(lines[1..]);
      }
    }
  }

  lemma BraceIsNoSpace()
    ensures !IsWhitespace('{')
  {
  }

  /**
   Which lines are todos: a blank line is none, any other one is a todo of its own, pending unless
   its object has a text status, and the lines are taken in order.
   */
  lemma {:induction false} TodosLineByLine(parse: string -> Parsed, line: string, rest: seq<string>)
    ensures TodosOf(parse, []) == []
    ensures (forall i :: 0 <= i < |line| ==> IsWhitespace(line[i])) ==>
              TodosOf(parse, [line] + rest) == TodosOf(parse, rest)
    ensures (exists i :: 0 <= i < |line| && !IsWhitespace(line[i])) ==>
              var status := match parse(line) case Json(Some(text), _) => text case _ => "pending";
              TodosOf(parse, [line] + rest) == [Todo(line, status)] + TodosOf(parse, rest)
  {
    hide IsWhitespace, TrimStart;
    var i := TrimStartIs(line);
    assert ([line] + rest)[1..] == rest;
  }

  /** A text without todos that does not fit: 2036 bytes of it at most, and the marker on its own line. */
  lemma LongTextMarked(full: string)
    requires Bytes(full) > 2048
    ensures Truncated(full, 2048) == full[..FloorBoundary(full, 2036)] + "\n[truncated]"
  {
    hide Bytes, FloorBoundary, Suffix;
    Newline();
    MarkerOnItsOwnLine(full);
    assert "\n" + MARKER == "\n[truncated]";
  }

  lemma MarkerOnItsOwnLine(full: string)
    requires Bytes(full) > 2048
    ensures Suffix(full, 2048) == "\n" + MARKER
  {
    hide Bytes, FloorBoundary;
    Newline();
    FloorIsTight(full, 2048);
    assert full[..0] == "";
  }

  /** The lines of a text, one newline between each and the next; leading empty lines leave nothing. */
  lemma {:induction false} TightIsJoin(lines: seq<string>)
    requires lines != [] && lines[0] != ""
    ensures Tight([""] + lines) == Tight(lines) == Join(lines)
    decreases |lines|
  {
    TightDropsEmpty(lines);
    if |lines| == 1 {
      assert lines[..0] == [];
      assert lines == [lines[0]];
    } else {
      var init, last := lines[..|lines| - 1], lines[|lines| - 1];
      TightIsJoin(init);
      JoinLast(init, last);
      assert init + [last] == lines;
      JoinStarts(init);
    }
  }

  lemma {:induction false} TightDropsEmpty(lines: seq<string>)
    ensures Tight([""] + lines) == Tight(lines)
    decreases |lines|
  {
    if lines == [] {
      assert [""] + lines == [""];
      assert [""][..0] == [];
    } else {
      var init, last := lines[..|lines| - 1], lines[|lines| - 1];
      TightDropsEmpty(init);
      assert ([""] + lines)[..|lines|] == [""] + init;
    }
  }

  lemma JoinStarts(lines: seq<string>)
    requires lines != [] && lines[0] != ""
    ensures Join(lines) != ""
  {
  }

  lemma {:induction false} JoinLast(lines: seq<string>, last: string)
    requires lines != []
    ensures Join(lines + [last]) == Join(lines) + "\n" + last
    decreases |lines|
  {
    if |lines| == 1 {
      assert (lines + [last])[1..] == [last];
    } else {
      assert (lines + [last])[1..] == lines[1..] + [last];
      JoinLast(lines[1..], last);
    }
  }
}
