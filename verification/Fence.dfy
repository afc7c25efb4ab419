/** Fencing tool output as a Markdown code block, read back per section 4.5 of CommonMark 0.31. */
module Fence {
  const MIN_FENCE_LEN: nat := 3

  function Max(a: nat, b: nat): nat { if a >= b then a else b }

  /** `split` at every character that is not a backtick. */
  function Pieces(s: string): (p: seq<string>)
    ensures p != []
  {
    if s == "" then [""]
    else
      var p := Pieces(s[1..]);
      if s[0] != '`' then [""] + p else ["`" + p[0]] + p[1..]
  }

  function Longest(pieces: seq<string>): nat {
    if pieces == [] then 0 else Max(|pieces[0]|, Longest(pieces[1..]))
  }

  function Ticks(n: nat): string { seq(n, _ => '`') }

  function FenceFor(text: string): string { Ticks(Max(MIN_FENCE_LEN, Longest(Pieces(text)) + 1)) }

  /** `fenced`. */
  function Fenced(text: string): string { FenceFor(text) + "\n" + text + "\n" + FenceFor(text) }

  // ---------------------------------------------------------------- reading

  /** How many backticks the text begins with. */
  function Leading(s: string): (n: nat)
    ensures n <= |s| && (forall i :: 0 <= i < n ==> s[i] == '`') && (n < |s| ==> s[n] != '`')
  {
    if s == "" || s[0] != '`' then 0 else 1 + Leading(s[1..])
  }

  function Indent(s: string): (n: nat)
    ensures n <= |s|
  {
    if s == "" || s[0] != ' ' then 0 else 1 + Indent(s[1..])
  }

  predicate Blank(s: string) { forall i :: 0 <= i < |s| ==> s[i] == ' ' || s[i] == '\t' }

  /** A line that closes a fence of `n` backticks: at most three spaces, as many backticks, then only blanks. */
  predicate Closes(line: string, n: nat) {
    var i := Indent(line);
    i <= 3 && Leading(line[i..]) >= n && Blank(line[i + Leading(line[i..])..])
  }

  /** Where the first line ends: at a newline, a carriage return, or the end. */
  function LineEnd(s: string): (n: nat)
    ensures n <= |s| && (forall i :: 0 <= i < n ==> s[i] != '\n' && s[i] != '\r')
    ensures n < |s| ==> s[n] == '\n' || s[n] == '\r'
  {
    if s == "" || s[0] == '\n' || s[0] == '\r' then 0 else 1 + LineEnd(s[1..])
  }

  /** The length of the first line with its line ending; a carriage return and a newline are one. */
  function LineLength(s: string): (n: nat)
    ensures n <= |s| && (s != "" ==> n > 0)
  {
    var e := LineEnd(s);
    if e == |s| then e
    else if s[e] == '\r' && e + 1 < |s| && s[e + 1] == '\n' then e + 2 else e + 1
  }

  /** The content of an open block, whether a fence closed it, and what follows. */
  datatype Block = Block(content: string, closed: bool, rest: string)

  function ReadBlock(s: string, n: nat): Block
    decreases |s|
  {
    if s == "" then Block("", false, "")
    else if Closes(s[..LineEnd(s)], n) then Block("", true, s[LineLength(s)..])
    else
      var b := ReadBlock(s[LineLength(s)..], n);
      b.(content := s[..LineLength(s)] + b.content)
  }

  datatype Parsed = NotFenced | Code(info: string, block: Block)

  /** A document that begins with a backtick fence; its info string holds no backtick. */
  function Parse(doc: string): Parsed {
    var n := Leading(doc);
    var info := doc[n..][..LineEnd(doc[n..])];
    if n < MIN_FENCE_LEN || '`' in info then NotFenced
    else Code(info, ReadBlock(doc[n..][LineLength(doc[n..])..], n))
  }

  // --------------------------------------------------- no run is long enough

  lemma {:induction false} FirstPiece(s: string)
    ensures |Pieces(s)[0]| == Leading(s)
    decreases |s|
  {
    if s != "" && s[0] == '`' {
      FirstPiece(s[1..]);
    }
  }

  lemma LongestTail(s: string)
    requires s != ""
    ensures Longest(Pieces(s)) >= Longest(Pieces(s[1..])) && Longest(Pieces(s)) >= |Pieces(s)[0]|
  {
    var p := Pieces(s[1..]);
    if s[0] != '`' {
      assert ([""] + p)[1..] == p;
    } else {
      assert (["`" + p[0]] + p[1..])[1..] == p[1..];
    }
  }

  /** Every run of backticks in the text is at most the longest piece. */
  lemma {:induction false} RunsAreShort(s: string, i: nat)
    requires i <= |s|
    ensures Leading(s[i..]) <= Longest(Pieces(s))
    decreases i
  {
    hide Pieces, Longest, Leading;
    if i == 0 {
      assert s[0..] == s;
      FirstPiece(s);
      LongestOfFirst(s);
    } else {
      LongestTail(s);
      RunsAreShort(s[1..], i - 1);
      assert s[1..][i - 1..] == s[i..];
    }
  }

  lemma LongestOfFirst(s: string)
    ensures Longest(Pieces(s)) >= |Pieces(s)[0]|
  {
  }

  /** Every stretch of `n` backticks has length below the fence. */
  ghost predicate Short(s: string, n: nat) { forall i :: 0 <= i <= |s| ==> Leading(s[i..]) < n }

  lemma FenceIsLonger(text: string)
    ensures Short(text, |FenceFor(text)|) && |FenceFor(text)| >= 3
  {
    hide Longest, Pieces, Leading;
    forall i | 0 <= i <= |text| ensures Leading(text[i..]) < |FenceFor(text)| {
      RunsAreShort(text, i);
    }
  }

  lemma LongestParts(s: string)
    requires s != ""
    ensures Longest(Pieces(s)) == Max(Leading(s), Longest(Pieces(s[1..])))
  {
    FirstPiece(s);
    var p := Pieces(s[1..]);
    if s[0] != '`' {
      assert ([""] + p)[1..] == p;
    } else {
      FirstPiece(s[1..]);
      assert (["`" + p[0]] + p[1..])[1..] == p[1..];
    }
  }

  /** Some run is as long as the longest piece. */
  lemma {:induction false} RunReached(s: string) returns (i: nat)
    ensures i <= |s| && Leading(s[i..]) == Longest(Pieces(s))
    decreases |s|
  {
    if s == "" {
      i := 0;
    } else {
      hide Pieces, Longest, Leading;
      LongestParts(s);
      if Leading(s) == Longest(Pieces(s)) {
        i := 0;
        assert s[0..] == s;
      } else {
        i := RunReached(s[1..]);
        assert s[1..][i..] == s[i + 1..];
        i := i + 1;
      }
    }
  }

  /** The fence is backticks only, and no longer than it must be: three, or one more than some run in the text. */
  lemma FenceIsShortest(text: string)
    ensures forall i :: 0 <= i < |FenceFor(text)| ==> FenceFor(text)[i] == '`'
    ensures |FenceFor(text)| == 3 || exists i :: 0 <= i <= |text| && Leading(text[i..]) == |FenceFor(text)| - 1
  {
    hide Pieces, Longest, Leading;
    var i := RunReached(text);
  }

  lemma ShortSuffix(s: string, n: nat, k: nat)
    requires Short(s, n) && k <= |s|
    ensures Short(s[k..], n)
  {
    hide Leading;
    forall i | 0 <= i <= |s[k..]| ensures Leading(s[k..][i..]) < n {
      assert s[k..][i..] == s[k + i..];
    }
  }

  lemma {:induction false} LeadingPrefix(s: string, k: nat)
    requires k <= |s|
    ensures Leading(s[..k]) <= Leading(s)
    decreases |s|
  {
    if k > 0 && s[0] == '`' {
      assert s[..k][1..] == s[1..][..k - 1];
      LeadingPrefix(s[1..], k - 1);
    }
  }

  /** No line of such a text closes the fence. */
  lemma NoLineCloses(s: string, n: nat, k: nat)
    requires Short(s, n) && k <= |s|
    ensures !Closes(s[..k], n)
  {
    hide Leading;
    var line := s[..k];
    var i := Indent(line);
    assert line[i..] == s[i..][..k - i];
    LeadingPrefix(s[i..], k - i);
    assert Leading(s[i..]) < n;
  }

  // ------------------------------------------------------------- round trip

  lemma {:induction false} TicksLead(n: nat, rest: string)
    requires rest == "" || rest[0] != '`'
    ensures Leading(Ticks(n) + rest) == n
    decreases n
  {
    if n == 0 {
      assert Ticks(0) + rest == rest;
    } else {
      assert (Ticks(n) + rest)[1..] == Ticks(n - 1) + rest;
      TicksLead(n - 1, rest);
    }
  }

  lemma {:induction false} LineOf(t: string, rest: string)
    requires rest == "" || rest[0] == '\n'
    ensures LineEnd(t + rest) == LineEnd(t)
    decreases |t|
  {
    if t == "" {
      assert t + rest == rest;
    } else {
      assert (t + rest)[0] == t[0] && (t + rest)[1..] == t[1..] + rest;
      if t[0] != '\n' && t[0] != '\r' {
        LineOf(t[1..], rest);
      }
    }
  }

  lemma TicksHaveNoLine(n: nat)
    ensures LineEnd(Ticks(n)) == n
  {
    assert forall i :: 0 <= i < |Ticks(n)| ==> Ticks(n)[i] == '`';
  }

  lemma LastLineCloses(n: nat)
    requires n >= MIN_FENCE_LEN
    ensures ReadBlock(Ticks(n), n) == Block("", true, "")
  {
    hide Leading;
    var s := Ticks(n);
    TicksHaveNoLine(n);
    assert s[..n] == s && s[n..] == "";
    assert s[0] == '`' && Indent(s) == 0 && s[0..] == s;
    TicksLead(n, "");
    assert s + "" == s;
  }

  /** From any line start within the text, the block runs to the closing fence. */
  lemma {:induction false} BlockIsText(t: string, n: nat)
    requires Short(t, n) && n >= MIN_FENCE_LEN
    ensures ReadBlock(t + "\n" + Ticks(n), n) == Block(t + "\n", true, "")
    decreases |t|
  {
    hide Closes, Short, Ticks, Indent, Leading, LineLength, LineEnd, ReadBlock;
    var tail := "\n" + Ticks(n);
    var s := t + tail;
    assert t + "\n" + Ticks(n) == s;
    var l := LineLength(s);
    FirstLine(t, Ticks(n));
    NoLineCloses(t, n, LineEnd(s));
    ReadLine(s, n);
    if l <= |t| {
      ShortSuffix(t, n, l);
      BlockIsText(t[l..], n);
      assert t[l..] + "\n" + Ticks(n) == t[l..] + tail;
      assert t[..l] + (t[l..] + "\n") == t + "\n";
    } else {
      LastLineCloses(n);
      assert t + "\n" + "" == t + "\n";
    }
  }

  lemma ReadLine(s: string, n: nat)
    requires s != "" && !Closes(s[..LineEnd(s)], n)
    ensures var b := ReadBlock(s[LineLength(s)..], n);
            ReadBlock(s, n) == Block(s[..LineLength(s)] + b.content, b.closed, b.rest)
  {
    hide Closes, LineLength, LineEnd;
  }

  /** The first line is within the text, or takes the newline after it. */
  lemma FirstLine(t: string, fence: string)
    ensures var s := t + ("\n" + fence);
            LineEnd(s) <= |t| && s[..LineEnd(s)] == t[..LineEnd(s)] && LineLength(s) <= |t| + 1
    ensures var s := t + ("\n" + fence);
            LineLength(s) <= |t| ==> s[..LineLength(s)] == t[..LineLength(s)] &&
                                     s[LineLength(s)..] == t[LineLength(s)..] + ("\n" + fence)
    ensures var s := t + ("\n" + fence);
            LineLength(s) == |t| + 1 ==> s[..LineLength(s)] == t + "\n" && s[LineLength(s)..] == fence
  {
    var tail := "\n" + fence;
    var s := t + tail;
    LineOf(t, tail);
    hide LineEnd;
    assert s[|t|] == '\n';
    Slices(t, tail, LineEnd(s));
    var l := LineLength(s);
    if l <= |t| {
      Slices(t, tail, l);
    } else {
      assert s[..|t| + 1] == t + "\n" && s[|t| + 1..] == fence;
    }
  }

  lemma Slices(t: string, tail: string, l: nat)
    requires l <= |t|
    ensures (t + tail)[..l] == t[..l] && (t + tail)[l..] == t[l..] + tail
  {
  }

  /** Reading a fenced text gives it back with a final newline, and the block ends at the final fence. */
  lemma FencedRoundTrip(text: string)
    ensures Parse(Fenced(text)) == Code("", Block(text + "\n", true, ""))
  {
    hide Closes, Leading, ReadBlock, Longest, Pieces;
    var n := |FenceFor(text)|;
    FenceIsLonger(text);
    var fence := Ticks(n);
    assert fence == FenceFor(text);
    var rest := "\n" + text + "\n" + fence;
    assert Fenced(text) == fence + rest;
    TicksLead(n, rest);
    assert (fence + rest)[n..] == rest;
    assert LineEnd(rest) == 0 && LineLength(rest) == 1 && rest[..0] == "";
    assert rest[1..] == text + "\n" + fence;
    BlockIsText(text, n);
  }

  // -------------------------------------------------------- what a fence is

  /** Spaces, backticks and blanks, in that order, make up the whole line. */
  ghost predicate FenceLine(line: string, i: nat, k: nat) {
    && i + k <= |line|
    && (forall j :: 0 <= j < i ==> line[j] == ' ')
    && (forall j :: i <= j < i + k ==> line[j] == '`')
    && (forall j :: i + k <= j < |line| ==> line[j] in " \t")
  }

  lemma {:induction false} IndentIs(s: string, i: nat)
    requires i <= |s| && (forall j :: 0 <= j < i ==> s[j] == ' ') && (i < |s| ==> s[i] != ' ')
    ensures Indent(s) == i
    decreases i
  {
    if i > 0 {
      IndentIs(s[1..], i - 1);
    }
  }

  lemma {:induction false} IndentSpaces(s: string)
    ensures forall j :: 0 <= j < Indent(s) ==> s[j] == ' '
    decreases |s|
  {
    if s != "" && s[0] == ' ' {
      IndentSpaces(s[1..]);
      assert forall j :: 0 < j < Indent(s) ==> s[j] == s[1..][j - 1];
    }
  }

  lemma {:induction false} LeadingIs(s: string, k: nat)
    requires k <= |s| && (forall j :: 0 <= j < k ==> s[j] == '`') && (k < |s| ==> s[k] != '`')
    ensures Leading(s) == k
    decreases k
  {
    if k > 0 {
      LeadingIs(s[1..], k - 1);
    }
  }

  /** A closing fence has at most three spaces in front, at least as many backticks as the opening one, and only blanks behind. */
  lemma ClosesIff(line: string, n: nat)
    requires n > 0
    ensures Closes(line, n) <==> exists i, k :: 0 <= i <= 3 && n <= k && FenceLine(line, i, k)
  {
    hide Indent, Leading;
    if Closes(line, n) {
      var i := Indent(line);
      var k := Leading(line[i..]);
      IndentSpaces(line);
      assert forall j :: i <= j < i + k ==> line[j] == line[i..][j - i];
      assert forall j :: i + k <= j < |line| ==> line[j] == line[i + k..][j - i - k];
      assert FenceLine(line, i, k);
    }
    if i, k :| 0 <= i <= 3 && n <= k && FenceLine(line, i, k) {
      IndentIs(line, i);
      LeadingIs(line[i..], k);
    }
  }

  lemma {:induction false} NoLineEnd(t: string, rest: string)
    requires '\n' !in t && '\r' !in t && (rest == "" || rest[0] == '\n' || rest[0] == '\r')
    ensures LineEnd(t + rest) == |t|
    decreases |t|
  {
    if t == "" {
      assert t + rest == rest;
    } else {
      assert (t + rest)[0] == t[0] && (t + rest)[1..] == t[1..] + rest;
      NoLineEnd(t[1..], rest);
    }
  }

  /** The three line endings, and the end of the document. */
  lemma LineEndings(t: string, rest: string)
    requires '\n' !in t && '\r' !in t
    ensures LineLength(t) == |t| && LineLength(t + "\n" + rest) == |t| + 1 && LineLength(t + "\r\n" + rest) == |t| + 2
    ensures rest == "" || rest[0] != '\n' ==> LineLength(t + "\r" + rest) == |t| + 1
  {
    hide LineEnd;
    NoLineEnd(t, "");
    assert t + "" == t;
    NoLineEnd(t, "\n" + rest);
    assert t + "\n" + rest == t + ("\n" + rest);
    NoLineEnd(t, "\r\n" + rest);
    assert t + "\r\n" + rest == t + ("\r\n" + rest);
    NoLineEnd(t, "\r" + rest);
    assert t + "\r" + rest == t + ("\r" + rest);
  }

  /** Fewer than three backticks open no block, nor does a line with another backtick in it; an unclosed block runs to the end. */
  lemma NoFence(doc: string, n: nat)
    ensures Leading(doc) < 3 ==> Parse(doc).NotFenced?
    ensures '`' in doc[Leading(doc)..][..LineEnd(doc[Leading(doc)..])] ==> Parse(doc).NotFenced?
    ensures ReadBlock("", n) == Block("", false, "")
  {
  }
}
