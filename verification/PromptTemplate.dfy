/**
 Filling a prompt template in two ways: replacing one marker after another in the whole
 text, and scanning the template once.  Strings are related to token lists, in which a
 marker is one token.
 */
module PromptTemplate {
  import opened Wrappers

  /** Markers in the order in which `assemble` replaces them; the last is the instructions. */
  type Marker = m: nat | m < 8 witness 0

  const SLOTS: nat := 7
  const INSTRUCTIONS: Marker := 7
  const ENVIRONMENT: Marker := 2
  const AFTER_INSTRUCTIONS: Marker := 6

  function Name(m: Marker): string {
    if m == 0 then "identity" else if m == 1 then "tone" else if m == 2 then "environment"
    else if m == 3 then "tool_usage" else if m == 4 then "efficient_tools" else if m == 5 then "conventions"
    else if m == 6 then "after_instructions" else "instructions"
  }

  function MarkerText(m: Marker): (t: string)
    ensures |t| >= 4
  {
    "{{" + Name(m) + "}}"
  }

  predicate Plain(s: string) { '{' !in s && '}' !in s }

  lemma NameShape(m: Marker)
    ensures |Name(m)| == [8, 4, 11, 10, 15, 11, 18, 12][m] && Plain(Name(m))
  {
  }

  lemma NamesDistinct(m: Marker, n: Marker)
    ensures Name(m) == Name(n) <==> m == n
    ensures Plain(Name(m)) && Name(m) != ""
  {
    NameShape(m);
    NameShape(n);
    assert Name(2)[0] == 'e' && Name(5)[0] == 'c';
    hide Name;
  }

  /** At most one marker starts at a position: its name ends at the first closing brace. */
  lemma MarkerUnique(s: string, m: Marker, n: Marker)
    requires MarkerText(m) <= s && MarkerText(n) <= s
    ensures m == n
  {
    NameLength(s, m, n);
    NameLength(s, n, m);
    NamesDistinct(m, n);
    assert forall k :: 0 <= k < |Name(m)| ==> Name(m)[k] == MarkerText(m)[2 + k] == s[2 + k];
    assert forall k :: 0 <= k < |Name(n)| ==> Name(n)[k] == MarkerText(n)[2 + k] == s[2 + k];
    assert Name(m) == Name(n);
  }

  lemma NameLength(s: string, m: Marker, n: Marker)
    requires MarkerText(m) <= s && MarkerText(n) <= s
    ensures |Name(m)| >= |Name(n)|
  {
    NamesDistinct(n, m);
    assert s[2 + |Name(m)|] == MarkerText(m)[2 + |Name(m)|] == '}';
    assert forall k :: 0 <= k < |Name(n)| ==> s[2 + k] == MarkerText(n)[2 + k] == Name(n)[k] != '}';
  }

  lemma OtherMarker(s: string, m: Marker, n: Marker)
    requires MarkerText(n) <= s && m != n
    ensures !(MarkerText(m) <= s)
  {
    if MarkerText(m) <= s {
      MarkerUnique(s, m, n);
    }
  }

  /** No marker starts strictly inside a marker. */
  lemma NoMarkerInside(m: Marker, rest: string, k: nat, n: Marker)
    requires 0 < k < |MarkerText(m)|
    ensures !(MarkerText(n) <= (MarkerText(m) + rest)[k..])
  {
    NamesDistinct(m, m);
    var t := MarkerText(m);
    var s := (t + rest)[k..];
    assert t[2] == Name(m)[0];
    assert k > 1 ==> t[k] == (if k - 2 < |Name(m)| then Name(m)[k - 2] else '}');
    assert s[0] == t[k];
    assert k == 1 ==> s[1] == t[2];
    assert MarkerText(n)[0] == MarkerText(n)[1] == '{';
  }

  /** The markers as they stand in a template: the slots whose content may be set once. */
  lemma SingletonMarkers()
    ensures MarkerText(0) == "{{identity}}" && MarkerText(1) == "{{tone}}" && MarkerText(2) == "{{environment}}"
  {
  }

  /** The slots whose content is gathered. */
  lemma AggregateMarkers()
    ensures MarkerText(3) == "{{tool_usage}}" && MarkerText(4) == "{{efficient_tools}}"
  {
  }

  lemma LaterMarkers()
    ensures MarkerText(5) == "{{conventions}}" && MarkerText(6) == "{{after_instructions}}"
  {
  }

  lemma InstructionsMarker()
    ensures MarkerText(INSTRUCTIONS) == "{{instructions}}"
  {
  }

  // -------------------------------------------------------------- strings

  /** `str::replace`: leftmost, non-overlapping. */
  function Replace(s: string, pat: string, rep: string): string
    requires pat != ""
    decreases |s|
  {
    if s == [] then []
    else if pat <= s then rep + Replace(s[|pat|..], pat, rep)
    else [s[0]] + Replace(s[1..], pat, rep)
  }

  /** A text in which the pattern does not stand is left as it is. */
  lemma {:induction false} ReplaceNothing(s: string, pat: string, rep: string)
    requires pat != "" && forall i :: 0 <= i <= |s| ==> !(pat <= s[i..])
    ensures Replace(s, pat, rep) == s
    decreases |s|
  {
    if s != [] {
      assert s[0..] == s;
      forall i | 0 <= i <= |s[1..]| ensures !(pat <= s[1..][i..]) {
        assert s[1..][i..] == s[i + 1..];
      }
      ReplaceNothing(s[1..], pat, rep);
    }
  }

  lemma ReplaceMissed(s: string, pat: string, rep: string)
    requires pat != "" && s != "" && !(pat <= s)
    ensures Replace(s, pat, rep) == [s[0]] + Replace(s[1..], pat, rep)
  {
  }

  /** The leftmost place where the pattern stands is replaced, and the search goes on behind it. */
  lemma {:induction false} ReplaceLeftmost(a: string, b: string, pat: string, rep: string)
    requires pat != "" && forall i :: 0 <= i < |a| ==> !(pat <= (a + pat + b)[i..])
    ensures Replace(a + pat + b, pat, rep) == a + rep + Replace(b, pat, rep)
    decreases |a|
  {
    var s := a + pat + b;
    if a == "" {
      assert s == pat + b;
      ReplacePrefix(pat, b, rep);
      assert "" + rep == rep;
    } else {
      hide Replace;
      assert s[0..] == s;
      ReplaceMissed(s, pat, rep);
      assert s[1..] == a[1..] + pat + b;
      forall i | 0 <= i < |a[1..]| ensures !(pat <= s[1..][i..]) {
        assert s[1..][i..] == s[i + 1..];
      }
      ReplaceLeftmost(a[1..], b, pat, rep);
      assert a == [a[0]] + a[1..];
    }
  }

  function FillMarker(template: string, m: Marker, content: string): string {
    if content == "" then Replace(Replace(template, MarkerText(m) + "\n", ""), MarkerText(m), "")
    else Replace(template, MarkerText(m), content)
  }

  /** The text after the first `j` slots have been filled. */
  function Filled(template: string, content: Marker -> string, j: nat): string
    requires j <= SLOTS
  {
    if j == 0 then template else FillMarker(Filled(template, content, j - 1), j - 1, content(j - 1))
  }

  method Assemble(template: string, content: Marker -> string) returns (out: string)
    ensures out == Replace(Filled(template, content, SLOTS), MarkerText(INSTRUCTIONS), content(INSTRUCTIONS))
  {
    out := template;
    for slot := 0 to SLOTS
      invariant out == Filled(template, content, slot)
    {
      out := FillMarker(out, slot, content(slot));
    }
    out := Replace(out, MarkerText(INSTRUCTIONS), content(INSTRUCTIONS));
  }

  // --------------------------------------------------------------- tokens

  datatype Tok = Ch(c: char) | Mk(m: Marker)

  function TextOf(t: Tok): string { if t.Ch? then [t.c] else MarkerText(t.m) }

  function Text(toks: seq<Tok>): string {
    if toks == [] then "" else TextOf(toks[0]) + Text(toks[1..])
  }

  function Chars(s: string): seq<Tok> { seq(|s|, i requires 0 <= i < |s| => Ch(s[i])) }

  function FindMarker(s: string, n: nat): (r: Option<Marker>)
    requires n <= 8
    ensures r.Some? ==> MarkerText(r.value) <= s
    ensures r.None? ==> forall m: Marker :: m < n ==> !(MarkerText(m) <= s)
  {
    if n == 0 then None else if MarkerText(n - 1) <= s then Some(n - 1) else FindMarker(s, n - 1)
  }

  function MarkerAt(s: string): Option<Marker> { FindMarker(s, 8) }

  function Tokens(s: string): seq<Tok>
    decreases |s|
  {
    if s == [] then []
    else
      var m := MarkerAt(s);
      if m.Some? then [Mk(m.value)] + Tokens(s[|MarkerText(m.value)|..]) else [Ch(s[0])] + Tokens(s[1..])
  }

  lemma {:induction false} TextOfTokens(s: string)
    ensures Text(Tokens(s)) == s
    decreases |s|
  {
    if s != [] {
      var m := MarkerAt(s);
      if m.Some? {
        TextOfTokens(s[|MarkerText(m.value)|..]);
      } else {
        TextOfTokens(s[1..]);
      }
    }
  }

  /** The text shows no marker but the marker tokens: nothing substituted so far made one. */
  ghost predicate Faithful(toks: seq<Tok>) { Tokens(Text(toks)) == toks }

  lemma FaithfulTail(toks: seq<Tok>)
    requires Faithful(toks) && toks != []
    ensures Faithful(toks[1..])
    ensures toks[0].Mk? ==> MarkerText(toks[0].m) <= Text(toks)
    ensures toks[0].Ch? ==> forall m: Marker :: !(MarkerText(m) <= Text(toks))
    ensures Text(toks) == TextOf(toks[0]) + Text(toks[1..])
  {
    var s := Text(toks);
    var head := TextOf(toks[0]);
    assert s[|head|..] == Text(toks[1..]);
    if toks[0].Mk? {
      assert MarkerAt(s).Some?;
      assert Tokens(s)[0] == Mk(MarkerAt(s).value);
      assert Tokens(s)[1..] == Tokens(s[|head|..]);
    } else {
      assert MarkerAt(s).None?;
      assert Tokens(s)[1..] == Tokens(s[1..]);
    }
  }

  /** Replacing a marker, or a marker with its newline, on tokens. */
  function Sub(toks: seq<Tok>, m: Marker, rep: string, nl: bool): seq<Tok>
    decreases |toks|
  {
    if toks == [] then []
    else if toks[0] == Mk(m) && !nl then Chars(rep) + Sub(toks[1..], m, rep, nl)
    else if toks[0] == Mk(m) && |toks| > 1 && toks[1] == Ch('\n') then Chars(rep) + Sub(toks[2..], m, rep, nl)
    else [toks[0]] + Sub(toks[1..], m, rep, nl)
  }

  lemma {:induction false} TextAppend(a: seq<Tok>, b: seq<Tok>)
    ensures Text(a + b) == Text(a) + Text(b)
    decreases |a|
  {
    if a == [] {
      assert a + b == b;
    } else {
      assert (a + b)[1..] == a[1..] + b;
      TextAppend(a[1..], b);
    }
  }

  lemma {:induction false} TextOfChars(s: string)
    ensures Text(Chars(s)) == s
  {
    if s != [] {
      assert Chars(s)[1..] == Chars(s[1..]);
      TextOfChars(s[1..]);
    }
  }

  function Pattern(m: Marker, nl: bool): (p: string)
    ensures p != ""
  {
    MarkerText(m) + if nl then "\n" else ""
  }

  /** Replacement walks past a marker it does not match as a whole. */
  lemma {:induction false} SkipMarker(n: Marker, rest: string, k: nat, m: Marker, nl: bool, rep: string)
    requires k <= |MarkerText(n)|
    requires k == 0 ==> !(Pattern(m, nl) <= MarkerText(n) + rest)
    ensures Replace((MarkerText(n) + rest)[k..], Pattern(m, nl), rep)
            == MarkerText(n)[k..] + Replace(rest, Pattern(m, nl), rep)
    decreases |MarkerText(n)| - k
  {
    hide MarkerText, Name, Replace;
    var t := MarkerText(n);
    var s := t + rest;
    if k == |t| {
      assert s[k..] == rest;
    } else {
      SkipChar(n, rest, k, m, nl, rep);
      SkipMarker(n, rest, k + 1, m, nl, rep);
      assert t[k..] == [t[k]] + t[k + 1..];
    }
  }

  lemma SkipChar(n: Marker, rest: string, k: nat, m: Marker, nl: bool, rep: string)
    requires k < |MarkerText(n)|
    requires k == 0 ==> !(Pattern(m, nl) <= MarkerText(n) + rest)
    ensures var s := MarkerText(n) + rest;
            Replace(s[k..], Pattern(m, nl), rep) == [MarkerText(n)[k]] + Replace(s[k + 1..], Pattern(m, nl), rep)
  {
    hide MarkerText, Name;
    var s := MarkerText(n) + rest;
    if k > 0 {
      NoMarkerInside(n, rest, k, m);
      assert MarkerText(m) <= Pattern(m, nl);
    } else {
      assert s[0..] == s;
    }
    assert s[k..][1..] == s[k + 1..];
  }

  /** String replacement does what token replacement does, as long as the text is faithful. */
  lemma {:induction false} ReplaceTokens(toks: seq<Tok>, m: Marker, rep: string, nl: bool)
    requires Faithful(toks)
    ensures Replace(Text(toks), Pattern(m, nl), rep) == Text(Sub(toks, m, rep, nl))
    decreases |toks|
  {
    if toks != [] {
      FaithfulTail(toks);
      if toks[0] == Mk(m) && (!nl || (|toks| > 1 && toks[1] == Ch('\n'))) {
        var n := if nl then 2 else 1;
        if nl {
          FaithfulTail(toks[1..]);
          assert toks[1..][1..] == toks[2..];
        }
        ReplaceTokens(toks[n..], m, rep, nl);
        ReplaceHit(toks, m, rep, nl);
      } else {
        ReplaceTokens(toks[1..], m, rep, nl);
        ReplaceMiss(toks, m, rep, nl);
      }
    }
  }

  lemma ReplacePrefix(pat: string, rest: string, rep: string)
    requires pat != ""
    ensures Replace(pat + rest, pat, rep) == rep + Replace(rest, pat, rep)
  {
    assert (pat + rest)[|pat|..] == rest;
  }

  lemma Regroup(a: string, b: string, c: string)
    ensures a + (b + c) == (a + b) + c
  {
  }

  lemma TextHit(toks: seq<Tok>, m: Marker, nl: bool)
    requires toks != [] && toks[0] == Mk(m) && (nl ==> |toks| > 1 && toks[1] == Ch('\n'))
    ensures Text(toks) == Pattern(m, nl) + Text(toks[if nl then 2 else 1..])
  {
    var next := if nl then "\n" else "";
    var tail := Text(toks[if nl then 2 else 1..]);
    assert Text(toks[1..]) == next + tail by {
      assert nl ==> toks[1..][1..] == toks[2..];
    }
    Regroup(MarkerText(m), next, tail);
  }

  lemma ReplaceHit(toks: seq<Tok>, m: Marker, rep: string, nl: bool)
    requires toks != [] && toks[0] == Mk(m) && (nl ==> |toks| > 1 && toks[1] == Ch('\n'))
    ensures var rest := toks[if nl then 2 else 1..];
            Replace(Text(toks), Pattern(m, nl), rep) == rep + Replace(Text(rest), Pattern(m, nl), rep) &&
            Text(Sub(toks, m, rep, nl)) == rep + Text(Sub(rest, m, rep, nl))
  {
    var rest := toks[if nl then 2 else 1..];
    TextHit(toks, m, nl);
    ReplacePrefix(Pattern(m, nl), Text(rest), rep);
    var chars, more := Chars(rep), Sub(rest, m, rep, nl);
    assert Sub(toks, m, rep, nl) == chars + more;
    TextOfChars(rep);
    TextAppend(chars, more);
  }

  lemma ReplaceMiss(toks: seq<Tok>, m: Marker, rep: string, nl: bool)
    requires toks != [] && Faithful(toks)
    requires !(toks[0] == Mk(m) && (nl ==> |toks| > 1 && toks[1] == Ch('\n')))
    ensures Replace(Text(toks), Pattern(m, nl), rep)
            == TextOf(toks[0]) + Replace(Text(toks[1..]), Pattern(m, nl), rep)
    ensures Text(Sub(toks, m, rep, nl)) == TextOf(toks[0]) + Text(Sub(toks[1..], m, rep, nl))
  {
    FaithfulTail(toks);
    var s, rest, pat := Text(toks), Text(toks[1..]), Pattern(m, nl);
    assert MarkerText(m) <= pat;
    assert Sub(toks, m, rep, nl) == [toks[0]] + Sub(toks[1..], m, rep, nl);
    if toks[0].Mk? {
      var n := toks[0].m;
      if n != m {
        OtherMarker(s, m, n);
      } else {
        HeadNewline(toks[1..]);
        assert rest != "" ==> s[|MarkerText(m)|] == rest[0];
        assert !(pat <= s);
      }
      SkipMarker(n, rest, 0, m, nl, rep);
      assert (MarkerText(n) + rest)[0..] == s && MarkerText(n)[0..] == MarkerText(n);
    } else {
      assert s[1..] == rest;
    }
  }

  /** Text starts with a newline exactly when its first token is one. */
  lemma HeadNewline(toks: seq<Tok>)
    ensures Text(toks) != "" && Text(toks)[0] == '\n' <==> toks != [] && toks[0] == Ch('\n')
  {
  }
}
