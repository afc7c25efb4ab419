/** Escaping for SQL `LIKE` patterns and for FTS5 queries, each against the reader it is meant for. */
module SqlText {
  import opened Wrappers
  import opened Chars

  /** `str::replace` of one character. */
  function Replace(s: string, c: char, w: string): string {
    if s == "" then "" else (if s[0] == c then w else [s[0]]) + Replace(s[1..], c, w)
  }

  lemma {:induction false} ReplaceAppend(a: string, b: string, c: char, w: string)
    ensures Replace(a + b, c, w) == Replace(a, c, w) + Replace(b, c, w)
    decreases |a|
  {
    if a == "" {
      assert a + b == b;
    } else {
      assert (a + b)[1..] == a[1..] + b;
      ReplaceAppend(a[1..], b, c, w);
      var head := if a[0] == c then w else [a[0]];
      assert head + (Replace(a[1..], c, w) + Replace(b, c, w)) == (head + Replace(a[1..], c, w)) + Replace(b, c, w);
    }
  }

  // ------------------------------------------------------------------- LIKE

  function Escaped(s: string): string {
    Replace(Replace(Replace(s, '\\', "\\\\"), '%', "\\%"), '_', "\\_")
  }

  /** `like_pattern`. */
  function LikePattern(s: string): string { "%" + Escaped(s) + "%" }

  predicate IsSpecial(c: char) { c == '\\' || c == '%' || c == '_' }

  /** One pass: a backslash before each special character. */
  function EscapeEach(s: string): string {
    if s == "" then "" else (if IsSpecial(s[0]) then ['\\', s[0]] else [s[0]]) + EscapeEach(s[1..])
  }

  lemma ReplaceOne(c: char, from: char, w: string)
    ensures Replace([c], from, w) == if c == from then w else [c]
  {
    assert [c][1..] == "" && Replace("", from, w) == "";
    assert w + "" == w && [c] + "" == [c];
  }

  lemma EscapedOne(c: char)
    ensures Escaped([c]) == if IsSpecial(c) then ['\\', c] else [c]
  {
    hide Replace;
    ReplaceOne(c, '\\', "\\\\");
    var once := if c == '\\' then "\\\\" else [c];
    if c == '\\' {
      ReplaceTwo('\\', '\\', '%', "\\%");
      ReplaceTwo('\\', '\\', '_', "\\_");
    } else {
      ReplaceOne(c, '%', "\\%");
      if c == '%' {
        ReplaceTwo('\\', '%', '_', "\\_");
      } else {
        ReplaceOne(c, '_', "\\_");
      }
    }
  }

  lemma ReplaceTwo(a: char, b: char, from: char, w: string)
    requires a != from && b != from
    ensures Replace([a, b], from, w) == [a, b]
  {
    hide Replace;
    assert [a] + [b] == [a, b];
    ReplaceAppend([a], [b], from, w);
    ReplaceOne(a, from, w);
    ReplaceOne(b, from, w);
  }

  lemma EscapedAppend(a: string, b: string)
    ensures Escaped(a + b) == Escaped(a) + Escaped(b)
  {
    hide Replace;
    var a1, b1 := Replace(a, '\\', "\\\\"), Replace(b, '\\', "\\\\");
    var a2, b2 := Replace(a1, '%', "\\%"), Replace(b1, '%', "\\%");
    ReplaceAppend(a, b, '\\', "\\\\");
    ReplaceAppend(a1, b1, '%', "\\%");
    ReplaceAppend(a2, b2, '_', "\\_");
  }

  /** Three passes in this order are one: no pass touches what an earlier one put in. */
  lemma {:induction false} ThreePassesAreOne(s: string)
    ensures Escaped(s) == EscapeEach(s)
    decreases |s|
  {
    if s != "" {
      hide Escaped;
      assert s == [s[0]] + s[1..];
      EscapedAppend([s[0]], s[1..]);
      EscapedOne(s[0]);
      ThreePassesAreOne(s[1..]);
    }
  }

  function Fold(c: char): char { if 'A' <= c <= 'Z' then ((c as int) + 32) as char else c }

  predicate Same(a: char, b: char) { Fold(a) == Fold(b) }

  /** SQLite's `LIKE … ESCAPE '\'`: `%` any text, `_` any character, a backslash quotes the next one. */
  predicate Like(p: string, v: string)
    decreases |p| + |v|
  {
    if p == "" then v == ""
    else if p[0] == '%' then Like(p[1..], v) || (v != "" && Like(p, v[1..]))
    else if p[0] == '_' then v != "" && Like(p[1..], v[1..])
    else if p[0] == '\\' then |p| > 1 && v != "" && Same(p[1], v[0]) && Like(p[2..], v[1..])
    else v != "" && Same(p[0], v[0]) && Like(p[1..], v[1..])
  }

  predicate SameText(a: string, b: string) { |a| == |b| && forall i :: 0 <= i < |a| ==> Same(a[i], b[i]) }

  /** `v` contains `s`, up to the case of ASCII letters. */
  ghost predicate Contains(v: string, s: string) { exists i: nat :: OccursAt(v, s, i) }

  predicate OccursAt(v: string, s: string, i: nat) { i + |s| <= |v| && SameText(s, v[i..i + |s|]) }

  lemma {:induction false} PercentTakesAll(v: string)
    ensures Like("%", v)
    decreases |v|
  {
    assert "%"[1..] == "";
    if v != "" {
      PercentTakesAll(v[1..]);
    }
  }

  lemma {:induction false} PercentSkips(p: string, v: string)
    ensures Like("%" + p, v) <==> exists i :: 0 <= i <= |v| && Like(p, v[i..])
    decreases |v|
  {
    hide Same;
    var q := "%" + p;
    assert q[1..] == p && v[0..] == v;
    if v == "" {
      assert Like(q, v) <==> Like(p, v[0..]);
    } else {
      PercentSkips(p, v[1..]);
      assert forall i :: 0 <= i < |v| ==> v[1..][i..] == v[i + 1..];
      if i :| 0 <= i <= |v| && Like(p, v[i..]) {
        if i > 0 {
          assert Like(p, v[1..][i - 1..]);
        }
      }
    }
  }

  lemma SameTextHead(s: string, v: string)
    requires s != "" && v != ""
    ensures |s| <= |v| && SameText(s, v[..|s|]) <==>
            Same(s[0], v[0]) && |s| - 1 <= |v| - 1 && SameText(s[1..], v[1..][..|s| - 1])
  {
    hide Same;
    if |s| <= |v| {
      var a, b := s[1..], v[1..][..|s| - 1];
      assert forall i :: 0 <= i < |a| ==> a[i] == s[i + 1] && b[i] == v[i + 1];
      if SameText(a, b) && Same(s[0], v[0]) {
        forall i | 0 <= i < |s| ensures Same(s[i], v[..|s|][i]) {
          if i > 0 {
            assert Same(a[i - 1], b[i - 1]);
          }
        }
      }
    }
  }

  lemma LikeHead(c: char, p: string, v: string)
    ensures Like((if IsSpecial(c) then ['\\', c] else [c]) + p, v) <==> v != "" && Same(c, v[0]) && Like(p, v[1..])
  {
    hide Same;
    var q := (if IsSpecial(c) then ['\\', c] else [c]) + p;
    if IsSpecial(c) {
      assert q[0] == '\\' && q[1] == c && q[2..] == p;
    } else {
      assert q[0] == c && q[1..] == p;
    }
  }

  lemma {:induction false} LiteralThenAny(s: string, v: string)
    ensures Like(EscapeEach(s) + "%", v) <==> |s| <= |v| && SameText(s, v[..|s|])
    decreases |s|
  {
    hide Same, Like, IsSpecial;
    if s == "" {
      assert EscapeEach(s) + "%" == "%";
      PercentTakesAll(v);
    } else {
      var head := if IsSpecial(s[0]) then ['\\', s[0]] else [s[0]];
      var rest := EscapeEach(s[1..]) + "%";
      assert EscapeEach(s) + "%" == head + rest;
      LikeHead(s[0], rest, v);
      if v != "" {
        LiteralThenAny(s[1..], v[1..]);
        SameTextHead(s, v);
      }
    }
  }

  /** The pattern matches exactly the texts that contain the input. */
  lemma LikeIsContains(s: string, v: string)
    ensures Like(LikePattern(s), v) <==> Contains(v, s)
  {
    hide Like, EscapeEach, Escaped, SameText;
    ThreePassesAreOne(s);
    var p := EscapeEach(s) + "%";
    assert LikePattern(s) == "%" + p;
    PercentSkips(p, v);
    forall i: nat | i <= |v| ensures Like(p, v[i..]) <==> OccursAt(v, s, i) {
      LiteralThenAny(s, v[i..]);
      if i + |s| <= |v| {
        assert v[i..][..|s|] == v[i..i + |s|];
      }
    }
    if Contains(v, s) {
      var i: nat :| OccursAt(v, s, i);
      assert Like(p, v[i..]);
    }
  }

  // ------------------------------------------------------------------- FTS5

  function One(word: string): seq<string> { if word == "" then [] else [word] }

  /** `split_whitespace`: `word` is the word being collected. */
  function Words(s: string, word: string): seq<string> {
    if s == "" then One(word)
    else if IsWhitespace(s[0]) then One(word) + Words(s[1..], "")
    else Words(s[1..], word + [s[0]])
  }

  function Quoted(term: string): string { "\"" + Replace(term, '\"', "\"\"") + "\"" }

  function JoinOr(terms: seq<string>): string {
    if terms == [] then ""
    else if |terms| == 1 then Quoted(terms[0])
    else Quoted(terms[0]) + " OR " + JoinOr(terms[1..])
  }

  /** `fts_query`. */
  function FtsQuery(raw: string): string { JoinOr(Words(raw, "")) }

  /** An FTS5 string after its opening quote: the text, and what follows the closing quote. */
  function ReadString(s: string): Option<(string, string)> {
    if s == "" then None
    else if s[0] == '\"' then
      if |s| > 1 && s[1] == '\"' then
        var r := ReadString(s[2..]); if r.None? then None else Some((['\"'] + r.value.0, r.value.1))
      else Some(("", s[1..]))
    else
      var r := ReadString(s[1..]); if r.None? then None else Some(([s[0]] + r.value.0, r.value.1))
  }

  lemma {:induction false} ReadShrinks(s: string)
    ensures ReadString(s).Some? ==> |ReadString(s).value.1| < |s|
    decreases |s|
  {
    if s != "" {
      if s[0] != '\"' {
        ReadShrinks(s[1..]);
      } else if |s| > 1 && s[1] == '\"' {
        ReadShrinks(s[2..]);
      }
    }
  }

  /** Quoted strings joined by OR. */
  function ReadQuery(q: string): Option<seq<string>>
    decreases |q|
  {
    if q == "" then Some([])
    else if q[0] != '\"' then None
    else
      ReadShrinks(q[1..]);
      var r := ReadString(q[1..]);
      if r.None? then None
      else if r.value.1 == "" then Some([r.value.0])
      else if !(" OR \"" <= r.value.1) then None
      else
        var rest := ReadQuery(r.value.1[4..]);
        if rest.None? then None else Some([r.value.0] + rest.value)
  }

  lemma {:induction false} ReadQuoted(term: string, rest: string)
    requires rest == "" || rest[0] != '\"'
    ensures ReadString(Replace(term, '\"', "\"\"") + "\"" + rest) == Some((term, rest))
    decreases |term|
  {
    if term == "" {
      var s := "" + "\"" + rest;
      assert Replace(term, '\"', "\"\"") + "\"" + rest == s && s[1..] == rest;
    } else {
      var tail := Replace(term[1..], '\"', "\"\"") + "\"" + rest;
      var s := Replace(term, '\"', "\"\"") + "\"" + rest;
      ReadQuoted(term[1..], rest);
      if term[0] == '\"' {
        assert s == "\"\"" + tail && s[2..] == tail;
      } else {
        assert s == [term[0]] + tail && s[1..] == tail;
      }
      assert [term[0]] + term[1..] == term;
    }
  }

  /** One quoted term, and then the end or another. */
  lemma ReadTerm(term: string, rest: string)
    requires rest == "" || " OR \"" <= rest
    ensures ReadQuery(Quoted(term) + rest) ==
            if rest == "" then Some([term])
            else if ReadQuery(rest[4..]).None? then None else Some([term] + ReadQuery(rest[4..]).value)
  {
    hide Replace, ReadString;
    var inner := Replace(term, '\"', "\"\"");
    var q := Quoted(term) + rest;
    assert q[0] == '\"' && q[1..] == inner + "\"" + rest;
    assert rest != "" ==> rest[0] == ' ';
    ReadQuoted(term, rest);
  }

  lemma {:induction false} ReadJoined(terms: seq<string>)
    ensures ReadQuery(JoinOr(terms)) == Some(terms)
    decreases |terms|
  {
    if terms != [] {
      hide Quoted, ReadQuery;
      if |terms| == 1 {
        ReadTerm(terms[0], "");
        assert Quoted(terms[0]) + "" == Quoted(terms[0]) && terms == [terms[0]];
      } else {
        var joined := JoinOr(terms[1..]);
        var rest := " OR " + joined;
        JoinOpens(terms[1..]);
        assert rest[4..] == joined && rest[4] == joined[0];
        assert " OR \"" <= rest;
        ReadTerm(terms[0], rest);
        assert JoinOr(terms) == Quoted(terms[0]) + rest;
        ReadJoined(terms[1..]);
        assert terms == [terms[0]] + terms[1..];
      }
    } else {
      assert ReadQuery("") == Some([]);
    }
  }

  lemma JoinOpens(terms: seq<string>)
    requires terms != []
    ensures JoinOr(terms) != "" && JoinOr(terms)[0] == '\"'
  {
  }

  /** Whatever the user typed, the query names exactly its whitespace-separated terms. */
  lemma QueryNamesTerms(raw: string)
    ensures ReadQuery(FtsQuery(raw)) == Some(Words(raw, ""))
  {
    ReadJoined(Words(raw, ""));
  }

  function Solid(s: string): string {
    if s == "" then "" else (if IsWhitespace(s[0]) then "" else [s[0]]) + Solid(s[1..])
  }

  function Concat(terms: seq<string>): string { if terms == [] then "" else terms[0] + Concat(terms[1..]) }

  predicate SolidWord(t: string) { t != "" && forall i :: 0 <= i < |t| ==> !IsWhitespace(t[i]) }

  lemma WordGrows(word: string, c: char)
    requires (word == "" || SolidWord(word)) && !IsWhitespace(c)
    ensures SolidWord(word + [c])
  {
    hide IsWhitespace;
  }

  lemma ConcatOne(word: string, rest: seq<string>)
    ensures Concat(One(word) + rest) == word + Concat(rest)
  {
    if word == "" {
      assert One(word) + rest == rest && word + Concat(rest) == Concat(rest);
    } else {
      assert (One(word) + rest)[1..] == rest;
    }
  }

  lemma ConcatNothing()
    ensures Concat([]) == ""
  {
  }

  /** The terms are the non-blank text in order. */
  lemma {:induction false} WordsKeepText(s: string, word: string)
    ensures Concat(Words(s, word)) == word + Solid(s)
    decreases |s|
  {
    hide IsWhitespace, Concat;
    if s == "" {
      ConcatOne(word, []);
      assert One(word) + [] == Words(s, word);
      ConcatNothing();
    } else if IsWhitespace(s[0]) {
      ConcatOne(word, Words(s[1..], ""));
      WordsKeepText(s[1..], "");
      assert "" + Solid(s[1..]) == Solid(s[1..]);
    } else {
      WordsKeepText(s[1..], word + [s[0]]);
      assert word + [s[0]] + Solid(s[1..]) == word + ([s[0]] + Solid(s[1..]));
    }
  }

  /** No term is empty or holds a blank. */
  lemma {:induction false} WordsAreSolid(s: string, word: string)
    requires word == "" || SolidWord(word)
    ensures forall t :: t in Words(s, word) ==> t != "" && forall i :: 0 <= i < |t| ==> !IsWhitespace(t[i])
    decreases |s|
  {
    hide IsWhitespace;
    if s != "" {
      if IsWhitespace(s[0]) {
        WordsAreSolid(s[1..], "");
      } else {
        WordGrows(word, s[0]);
        WordsAreSolid(s[1..], word + [s[0]]);
      }
    }
  }

  /** White space ends a term, and nothing else does: a text without any is one term. */
  lemma {:induction false} WordsBreak(a: string, blank: char, rest: string, word: string)
    requires IsWhitespace(blank) && forall i :: 0 <= i < |a| ==> !IsWhitespace(a[i])
    ensures Words(a, word) == if word + a == "" then [] else [word + a]
    ensures Words(a + [blank] + rest, word) == Words(a, word) + Words(rest, "")
    decreases |a|
  {
    hide IsWhitespace;
    var s := a + [blank] + rest;
    if a == "" {
      assert s[0] == blank && s[1..] == rest;
      assert word + a == word;
    } else {
      assert s[0] == a[0] && s[1..] == a[1..] + [blank] + rest;
      WordsBreak(a[1..], blank, rest, word + [a[0]]);
      assert word + [a[0]] + a[1..] == word + a;
    }
  }

  /** What the reader of patterns takes each character for. */
  lemma PatternReads(c: char, p: string, v: string)
    ensures Like("_" + p, v) <==> v != "" && Like(p, v[1..])
    ensures Like("%" + p, v) <==> exists i :: 0 <= i <= |v| && Like(p, v[i..])
    ensures c in "\\%_" ==> (Like(['\\', c] + p, v) <==> v != "" && v[0] == c && Like(p, v[1..]))
    ensures c !in "\\%_" ==> (Like([c] + p, v) <==> v != "" && Same(c, v[0]) && Like(p, v[1..]))
    ensures Like("", v) <==> v == ""
  {
    PercentSkips(p, v);
    LikeHead(c, p, v);
    assert ("_" + p)[1..] == p;
    hide Like;
    if v != "" && c in "\\%_" {
      SameIs(c, v[0]);
    }
  }

  /** Two characters are the same up to the case of the letters A to Z. */
  lemma SameIs(a: char, b: char)
    ensures Same(a, b) <==>
            a == b || ('A' <= a <= 'Z' && b as int == a as int + 32) || ('A' <= b <= 'Z' && a as int == b as int + 32)
  {
  }

  /** A query starts with a quote, and a doubled quote does not end a string. */
  lemma NotAQuery(q: string)
    ensures q != "" && q[0] != '\"' ==> ReadQuery(q) == None
    ensures ReadString("\"\"") == None
  {
    var s := "\"\"";
    assert s[2..] == "" && ReadString("") == None;
  }
}
