/** The single scan as it is written: collect marker positions, sort them, walk the template once. */
module PromptScan {
  import opened Wrappers
  import opened PromptTemplate
  import opened PromptAssembly

  datatype Site = Site(pos: nat, m: Marker)

  /** `str::match_indices`, from position `o` on. */
  function MatchesFrom(s: string, pat: string, o: nat): seq<nat>
    requires pat != ""
    decreases |s| - o
  {
    if o + |pat| > |s| then []
    else if pat <= s[o..] then [o] + MatchesFrom(s, pat, o + |pat|)
    else MatchesFrom(s, pat, o + 1)
  }

  function Label(ps: seq<nat>, m: Marker): seq<Site> { seq(|ps|, i requires 0 <= i < |ps| => Site(ps[i], m)) }

  /** The positions of one marker in a token list that starts at position `o`. */
  function Positions(toks: seq<Tok>, o: nat, m: Marker): seq<nat> {
    if toks == [] then []
    else (if toks[0] == Mk(m) then [o] else []) + Positions(toks[1..], o + |TextOf(toks[0])|, m)
  }

  /** All markers with their positions, left to right. */
  function SitesOf(toks: seq<Tok>, o: nat): seq<Site> {
    if toks == [] then []
    else (if toks[0].Mk? then [Site(o, toks[0].m)] else []) + SitesOf(toks[1..], o + |TextOf(toks[0])|)
  }

  lemma MatchHit(s: string, pat: string, o: nat)
    requires pat != "" && o <= |s| && pat <= s[o..]
    ensures MatchesFrom(s, pat, o) == [o] + MatchesFrom(s, pat, o + |pat|)
  {
  }

  lemma MatchMiss(s: string, pat: string, o: nat)
    requires pat != "" && o < |s| && !(pat <= s[o..])
    ensures MatchesFrom(s, pat, o) == MatchesFrom(s, pat, o + 1)
  {
    if o + |pat| > |s| {
      assert MatchesFrom(s, pat, o + 1) == [];
    }
  }

  lemma {:induction false} NoMatchInside(s: string, o: nat, n: Marker, k: nat, m: Marker)
    requires o <= |s| && MarkerText(n) <= s[o..] && 0 < k <= |MarkerText(n)|
    ensures MatchesFrom(s, MarkerText(m), o + k) == MatchesFrom(s, MarkerText(m), o + |MarkerText(n)|)
    decreases |MarkerText(n)| - k
  {
    hide Name;
    if k < |MarkerText(n)| {
      var rest := s[o..][|MarkerText(n)|..];
      assert s[o..] == MarkerText(n) + rest;
      assert s[o + k..] == (MarkerText(n) + rest)[k..];
      NoMarkerInside(n, rest, k, m);
      MatchMiss(s, MarkerText(m), o + k);
      NoMatchInside(s, o, n, k + 1, m);
    }
  }

  /** Walking over one token finds the marker there and nothing else. */
  lemma MatchToken(s: string, o: nat, toks: seq<Tok>, m: Marker)
    requires o <= |s| && s[o..] == Text(toks) && Faithful(toks) && toks != []
    ensures o + |TextOf(toks[0])| <= |s|
    ensures MatchesFrom(s, MarkerText(m), o) ==
      (if toks[0] == Mk(m) then [o] else []) + MatchesFrom(s, MarkerText(m), o + |TextOf(toks[0])|)
  {
    hide Name, MarkerText, Tokens, Faithful, MatchesFrom;
    FaithfulTail(toks);
    if toks[0] == Mk(m) {
      MatchHit(s, MarkerText(m), o);
    } else if toks[0].Mk? {
      OtherMarker(s[o..], m, toks[0].m);
      MatchMiss(s, MarkerText(m), o);
      NoMatchInside(s, o, toks[0].m, 1, m);
    } else {
      MatchMiss(s, MarkerText(m), o);
    }
  }

  lemma PositionsHead(toks: seq<Tok>, o: nat, m: Marker)
    requires toks != []
    ensures Positions(toks, o, m) ==
            (if toks[0] == Mk(m) then [o] else []) + Positions(toks[1..], o + |TextOf(toks[0])|, m)
  {
  }

  lemma {:induction false} MatchesArePositions(s: string, o: nat, toks: seq<Tok>, m: Marker)
    requires o <= |s| && s[o..] == Text(toks) && Faithful(toks)
    ensures MatchesFrom(s, MarkerText(m), o) == Positions(toks, o, m)
    decreases |toks|
  {
    hide *;
    if toks == [] {
      NoMatches(s, o, toks, m);
    } else {
      var o', rest := MatchRest(s, o, toks, m);
      MatchesArePositions(s, o', rest, m);
    }
  }

  lemma NoMatches(s: string, o: nat, toks: seq<Tok>, m: Marker)
    requires toks == [] && o <= |s| && s[o..] == Text(toks)
    ensures MatchesFrom(s, MarkerText(m), o) == Positions(toks, o, m)
  {
    hide MarkerText;
  }

  lemma MatchRest(s: string, o: nat, toks: seq<Tok>, m: Marker) returns (o': nat, rest: seq<Tok>)
    requires o <= |s| && s[o..] == Text(toks) && Faithful(toks) && toks != []
    ensures o' <= |s| && s[o'..] == Text(rest) && Faithful(rest) && |rest| < |toks|
    ensures MatchesFrom(s, MarkerText(m), o') == Positions(rest, o', m) ==>
            MatchesFrom(s, MarkerText(m), o) == Positions(toks, o, m)
  {
    hide Name, MarkerText, Tokens, Faithful, MatchesFrom;
    o', rest := o + |TextOf(toks[0])|, toks[1..];
    FaithfulTail(toks);
    MatchToken(s, o, toks, m);
    assert s[o'..] == s[o..][|TextOf(toks[0])|..];
  }

  /** The order in which the source collects: the instructions, then each slot. */
  function Gather(toks: seq<Tok>, o: nat, n: nat): seq<Site>
    requires n <= SLOTS
  {
    if n == 0 then Label(Positions(toks, o, INSTRUCTIONS), INSTRUCTIONS)
    else Gather(toks, o, n - 1) + Label(Positions(toks, o, n - 1), n - 1)
  }

  /** How often `x` occurs. */
  ghost function Count(sites: seq<Site>, x: Site): nat {
    if sites == [] then 0 else (if sites[0] == x then 1 else 0) + Count(sites[1..], x)
  }

  lemma {:induction false} CountAppend(a: seq<Site>, b: seq<Site>, x: Site)
    ensures Count(a + b, x) == Count(a, x) + Count(b, x)
    decreases |a|
  {
    if a == [] {
      assert a + b == b;
    } else {
      assert (a + b)[1..] == a[1..] + b;
      CountAppend(a[1..], b, x);
    }
  }

  lemma {:induction false} CountMember(sites: seq<Site>, x: Site)
    ensures Count(sites, x) > 0 <==> x in sites
    decreases |sites|
  {
    if sites != [] {
      CountMember(sites[1..], x);
    }
  }

  lemma LabelHead(toks: seq<Tok>, o: nat, m: Marker, x: Site)
    requires toks != []
    ensures Count(Label(Positions(toks, o, m), m), x) ==
            (if toks[0] == Mk(m) && x == Site(o, m) then 1 else 0) +
            Count(Label(Positions(toks[1..], o + |TextOf(toks[0])|, m), m), x)
  {
    hide MarkerText;
    var rest := Positions(toks[1..], o + |TextOf(toks[0])|, m);
    PositionsHead(toks, o, m);
    if toks[0] == Mk(m) {
      assert Label([o] + rest, m) == [Site(o, m)] + Label(rest, m);
      CountAppend([Site(o, m)], Label(rest, m), x);
    } else {
      assert [] + rest == rest;
    }
  }

  lemma {:induction false} GatherHead(toks: seq<Tok>, o: nat, n: nat, x: Site)
    requires n <= SLOTS && toks != []
    ensures Count(Gather(toks, o, n), x) ==
            (if toks[0].Mk? && (toks[0].m < n || toks[0].m == INSTRUCTIONS) && x == Site(o, toks[0].m) then 1 else 0) +
            Count(Gather(toks[1..], o + |TextOf(toks[0])|, n), x)
    decreases n
  {
    hide MarkerText, Positions, Label, Count;
    var o' := o + |TextOf(toks[0])|;
    if n == 0 {
      LabelHead(toks, o, INSTRUCTIONS, x);
    } else {
      LabelHead(toks, o, n - 1, x);
      GatherHead(toks, o, n - 1, x);
      CountAppend(Gather(toks, o, n - 1), Label(Positions(toks, o, n - 1), n - 1), x);
      CountAppend(Gather(toks[1..], o', n - 1), Label(Positions(toks[1..], o', n - 1), n - 1), x);
    }
  }

  /** Collecting marker by marker finds every marker of the text as often as it occurs. */
  lemma {:induction false} GatherIsSites(toks: seq<Tok>, o: nat, x: Site)
    ensures Count(Gather(toks, o, SLOTS), x) == Count(SitesOf(toks, o), x)
    decreases |toks|
  {
    hide Gather, SitesOf, Count, TextOf;
    if toks == [] {
      GatherNothing(o);
    } else {
      GatherIsSites(toks[1..], o + |TextOf(toks[0])|, x);
      GatherStep(toks, o, x);
    }
  }

  lemma GatherNothing(o: nat)
    ensures Gather([], o, SLOTS) == SitesOf([], o) == []
  {
    GatherEmpty(o, SLOTS);
  }

  lemma GatherStep(toks: seq<Tok>, o: nat, x: Site)
    requires toks != []
    requires var o' := o + |TextOf(toks[0])|;
             Count(Gather(toks[1..], o', SLOTS), x) == Count(SitesOf(toks[1..], o'), x)
    ensures Count(Gather(toks, o, SLOTS), x) == Count(SitesOf(toks, o), x)
  {
    hide Gather, SitesOf, Count, TextOf;
    GatherHead(toks, o, SLOTS, x);
    SitesHead(toks, o, x);
  }

  lemma SitesHead(toks: seq<Tok>, o: nat, x: Site)
    requires toks != []
    ensures Count(SitesOf(toks, o), x) ==
            (if toks[0].Mk? && x == Site(o, toks[0].m) then 1 else 0) +
            Count(SitesOf(toks[1..], o + |TextOf(toks[0])|), x)
  {
    hide MarkerText;
    var rest := SitesOf(toks[1..], o + |TextOf(toks[0])|);
    if toks[0].Mk? {
      CountAppend([Site(o, toks[0].m)], rest, x);
    } else {
      assert [] + rest == rest;
    }
  }

  lemma {:induction false} GatherEmpty(o: nat, n: nat)
    requires n <= SLOTS
    ensures Gather([], o, n) == []
    decreases n
  {
    if n > 0 {
      GatherEmpty(o, n - 1);
    }
  }

  ghost predicate SortedByPos(sites: seq<Site>) {
    forall i, j :: 0 <= i < j < |sites| ==> sites[i].pos <= sites[j].pos
  }

  lemma {:induction false} SitesIncrease(toks: seq<Tok>, o: nat)
    ensures forall i :: 0 <= i < |SitesOf(toks, o)| ==> SitesOf(toks, o)[i].pos >= o
    ensures forall i, j :: 0 <= i < j < |SitesOf(toks, o)| ==> SitesOf(toks, o)[i].pos < SitesOf(toks, o)[j].pos
    decreases |toks|
  {
    if toks != [] {
      var o' := o + |TextOf(toks[0])|;
      SitesIncrease(toks[1..], o');
      hide TextOf;
      assert SitesOf(toks, o) == (if toks[0].Mk? then [Site(o, toks[0].m)] else []) + SitesOf(toks[1..], o');
      assert toks[0].Mk? ==> o' > o by {
        LongEnough(toks[0]);
      }
    }
  }

  lemma LongEnough(t: Tok)
    ensures |TextOf(t)| > 0
  {
  }

  function Insert(sites: seq<Site>, x: Site): seq<Site> {
    if sites == [] || x.pos < sites[0].pos then [x] + sites else [sites[0]] + Insert(sites[1..], x)
  }

  lemma {:induction false} InsertCount(sites: seq<Site>, x: Site, y: Site)
    ensures Count(Insert(sites, x), y) == Count(sites, y) + if x == y then 1 else 0
    decreases |sites|
  {
    if sites == [] || x.pos < sites[0].pos {
      assert ([x] + sites)[1..] == sites;
    } else {
      InsertCount(sites[1..], x, y);
      assert Insert(sites, x)[1..] == Insert(sites[1..], x);
    }
  }

  lemma {:induction false} InsertSorts(sites: seq<Site>, x: Site)
    requires SortedByPos(sites)
    ensures SortedByPos(Insert(sites, x))
    ensures forall i :: 0 <= i < |Insert(sites, x)| ==>
              Insert(sites, x)[i].pos >= x.pos || (sites != [] && Insert(sites, x)[i].pos >= sites[0].pos)
    decreases |sites|
  {
    if sites != [] && x.pos >= sites[0].pos {
      InsertSorts(sites[1..], x);
      var rest := Insert(sites[1..], x);
      assert forall i :: 0 <= i < |rest| ==> rest[i].pos >= sites[0].pos;
    }
  }

  ghost predicate SameCounts(a: seq<Site>, b: seq<Site>) { forall x :: Count(a, x) == Count(b, x) }

  /** `sort_by_key` on the position. */
  method SortSites(sites: seq<Site>) returns (sorted: seq<Site>)
    ensures SameCounts(sorted, sites) && SortedByPos(sorted)
  {
    sorted := [];
    for i := 0 to |sites|
      invariant SameCounts(sorted, sites[..i]) && SortedByPos(sorted)
    {
      assert sites[..i + 1] == sites[..i] + [sites[i]];
      InsertSorts(sorted, sites[i]);
      forall x ensures Count(Insert(sorted, sites[i]), x) == Count(sites[..i + 1], x) {
        InsertCount(sorted, sites[i], x);
        CountAppend(sites[..i], [sites[i]], x);
      }
      sorted := Insert(sorted, sites[i]);
    }
    assert sites[..|sites|] == sites;
  }

  /** Positions are distinct, so sorting leaves no choice. */
  lemma {:induction false} SortedUnique(a: seq<Site>, b: seq<Site>)
    requires SameCounts(a, b) && SortedByPos(a)
    requires forall i, j :: 0 <= i < j < |b| ==> b[i].pos < b[j].pos
    ensures a == b
    decreases |b|
  {
    if b == [] {
      if a != [] {
        CountMember(a, a[0]);
        CountMember(b, a[0]);
      }
    } else {
      SameHead(a, b);
      forall x ensures Count(a[1..], x) == Count(b[1..], x) {
        assert Count(a, x) == Count(b, x);
      }
      SortedUnique(a[1..], b[1..]);
      assert a == [a[0]] + a[1..] && b == [b[0]] + b[1..];
    }
  }

  lemma SameHead(a: seq<Site>, b: seq<Site>)
    requires SameCounts(a, b) && SortedByPos(a) && b != []
    requires forall i, j :: 0 <= i < j < |b| ==> b[i].pos < b[j].pos
    ensures a != [] && a[0] == b[0]
  {
    CountMember(b, b[0]);
    CountMember(a, b[0]);
    assert b[0] in a;
    CountMember(a, a[0]);
    CountMember(b, a[0]);
    var i :| 0 <= i < |b| && b[i] == a[0];
    var j :| 0 <= j < |a| && a[j] == b[0];
    assert a[0].pos <= a[j].pos && b[0].pos <= b[i].pos;
  }

  // ---------------------------------------------------------------- system

  datatype Block = Block(text: string, isDynamic: bool)

  /** The pushed blocks and the index where dynamic content begins. */
  datatype System = System(blocks: seq<Block>, boundary: Option<nat>)

  function Concat(blocks: seq<Block>): string {
    if blocks == [] then "" else Concat(blocks[..|blocks| - 1]) + blocks[|blocks| - 1].text
  }

  lemma ConcatPush(blocks: seq<Block>, b: Block)
    ensures Concat(blocks + [b]) == Concat(blocks) + b.text
  {
    assert (blocks + [b])[..|blocks|] == blocks;
  }

  function MarkBoundary(s: System): System {
    if s.boundary.None? then s.(boundary := Some(|s.blocks|)) else s
  }

  function Push(s: System, b: Block): System {
    var t := if b.isDynamic then MarkBoundary(s) else s;
    t.(blocks := t.blocks + [b])
  }

  function Flush(s: System, pending: string): System {
    if pending == "" then s else Push(s, Block(pending, false))
  }

  predicate IsDynamic(m: Marker) { m == ENVIRONMENT || m == AFTER_INSTRUCTIONS }

  /** The blocks providers may cache. */
  function CachePrefix(s: System): seq<Block>
    requires s.boundary.Some? ==> s.boundary.value <= |s.blocks|
  {
    if s.boundary.Some? then s.blocks[..s.boundary.value] else s.blocks
  }

  /** The template up to its first dynamic marker. */
  function BeforeDynamic(toks: seq<Tok>): (before: seq<Tok>)
    ensures |before| <= |toks|
  {
    if toks == [] || (toks[0].Mk? && IsDynamic(toks[0].m)) then [] else [toks[0]] + BeforeDynamic(toks[1..])
  }

  ghost predicate HasDynamic(toks: seq<Tok>) { |BeforeDynamic(toks)| < |toks| }

  /** The number of plain characters before the next marker. */
  function Lead(toks: seq<Tok>): (n: nat)
    ensures n <= |toks| && (n < |toks| ==> toks[n].Mk?)
    ensures forall i :: 0 <= i < n ==> toks[i].Ch?
  {
    if toks == [] || toks[0].Mk? then 0 else 1 + Lead(toks[1..])
  }

  lemma PlainStep(toks: seq<Tok>)
    requires toks != [] && toks[0].Ch?
    ensures BeforeDynamic(toks) == [toks[0]] + BeforeDynamic(toks[1..]) && Lead(toks) == 1 + Lead(toks[1..])
  {
  }

  lemma PlainText(c: char, rest: seq<Tok>)
    ensures Text([Ch(c)] + rest) == [c] + Text(rest) && Text([]) == ""
  {
    assert ([Ch(c)] + rest)[1..] == rest;
  }

  lemma {:induction false} LeadText(toks: seq<Tok>)
    ensures var n := Lead(toks);
            |Text(toks[..n])| == n && Text(toks) == Text(toks[..n]) + Text(toks[n..])
    decreases |toks|
  {
    hide Text, Lead;
    var n := Lead(toks);
    if n > 0 {
      var rest := toks[1..];
      PlainStep(toks);
      LeadText(rest);
      assert toks == [toks[0]] + rest && toks[..n] == [toks[0]] + rest[..n - 1];
      assert rest[n - 1..] == toks[n..];
      PlainText(toks[0].c, rest);
      PlainText(toks[0].c, rest[..n - 1]);
    } else {
      assert toks[..0] == [] && toks[0..] == toks;
      PlainText(' ', []);
    }
  }

  lemma {:induction false} LeadScan(toks: seq<Tok>, content: Content)
    ensures var n := Lead(toks); Scan(toks, content) == Text(toks[..n]) + Scan(toks[n..], content)
    decreases |toks|
  {
    hide MarkerText;
    var n := Lead(toks);
    if n > 0 {
      LeadScan(toks[1..], content);
      assert toks[..n][1..] == toks[1..][..n - 1];
      assert toks[1..][n - 1..] == toks[n..];
    } else {
      assert toks[..0] == [] && toks[0..] == toks;
    }
  }

  lemma {:induction false} LeadBefore(toks: seq<Tok>)
    ensures var n := Lead(toks); BeforeDynamic(toks) == toks[..n] + BeforeDynamic(toks[n..])
    decreases |toks|
  {
    hide BeforeDynamic, Lead;
    var n := Lead(toks);
    if n > 0 {
      PlainStep(toks);
      var rest := toks[1..];
      LeadBefore(rest);
      var tail := BeforeDynamic(toks[n..]);
      assert rest[n - 1..] == toks[n..];
      assert BeforeDynamic(toks) == [toks[0]] + (rest[..n - 1] + tail) == ([toks[0]] + rest[..n - 1]) + tail;
      assert toks[..n] == [toks[0]] + rest[..n - 1];
    } else {
      assert toks[..0] == [] && toks[0..] == toks;
    }
  }

  /** Cutting at the first dynamic marker keeps the plain text in front. */
  lemma {:induction false} LeadKept(toks: seq<Tok>)
    ensures Lead(BeforeDynamic(toks)) == Lead(toks)
    decreases |toks|
  {
    if Lead(toks) > 0 {
      LeadKept(toks[1..]);
      assert BeforeDynamic(toks)[1..] == BeforeDynamic(toks[1..]);
    }
  }

  lemma SitesStep(toks: seq<Tok>, o: nat)
    requires toks != []
    ensures toks[0].Ch? ==> SitesOf(toks, o) == SitesOf(toks[1..], o + 1)
    ensures toks[0].Mk? ==>
              SitesOf(toks, o) == [Site(o, toks[0].m)] + SitesOf(toks[1..], o + |MarkerText(toks[0].m)|)
  {
    hide MarkerText;
  }

  lemma {:induction false} LeadSites(toks: seq<Tok>, o: nat)
    ensures var n := Lead(toks);
            SitesOf(toks, o) ==
              if n == |toks| then []
              else [Site(o + n, toks[n].m)] + SitesOf(toks[n + 1..], o + n + |MarkerText(toks[n].m)|)
    decreases |toks|
  {
    hide MarkerText, SitesOf, Lead;
    if toks == [] {
      NoSites(o);
    } else if toks[0].Ch? {
      PlainStep(toks);
      SitesStep(toks, o);
      var rest := toks[1..];
      LeadSites(rest, o + 1);
      var n := Lead(rest);
      assert n < |rest| ==> rest[n + 1..] == toks[n + 2..];
    } else {
      SitesStep(toks, o);
    }
  }

  lemma NoSites(o: nat)
    ensures SitesOf([], o) == []
  {
  }

  // ------------------------------------------------------------- the scan

  method CollectSites(template: string) returns (sites: seq<Site>)
    ensures sites == Gather(Tokens(template), 0, SLOTS)
  {
    ghost var toks := Tokens(template);
    TextOfTokens(template);
    assert template[0..] == template;
    MatchesArePositions(template, 0, toks, INSTRUCTIONS);
    sites := Label(MatchesFrom(template, MarkerText(INSTRUCTIONS), 0), INSTRUCTIONS);
    for slot := 0 to SLOTS
      invariant sites == Gather(toks, 0, slot)
    {
      MatchesArePositions(template, 0, toks, slot);
      sites := sites + Label(MatchesFrom(template, MarkerText(slot), 0), slot);
    }
  }

  /** What is left to emit, and where the walk stands, before the next marker. */
  ghost predicate Standing(template: string, o: nat, toks: seq<Tok>, sites: seq<Site>) {
    o <= |template| && template[o..] == Text(toks) && sites == SitesOf(toks, o)
  }

  lemma LeadSlices(template: string, o: nat, toks: seq<Tok>)
    requires o <= |template| && template[o..] == Text(toks)
    ensures var n := Lead(toks);
            o + n <= |template| && template[o..o + n] == Text(toks[..n]) && template[o + n..] == Text(toks[n..])
  {
    hide Text;
    var n := Lead(toks);
    LeadText(toks);
    assert template[o..o + n] == template[o..][..n];
    assert template[o + n..] == template[o..][n..];
  }

  lemma TokenSlice(template: string, p: nat, toks: seq<Tok>)
    requires p <= |template| && template[p..] == Text(toks) && toks != []
    ensures p + |TextOf(toks[0])| <= |template| && template[p + |TextOf(toks[0])|..] == Text(toks[1..])
  {
    hide MarkerText;
    var w := |TextOf(toks[0])|;
    assert template[p..][w..] == Text(toks[1..]);
    assert template[p + w..] == template[p..][w..];
  }

  /** Moving to the next marker: where it is and what text lies before and after it. */
  lemma NextSite(template: string, o: nat, toks: seq<Tok>, sites: seq<Site>)
    requires Standing(template, o, toks, sites) && sites != []
    ensures var pos, m, n := sites[0].pos, sites[0].m, Lead(toks);
            pos == o + n && n < |toks| && toks[n] == Mk(m) && pos + |MarkerText(m)| <= |template| &&
            template[o..pos] == Text(toks[..n]) &&
            template[pos + |MarkerText(m)|..] == Text(toks[n + 1..]) &&
            sites[1..] == SitesOf(toks[n + 1..], pos + |MarkerText(m)|)
  {
    hide MarkerText, Text, SitesOf, Lead;
    NextMarker(toks, o, sites);
    NextText(template, o, toks);
  }

  lemma NextMarker(toks: seq<Tok>, o: nat, sites: seq<Site>)
    requires sites == SitesOf(toks, o) && sites != []
    ensures var n := Lead(toks);
            n < |toks| && sites[0] == Site(o + n, toks[n].m) &&
            sites[1..] == SitesOf(toks[n + 1..], o + n + |MarkerText(toks[n].m)|)
  {
    hide MarkerText, SitesOf, Lead;
    LeadSites(toks, o);
  }

  lemma NextText(template: string, o: nat, toks: seq<Tok>)
    requires o <= |template| && template[o..] == Text(toks) && Lead(toks) < |toks|
    ensures var n := Lead(toks);
            o + n + |MarkerText(toks[n].m)| <= |template| && template[o..o + n] == Text(toks[..n]) &&
            template[o + n + |MarkerText(toks[n].m)|..] == Text(toks[n + 1..])
  {
    hide MarkerText, Text, Lead;
    var n := Lead(toks);
    LeadSlices(template, o, toks);
    var from := toks[n..];
    assert from[1..] == toks[n + 1..] && from[0] == toks[n];
    TokenSlice(template, o + n, from);
  }

  /** The plain text before the next marker comes first in everything still to emit. */
  lemma LeadSplit(toks: seq<Tok>, content: Content)
    ensures var n := Lead(toks);
            Scan(toks, content) == Text(toks[..n]) + Scan(toks[n..], content) &&
            Scan(BeforeDynamic(toks), content) == Text(toks[..n]) + Scan(BeforeDynamic(toks[n..]), content)
  {
    hide Text, Scan;
    var n := Lead(toks);
    LeadScan(toks, content);
    LeadBefore(toks);
    LeadKept(toks);
    LeadScan(BeforeDynamic(toks), content);
    assert BeforeDynamic(toks)[n..] == BeforeDynamic(toks[n..]) && BeforeDynamic(toks)[..n] == toks[..n];
  }

  lemma LastStretch(template: string, o: nat, toks: seq<Tok>, content: Content)
    requires Standing(template, o, toks, [])
    ensures Scan(toks, content) == template[o..] && Scan(BeforeDynamic(toks), content) == template[o..]
  {
    hide MarkerText;
    var n := Lead(toks);
    LeadSites(toks, o);
    LeadText(toks);
    LeadSplit(toks, content);
    assert toks[n..] == [] && toks[..n] == toks;
  }

  /** Everything before the boundary is static and says the template up to its first dynamic marker. */
  ghost predicate PrefixDone(all: seq<Tok>, content: Content, system: System) {
    && (system.boundary.Some? ==> system.boundary.value <= |system.blocks|)
    && (forall b :: b in CachePrefix(system) ==> !b.isDynamic)
    && (system.boundary.Some? ==> HasDynamic(all) && Concat(CachePrefix(system)) == Scan(BeforeDynamic(all), content))
  }

  /** What the blocks and the pending text say so far about the whole template. */
  ghost predicate Progress(all: seq<Tok>, content: Content, system: System, pending: string, rest: seq<Tok>) {
    && Concat(system.blocks) + pending + Scan(rest, content) == Scan(all, content)
    && (system.boundary.None? ==>
          (HasDynamic(all) <==> HasDynamic(rest)) &&
          Concat(system.blocks) + pending + Scan(BeforeDynamic(rest), content) == Scan(BeforeDynamic(all), content))
    && PrefixDone(all, content, system)
  }

  lemma MoveBracket(a: string, b: string, c: string, d: string)
    ensures a + b + (c + d) == a + (b + c) + d
  {
  }

  lemma LeadDynamic(toks: seq<Tok>)
    ensures HasDynamic(toks) <==> HasDynamic(toks[Lead(toks)..])
  {
    hide Lead, BeforeDynamic;
    LeadBefore(toks);
  }

  /** Moving over plain text. */
  lemma LeadProgress(all: seq<Tok>, content: Content, system: System, pending: string, rest: seq<Tok>)
    requires Progress(all, content, system, pending, rest)
    ensures Progress(all, content, system, pending + Text(rest[..Lead(rest)]), rest[Lead(rest)..])
  {
    hide Text, Scan, Concat, BeforeDynamic, HasDynamic, Lead, PrefixDone;
    var n := Lead(rest);
    LeadSplit(rest, content);
    LeadDynamic(rest);
    MoveBracket(Concat(system.blocks), pending, Text(rest[..n]), Scan(rest[n..], content));
    MoveBracket(Concat(system.blocks), pending, Text(rest[..n]), Scan(BeforeDynamic(rest[n..]), content));
  }

  /** Flushing moves the pending text into a static block. */
  lemma FlushProgress(all: seq<Tok>, content: Content, system: System, pending: string, rest: seq<Tok>)
    requires Progress(all, content, system, pending, rest)
    ensures Progress(all, content, Flush(system, pending), "", rest)
    ensures Flush(system, pending).boundary == system.boundary
    ensures Concat(Flush(system, pending).blocks) == Concat(system.blocks) + pending
  {
    hide Scan, BeforeDynamic;
    var flushed := Flush(system, pending);
    if pending != "" {
      ConcatPush(system.blocks, Block(pending, false));
      if system.boundary.Some? {
        assert CachePrefix(flushed) == CachePrefix(system);
      }
    }
  }

  /** The tokens after a marker, without its newline when the content is empty. */
  function After(rest: seq<Tok>, content: string): seq<Tok>
    requires rest != []
  {
    if StripsLine(rest, content) then rest[2..] else rest[1..]
  }

  lemma ScanMarker(rest: seq<Tok>, content: Content)
    requires rest != [] && rest[0].Mk?
    ensures var text := content(rest[0].m);
            Scan(rest, content) == text + Scan(After(rest, text), content) &&
            (!IsDynamic(rest[0].m) ==>
               Scan(BeforeDynamic(rest), content) == text + Scan(BeforeDynamic(After(rest, text)), content) &&
               (HasDynamic(rest) <==> HasDynamic(After(rest, text)))) &&
            (IsDynamic(rest[0].m) ==> BeforeDynamic(rest) == [] && HasDynamic(rest))
  {
    hide MarkerText;
    if !IsDynamic(rest[0].m) {
      var before := BeforeDynamic(rest[1..]);
      assert BeforeDynamic(rest) == [rest[0]] + before && BeforeDynamic(rest)[1..] == before;
      assert rest == [rest[0]] + rest[1..];
      if StripsLine(rest, content(rest[0].m)) {
        assert rest[1..] == [rest[1]] + rest[2..] && before == [rest[1]] + BeforeDynamic(rest[2..]);
        assert BeforeDynamic(rest)[2..] == BeforeDynamic(rest[2..]);
      } else if |rest| > 1 {
        assert before != [] ==> before[0] == rest[1];
      }
    }
  }

  /** A marker whose content is static is emitted into the pending text. */
  lemma StaticProgress(all: seq<Tok>, content: Content, system: System, pending: string, rest: seq<Tok>)
    requires Progress(all, content, system, pending, rest) && rest != [] && rest[0].Mk? && !IsDynamic(rest[0].m)
    ensures var text := content(rest[0].m); Progress(all, content, system, pending + text, After(rest, text))
  {
    hide Scan, Concat, BeforeDynamic, After;
    ScanMarker(rest, content);
  }

  /** The system once a dynamic marker with this content has been met. */
  function Dynamic(system: System, text: string): System {
    if text == "" then MarkBoundary(system) else Push(system, Block(text, true))
  }

  lemma DynamicConcat(system: System, text: string)
    ensures Concat(Dynamic(system, text).blocks) == Concat(system.blocks) + text
  {
    if text != "" {
      ConcatPush(system.blocks, Block(text, true));
    }
  }

  lemma DynamicPrefix(all: seq<Tok>, content: Content, system: System, text: string)
    requires PrefixDone(all, content, system)
    requires system.boundary.None? ==> HasDynamic(all) && Concat(system.blocks) == Scan(BeforeDynamic(all), content)
    ensures Dynamic(system, text).boundary.Some? && PrefixDone(all, content, Dynamic(system, text))
  {
    hide Scan, BeforeDynamic, Concat;
    assert CachePrefix(Dynamic(system, text)) == CachePrefix(system);
  }

  /** A dynamic marker fixes the boundary; its content, if any, becomes a block of its own. */
  lemma DynamicProgress(all: seq<Tok>, content: Content, system: System, rest: seq<Tok>)
    requires Progress(all, content, system, "", rest) && rest != [] && rest[0].Mk? && IsDynamic(rest[0].m)
    ensures var text := content(rest[0].m);
            Dynamic(system, text).boundary.Some? && Progress(all, content, Dynamic(system, text), "", After(rest, text))
  {
    hide Scan, BeforeDynamic, After, PrefixDone, Concat, Dynamic, IsDynamic, HasDynamic;
    var text := content(rest[0].m);
    ScanMarker(rest, content);
    ScanEmpty(content);
    DynamicConcat(system, text);
    DynamicPrefix(all, content, system, text);
    MoveBracket(Concat(system.blocks), "", text, Scan(After(rest, text), content));
  }

  lemma ScanEmpty(content: Content)
    ensures Scan([], content) == ""
  {
  }

  /** Where the walk continues after a marker. */
  lemma AfterMarker(template: string, markerEnd: nat, rest: seq<Tok>, sites: seq<Site>, content: string)
    requires rest != [] && Standing(template, markerEnd, rest[1..], sites)
    ensures content == "" ==>
              Standing(template,
                       if markerEnd < |template| && template[markerEnd] == '\n' then markerEnd + 1 else markerEnd,
                       After(rest, content), sites)
    ensures content != "" ==> After(rest, content) == rest[1..]
  {
    hide MarkerText;
    HeadNewline(rest[1..]);
    assert markerEnd < |template| ==> template[markerEnd] == template[markerEnd..][0];
    if StripsLine(rest, content) {
      TokenSlice(template, markerEnd, rest[1..]);
      assert rest[1..][1..] == rest[2..];
    }
  }

  method SortedSites(template: string) returns (sites: seq<Site>)
    ensures sites == SitesOf(Tokens(template), 0)
  {
    ghost var all := Tokens(template);
    var collected := CollectSites(template);
    sites := SortSites(collected);
    forall x ensures Count(sites, x) == Count(SitesOf(all, 0), x) {
      GatherIsSites(all, 0, x);
      assert Count(sites, x) == Count(collected, x);
    }
    SitesIncrease(all, 0);
    SortedUnique(sites, SitesOf(all, 0));
  }

  lemma StartProgress(template: string, content: Content)
    ensures var all := Tokens(template);
            Standing(template, 0, all, SitesOf(all, 0)) && Progress(all, content, System([], None), "", all)
  {
    hide Scan, BeforeDynamic;
    TextOfTokens(template);
    assert template[0..] == template;
  }

  lemma LastProgress(template: string, content: Content, all: seq<Tok>, system: System, pending: string,
                     rest: seq<Tok>, lastEnd: nat)
    requires Standing(template, lastEnd, rest, []) && Progress(all, content, system, pending, rest)
    ensures Progress(all, content, system, pending + template[lastEnd..], [])
  {
    hide Scan, Concat;
    LastStretch(template, lastEnd, rest, content);
    LastIsStatic(template, lastEnd, rest);
    ScanEmpty(content);
  }

  lemma LastIsStatic(template: string, o: nat, toks: seq<Tok>)
    requires Standing(template, o, toks, [])
    ensures !HasDynamic(toks)
  {
    hide MarkerText;
    LeadSites(toks, o);
    LeadBefore(toks);
    assert toks[|toks|..] == [] && toks[..|toks|] == toks;
  }

  lemma EndProgress(all: seq<Tok>, content: Content, system: System)
    requires Progress(all, content, system, "", [])
    ensures Assembled(all, content, system)
  {
    hide Concat;
    ScanEmpty(content);
  }

  /** What `AssembleSystem` promises about the system it returns. */
  ghost predicate Assembled(all: seq<Tok>, content: Content, system: System) {
    && Concat(system.blocks) == Scan(all, content)
    && PrefixDone(all, content, system)
    && (system.boundary.None? <==> !HasDynamic(all))
  }

  // ---------------------------------------------------- the dynamic blocks

  /** The texts of the dynamic blocks, in order. */
  function DynamicTexts(blocks: seq<Block>): seq<string> {
    if blocks == [] then []
    else
      var last := blocks[|blocks| - 1];
      DynamicTexts(blocks[..|blocks| - 1]) + if last.isDynamic then [last.text] else []
  }

  /** The contents of the environment and of the text after the instructions, where not empty, marker by marker. */
  function DynamicContents(toks: seq<Tok>, content: Content): seq<string> {
    if toks == [] then []
    else
      (if toks[0].Mk? && Name(toks[0].m) in ["environment", "after_instructions"] && content(toks[0].m) != "" then
         [content(toks[0].m)]
       else []) + DynamicContents(toks[1..], content)
  }

  /** The markers whose content is dynamic, by their names in the template. */
  lemma DynamicNames(m: Marker)
    ensures IsDynamic(m) <==> Name(m) in ["environment", "after_instructions"]
  {
    NameShape(m);
    NamesDistinct(m, ENVIRONMENT);
    NamesDistinct(m, AFTER_INSTRUCTIONS);
  }

  /** The dynamic blocks so far and the contents still to come are those of the whole template. */
  predicate Told(all: seq<Tok>, content: Content, system: System, rest: seq<Tok>) {
    DynamicTexts(system.blocks) + DynamicContents(rest, content) == DynamicContents(all, content)
  }

  lemma NothingPushed(all: seq<Tok>, content: Content)
    ensures Told(all, content, System([], None), all)
  {
  }

  lemma AllTold(all: seq<Tok>, content: Content, system: System)
    requires Told(all, content, system, [])
    ensures DynamicTexts(system.blocks) == DynamicContents(all, content)
  {
  }

  lemma {:induction false} LeadContents(toks: seq<Tok>, content: Content)
    ensures DynamicContents(toks[Lead(toks)..], content) == DynamicContents(toks, content)
    decreases |toks|
  {
    hide Name;
    if toks != [] && toks[0].Ch? {
      LeadContents(toks[1..], content);
      assert toks[1..][Lead(toks) - 1..] == toks[Lead(toks)..];
    } else {
      assert toks[0..] == toks;
    }
  }

  lemma NextContents(rest: seq<Tok>, content: Content)
    requires rest != [] && rest[0].Mk?
    ensures var text := content(rest[0].m);
            DynamicContents(rest, content) ==
            (if IsDynamic(rest[0].m) && text != "" then [text] else []) + DynamicContents(After(rest, text), content)
  {
    hide Name, MarkerText, IsDynamic;
    DynamicNames(rest[0].m);
    if StripsLine(rest, content(rest[0].m)) {
      assert rest[1..][0].Ch? && rest[1..][1..] == rest[2..];
    }
  }

  lemma LeadTold(all: seq<Tok>, content: Content, system: System, rest: seq<Tok>)
    requires Told(all, content, system, rest)
    ensures Told(all, content, system, rest[Lead(rest)..])
  {
    hide Lead;
    LeadContents(rest, content);
  }

  lemma StaticTold(all: seq<Tok>, content: Content, system: System, rest: seq<Tok>)
    requires Told(all, content, system, rest) && rest != [] && rest[0].Mk? && !IsDynamic(rest[0].m)
    ensures Told(all, content, system, After(rest, content(rest[0].m)))
  {
    hide After, IsDynamic, DynamicTexts, DynamicContents;
    NextContents(rest, content);
    var next := DynamicContents(After(rest, content(rest[0].m)), content);
    assert [] + next == next;
  }

  lemma FlushTold(all: seq<Tok>, content: Content, system: System, pending: string, rest: seq<Tok>)
    requires Told(all, content, system, rest)
    ensures Told(all, content, Flush(system, pending), rest)
  {
    if pending != "" {
      assert (system.blocks + [Block(pending, false)])[..|system.blocks|] == system.blocks;
    }
  }

  lemma DynamicTold(all: seq<Tok>, content: Content, system: System, rest: seq<Tok>)
    requires Told(all, content, system, rest) && rest != [] && rest[0].Mk? && IsDynamic(rest[0].m)
    ensures var text := content(rest[0].m);
            Told(all, content, if text == "" then MarkBoundary(system) else Push(system, Block(text, true)), After(rest, text))
  {
    hide After, IsDynamic, DynamicContents;
    NextContents(rest, content);
    var text := content(rest[0].m);
    var next := DynamicContents(After(rest, text), content);
    assert (system.blocks + [Block(text, true)])[..|system.blocks|] == system.blocks;
    assert [] + next == next;
    MoveOne(DynamicTexts(system.blocks), text, next);
  }

  lemma MoveOne(before: seq<string>, text: string, next: seq<string>)
    ensures before + ([text] + next) == (before + [text]) + next
  {
  }

  lemma LastTold(template: string, o: nat, all: seq<Tok>, content: Content, system: System, toks: seq<Tok>)
    requires Standing(template, o, toks, []) && Told(all, content, system, toks)
    ensures Told(all, content, system, [])
  {
    hide MarkerText, DynamicTexts;
    LeadSites(toks, o);
    LeadContents(toks, content);
    assert toks[|toks|..] == [];
  }

  /** `assemble_system`. */
  method AssembleSystem(template: string, content: Content) returns (system: System)
    ensures Assembled(Tokens(template), content, system)
    ensures DynamicTexts(system.blocks) == DynamicContents(Tokens(template), content)
  {
    hide Scan, Concat, BeforeDynamic, After, SitesOf, Text, MarkerText, PrefixDone, DynamicTexts, DynamicContents, Told, Progress;
    ghost var all := Tokens(template);
    var sites := SortedSites(template);
    var pending := "";
    var lastEnd: nat := 0;
    ghost var rest := all;
    system := System([], None);
    StartProgress(template, content);
    NothingPushed(all, content);
    for k := 0 to |sites|
      invariant Standing(template, lastEnd, rest, sites[k..])
      invariant Progress(all, content, system, pending, rest)
      invariant Told(all, content, system, rest)
    {
      var pos, m := sites[k].pos, sites[k].m;
      NextSite(template, lastEnd, rest, sites[k..]);
      LeadProgress(all, content, system, pending, rest);
      LeadTold(all, content, system, rest);
      pending := pending + template[lastEnd..pos];
      rest := rest[Lead(rest)..];
      var markerEnd := pos + |MarkerText(m)|;
      assert sites[k..][1..] == sites[k + 1..];
      var text := content(m);
      AfterMarker(template, markerEnd, rest, sites[k + 1..], text);
      if text == "" {
        if IsDynamic(m) {
          FlushProgress(all, content, system, pending, rest);
          FlushTold(all, content, system, pending, rest);
          system := Flush(system, pending);
          pending := "";
          DynamicProgress(all, content, system, rest);
          DynamicTold(all, content, system, rest);
          system := MarkBoundary(system);
        } else {
          StaticProgress(all, content, system, pending, rest);
          StaticTold(all, content, system, rest);
          assert pending + text == pending;
        }
        lastEnd := if markerEnd < |template| && template[markerEnd] == '\n' then markerEnd + 1 else markerEnd;
        rest := After(rest, text);
        continue;
      }
      if IsDynamic(m) {
        FlushProgress(all, content, system, pending, rest);
        FlushTold(all, content, system, pending, rest);
        system := Flush(system, pending);
        pending := "";
        DynamicProgress(all, content, system, rest);
        DynamicTold(all, content, system, rest);
        system := Push(system, Block(text, true));
      } else {
        StaticProgress(all, content, system, pending, rest);
        StaticTold(all, content, system, rest);
        pending := pending + text;
      }
      lastEnd := markerEnd;
      rest := After(rest, text);
    }
    LastProgress(template, content, all, system, pending, rest, lastEnd);
    pending := pending + template[lastEnd..];
    FlushProgress(all, content, system, pending, []);
    LastTold(template, lastEnd, all, content, system, rest);
    FlushTold(all, content, system, pending, []);
    system := Flush(system, pending);
    EndProgress(all, content, system);
    AllTold(all, content, system);
  }

  // ------------------------------------------------- what may be cached

  lemma {:induction false} NothingDynamic(toks: seq<Tok>)
    ensures BeforeDynamic(toks) <= toks
    decreases |toks|
  {
    if toks != [] {
      NothingDynamic(toks[1..]);
      assert toks == [toks[0]] + toks[1..];
    }
  }

  lemma ScanHead(toks: seq<Tok>, content: Content)
    requires toks != []
    ensures Scan(toks, content) ==
            if toks[0].Ch? then TextOf(toks[0]) + Scan(toks[1..], content)
            else content(toks[0].m) + Scan(After(toks, content(toks[0].m)), content)
  {
    hide MarkerText;
    if toks[0].Mk? {
      ScanMarkerHead(toks, content);
    }
  }

  lemma ScanMarkerHead(toks: seq<Tok>, content: Content)
    requires toks != [] && toks[0].Mk?
    ensures Scan(toks, content) == content(toks[0].m) + Scan(After(toks, content(toks[0].m)), content)
  {
    var rest := After(toks, content(toks[0].m));
    assert StripsLine(toks, content(toks[0].m)) ==> content(toks[0].m) + Scan(rest, content) == Scan(rest, content);
  }

  /** Only the contents of the markers that occur matter. */
  lemma {:induction false} ScanAgrees(toks: seq<Tok>, one: Content, other: Content)
    requires forall i :: 0 <= i < |toks| && toks[i].Mk? ==> one(toks[i].m) == other(toks[i].m)
    ensures Scan(toks, one) == Scan(toks, other)
    decreases |toks|
  {
    hide Scan, MarkerText;
    if toks == [] {
      ScanEmpty(one);
      ScanEmpty(other);
    } else {
      ScanHead(toks, one);
      ScanHead(toks, other);
      var rest := if toks[0].Ch? then toks[1..] else After(toks, one(toks[0].m));
      ScanAgrees(rest, one, other);
    }
  }

  lemma {:induction false} BeforeIsStatic(toks: seq<Tok>)
    ensures forall i :: 0 <= i < |BeforeDynamic(toks)| && BeforeDynamic(toks)[i].Mk? ==>
              !IsDynamic(BeforeDynamic(toks)[i].m)
    decreases |toks|
  {
    if toks != [] {
      BeforeIsStatic(toks[1..]);
    }
  }

  lemma CacheSays(all: seq<Tok>, content: Content, system: System)
    requires Assembled(all, content, system)
    ensures Concat(CachePrefix(system)) == Scan(BeforeDynamic(all), content)
  {
    hide Scan, Concat, BeforeDynamic;
    NothingDynamic(all);
    if !HasDynamic(all) {
      assert BeforeDynamic(all) == all;
    }
  }

  /** The cached text never depends on the environment or on the text after the instructions. */
  lemma CacheIsStable(all: seq<Tok>, one: Content, other: Content, s1: System, s2: System)
    requires Assembled(all, one, s1) && Assembled(all, other, s2)
    requires forall m: Marker :: Name(m) != "environment" && Name(m) != "after_instructions" ==> one(m) == other(m)
    ensures Concat(CachePrefix(s1)) == Concat(CachePrefix(s2))
  {
    hide Scan, Concat, BeforeDynamic, IsDynamic, CachePrefix, Name;
    CacheSays(all, one, s1);
    CacheSays(all, other, s2);
    BeforeIsStatic(all);
    forall m: Marker ensures !IsDynamic(m) ==> one(m) == other(m) {
      DynamicNames(m);
    }
    ScanAgrees(BeforeDynamic(all), one, other);
  }

  /** The template's token `k` is the first of the two markers, or the template has neither and ends at `k`. */
  ghost predicate FirstDynamicAt(all: seq<Tok>, k: nat) {
    && k <= |all|
    && (forall i :: 0 <= i < k && all[i].Mk? ==> Name(all[i].m) !in ["environment", "after_instructions"])
    && (k < |all| ==> all[k].Mk? && Name(all[k].m) in ["environment", "after_instructions"])
  }

  /**
   As much as possible is cached: the blocks before the boundary are static and say all that comes
   before the first of the two markers, and there is a boundary exactly if there is such a marker.
   */
  lemma CacheIsLongest(all: seq<Tok>, content: Content, system: System, k: nat)
    requires Assembled(all, content, system) && FirstDynamicAt(all, k)
    ensures Concat(CachePrefix(system)) == Scan(all[..k], content)
    ensures system.boundary.Some? ==> system.boundary.value <= |system.blocks|
    ensures k < |all| <==> system.boundary.Some?
    ensures forall i :: 0 <= i < |system.blocks| && system.blocks[i].isDynamic ==>
              system.boundary.Some? && system.boundary.value <= i
  {
    hide Scan, Concat, BeforeDynamic, Name;
    CacheSays(all, content, system);
    FirstIs(all, k);
  }

  /** There is one such place in every template. */
  lemma {:induction false} FirstDynamicExists(all: seq<Tok>) returns (k: nat)
    ensures FirstDynamicAt(all, k)
    decreases |all|
  {
    hide Name;
    if all == [] || (all[0].Mk? && Name(all[0].m) in ["environment", "after_instructions"]) {
      k := 0;
    } else {
      k := FirstDynamicExists(all[1..]);
      assert forall i :: 0 < i < k + 1 ==> all[i] == all[1..][i - 1];
      k := k + 1;
    }
  }

  lemma {:induction false} FirstIs(all: seq<Tok>, k: nat)
    requires FirstDynamicAt(all, k)
    ensures BeforeDynamic(all) == all[..k]
    decreases |all|
  {
    hide Name, IsDynamic;
    if all != [] {
      if all[0].Mk? {
        DynamicNames(all[0].m);
      }
      if k > 0 {
        assert forall i :: 0 <= i < k - 1 ==> all[1..][i] == all[i + 1];
        FirstIs(all[1..], k - 1);
        assert all[..k] == [all[0]] + all[1..][..k - 1];
      }
    }
  }
}
