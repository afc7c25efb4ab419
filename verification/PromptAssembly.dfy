/** The two ways of filling a template mean the same, and exactly when. */
module PromptAssembly {
  import opened PromptTemplate

  /** Rendered slot contents and, under the last marker, the project instructions. */
  type Content = Marker -> string

  // ------------------------------------------------ replacement, on tokens

  function FillToks(toks: seq<Tok>, m: Marker, content: string): seq<Tok> {
    if content == "" then Sub(Sub(toks, m, "", true), m, "", false) else Sub(toks, m, content, false)
  }

  function Stage(toks: seq<Tok>, content: Content, j: nat): seq<Tok>
    requires j <= SLOTS
  {
    if j == 0 then toks else FillToks(Stage(toks, content, j - 1), j - 1, content(j - 1))
  }

  /** No text that replacement works on shows a marker that the template did not have. */
  ghost predicate MakesNoMarker(template: string, content: Content) {
    forall j :: 0 <= j <= SLOTS ==>
      Faithful(Stage(Tokens(template), content, j)) &&
      (j < SLOTS && content(j) == "" ==> Faithful(Sub(Stage(Tokens(template), content, j), j, "", true)))
  }

  lemma {:induction false} FilledTokens(template: string, content: Content, j: nat)
    requires MakesNoMarker(template, content) && j <= SLOTS
    ensures Filled(template, content, j) == Text(Stage(Tokens(template), content, j))
  {
    if j == 0 {
      TextOfTokens(template);
    } else {
      FilledTokens(template, content, j - 1);
      var toks := Stage(Tokens(template), content, j - 1);
      var m: Marker := j - 1;
      if content(m) == "" {
        ReplaceTokens(toks, m, "", true);
        ReplaceTokens(Sub(toks, m, "", true), m, "", false);
      } else {
        ReplaceTokens(toks, m, content(m), false);
      }
      assert MarkerText(m) + "" == MarkerText(m);
    }
  }

  // -------------------------------------------------------- the single scan

  predicate StripsLine(toks: seq<Tok>, content: string)
    requires toks != []
  {
    content == "" && |toks| > 1 && toks[1] == Ch('\n')
  }

  /** What a scan of the template emits: an empty marker takes its newline with it. */
  function Scan(toks: seq<Tok>, content: Content): string {
    if toks == [] then ""
    else if toks[0].Ch? then [toks[0].c] + Scan(toks[1..], content)
    else if StripsLine(toks, content(toks[0].m)) then Scan(toks[2..], content)
    else content(toks[0].m) + Scan(toks[1..], content)
  }

  predicate StartsLine(toks: seq<Tok>) { toks != [] && toks[0] == Ch('\n') }

  /**
   What is left once the slots below `j` are replaced, from right to left: an empty slot takes the
   newline that stands at the front of what follows it at the time it is replaced, that is, once
   the slots before it in the order of replacement are filled.
   */
  function Partial(toks: seq<Tok>, content: Content, j: nat): seq<Tok>
    decreases |toks|
  {
    if toks == [] then []
    else
      var rest := Partial(toks[1..], content, j);
      if toks[0].Ch? || toks[0].m >= j then [toks[0]] + rest
      else if content(toks[0].m) != "" then Chars(content(toks[0].m)) + rest
      else if TakesNewline(toks, content) && rest != [] then rest[1..]
      else rest
  }

  /** The newline an empty slot finds behind it when its turn comes. */
  predicate TakesNewline(toks: seq<Tok>, content: Content)
    requires toks != [] && toks[0].Mk?
    decreases |toks|, 0
  {
    StartsLine(Partial(toks[1..], content, toks[0].m))
  }

  function Strip(toks: seq<Tok>, m: Marker): seq<Tok>
    decreases |toks|
  {
    if toks == [] then []
    else if toks[0] == Mk(m) then Strip(if |toks| > 1 && toks[1] == Ch('\n') then toks[2..] else toks[1..], m)
    else [toks[0]] + Strip(toks[1..], m)
  }

  /** Dropping marker lines and then the remaining markers is one pass. */
  lemma {:induction false} StripIsTwoPasses(toks: seq<Tok>, m: Marker)
    ensures Sub(Sub(toks, m, "", true), m, "", false) == Strip(toks, m)
    decreases |toks|
  {
    if toks != [] {
      if toks[0] == Mk(m) && |toks| > 1 && toks[1] == Ch('\n') {
        StripIsTwoPasses(toks[2..], m);
        assert Chars("") + Sub(toks[2..], m, "", true) == Sub(toks[2..], m, "", true);
      } else {
        StripIsTwoPasses(toks[1..], m);
        var rest := Sub(toks[1..], m, "", true);
        assert ([toks[0]] + rest)[1..] == rest;
        assert Chars("") + Sub(rest, m, "", false) == Sub(rest, m, "", false);
      }
    }
  }

  lemma {:induction false} SubChars(s: string, rest: seq<Tok>, m: Marker, rep: string)
    ensures Sub(Chars(s) + rest, m, rep, false) == Chars(s) + Sub(rest, m, rep, false)
    decreases |s|
  {
    if s == "" {
      assert Chars(s) + rest == rest;
    } else {
      CharsHead(s, rest);
      SubChars(s[1..], rest, m, rep);
    }
  }

  lemma {:induction false} StripChars(s: string, rest: seq<Tok>, m: Marker)
    ensures Strip(Chars(s) + rest, m) == Chars(s) + Strip(rest, m)
    decreases |s|
  {
    if s == "" {
      assert Chars(s) + rest == rest;
    } else {
      CharsHead(s, rest);
      StripChars(s[1..], rest, m);
    }
  }

  lemma CharsHead(s: string, rest: seq<Tok>)
    requires s != ""
    ensures Chars(s) == [Ch(s[0])] + Chars(s[1..])
    ensures (Chars(s) + rest)[0] == Ch(s[0]) && (Chars(s) + rest)[1..] == Chars(s[1..]) + rest
  {
  }

  lemma FillCons(t: Tok, rest: seq<Tok>, m: Marker, content: string)
    requires t != Mk(m)
    ensures FillToks([t] + rest, m, content) == [t] + FillToks(rest, m, content)
  {
    assert ([t] + rest)[1..] == rest;
    StripIsTwoPasses([t] + rest, m);
    StripIsTwoPasses(rest, m);
  }

  lemma FillChars(s: string, rest: seq<Tok>, m: Marker, content: string)
    ensures FillToks(Chars(s) + rest, m, content) == Chars(s) + FillToks(rest, m, content)
  {
    StripIsTwoPasses(Chars(s) + rest, m);
    StripIsTwoPasses(rest, m);
    SubChars(s, rest, m, content);
    StripChars(s, rest, m);
  }

  lemma FillHead(rest: seq<Tok>, m: Marker, content: string)
    ensures FillToks([Mk(m)] + rest, m, content) ==
      if content == "" then FillToks(if rest != [] && rest[0] == Ch('\n') then rest[1..] else rest, m, content)
      else Chars(content) + FillToks(rest, m, content)
  {
    var toks := [Mk(m)] + rest;
    assert toks[1..] == rest;
    StripIsTwoPasses(toks, m);
    StripIsTwoPasses(rest, m);
    if rest != [] {
      assert toks[2..] == rest[1..];
      StripIsTwoPasses(rest[1..], m);
    }
  }

  /** A character at the front stays there. */
  lemma FillKeepsHead(toks: seq<Tok>, m: Marker, content: string)
    requires toks != [] && toks[0].Ch?
    ensures FillToks(toks, m, content) == [toks[0]] + FillToks(toks[1..], m, content)
  {
    assert toks == [toks[0]] + toks[1..];
    FillCons(toks[0], toks[1..], m, content);
  }

  /** Replacing the next slot in what the slots before it left. */
  lemma {:induction false} NextSlot(toks: seq<Tok>, content: Content, j: Marker)
    requires j < SLOTS
    ensures FillToks(Partial(toks, content, j), j, content(j)) == Partial(toks, content, j + 1)
    decreases |toks|, 1, j
  {
    hide FillToks, TakesNewline;
    if toks == [] {
      FillNothing(j, content(j));
    } else {
      var t := toks[0];
      var rest := Partial(toks[1..], content, j);
      NextSlot(toks[1..], content, j);
      if t.Mk? && t.m < j {
        if content(t.m) != "" {
          FillChars(content(t.m), rest, j, content(j));
        } else {
          NewlineStays(toks, content, j);
          if TakesNewline(toks, content) {
            FillKeepsHead(rest, j, content(j));
          }
        }
      } else if t == Mk(j) {
        FillHead(rest, j, content(j));
        TakesIff(toks, content);
        if StartsLine(rest) {
          FillKeepsHead(rest, j, content(j));
        }
      } else {
        FillCons(t, rest, j, content(j));
      }
    }
  }

  lemma TakesIff(toks: seq<Tok>, content: Content)
    requires toks != [] && toks[0].Mk?
    ensures TakesNewline(toks, content) <==> StartsLine(Partial(toks[1..], content, toks[0].m))
  {
  }

  lemma FillNothing(m: Marker, content: string)
    ensures FillToks([], m, content) == []
  {
    StripIsTwoPasses([], m);
  }

  /** A newline that an empty slot takes is at the front until the slot is gone. */
  lemma {:induction false} NewlineStays(toks: seq<Tok>, content: Content, j: nat)
    requires toks != [] && toks[0].Mk? && toks[0].m <= j <= SLOTS
    ensures TakesNewline(toks, content) ==> StartsLine(Partial(toks[1..], content, j))
    decreases |toks|, 0, j
  {
    TakesIff(toks, content);
    if toks[0].m < j {
      NewlineStays(toks, content, j - 1);
      NextSlot(toks[1..], content, j - 1);
      var before := Partial(toks[1..], content, j - 1);
      if StartsLine(before) {
        FillKeepsHead(before, j - 1, content(j - 1));
      }
    }
  }

  lemma {:induction false} StagesArePartial(toks: seq<Tok>, content: Content, j: nat)
    requires j <= SLOTS
    ensures Stage(toks, content, j) == Partial(toks, content, j)
  {
    if j == 0 {
      PartialNone(toks, content);
    } else {
      StagesArePartial(toks, content, j - 1);
      NextSlot(toks, content, j - 1);
    }
  }

  lemma {:induction false} PartialNone(toks: seq<Tok>, content: Content)
    ensures Partial(toks, content, 0) == toks
    decreases |toks|
  {
    if toks != [] {
      PartialNone(toks[1..], content);
    }
  }

  // ------------------------------------------------ both forms, side by side

  /** One character of the text, and which of the two forms emits it. */
  datatype Item = Item(c: char, replaced: bool, scanned: bool)

  function Both(s: string): seq<Item> { seq(|s|, i requires 0 <= i < |s| => Item(s[i], true, true)) }

  /** Replacement gives up the first character it would still emit. */
  function GiveUpFirst(items: seq<Item>): seq<Item> {
    if items == [] then []
    else if items[0].replaced then [items[0].(replaced := false)] + items[1..]
    else [items[0]] + GiveUpFirst(items[1..])
  }

  /**
   The two forms on one template. They part in two places: after empty instructions only the scan
   takes the newline; and an empty slot whose newline is not directly behind it loses it only to
   replacement.
   */
  function Items(toks: seq<Tok>, content: Content): seq<Item>
    decreases |toks|
  {
    if toks == [] then []
    else if toks[0].Ch? then [Item(toks[0].c, true, true)] + Items(toks[1..], content)
    else if StripsLine(toks, content(toks[0].m)) then
      (if toks[0].m == INSTRUCTIONS then [Item('\n', true, false)] else []) + Items(toks[2..], content)
    else if TakesFarNewline(toks, content) then GiveUpFirst(Items(toks[1..], content))
    else Both(content(toks[0].m)) + Items(toks[1..], content)
  }

  /** An empty slot takes a newline that is not directly behind it. */
  predicate TakesFarNewline(toks: seq<Tok>, content: Content)
    requires toks != [] && toks[0].Mk?
  {
    toks[0].m < SLOTS && content(toks[0].m) == "" && !StripsLine(toks, "") && TakesNewline(toks, content)
  }

  function Replaced(items: seq<Item>): string {
    if items == [] then "" else (if items[0].replaced then [items[0].c] else "") + Replaced(items[1..])
  }

  function Scanned(items: seq<Item>): string {
    if items == [] then "" else (if items[0].scanned then [items[0].c] else "") + Scanned(items[1..])
  }

  /** How many of those newlines each form gives up to the other. */
  function Extra(toks: seq<Tok>, content: Content): nat {
    if toks == [] then 0
    else (if toks[0].Mk? && TakesFarNewline(toks, content) then 1 else 0) + Extra(toks[1..], content)
  }

  function InstructionLines(toks: seq<Tok>): nat {
    if toks == [] then 0
    else (if toks[0] == Mk(INSTRUCTIONS) && StripsLine(toks, "") then 1 else 0) + InstructionLines(toks[1..])
  }

  function Kept(toks: seq<Tok>, content: Content): nat {
    if content(INSTRUCTIONS) == "" then InstructionLines(toks) else 0
  }

  lemma ItemsHead(item: Item, rest: seq<Item>)
    ensures Replaced([item] + rest) == (if item.replaced then [item.c] else "") + Replaced(rest)
    ensures Scanned([item] + rest) == (if item.scanned then [item.c] else "") + Scanned(rest)
  {
    assert ([item] + rest)[1..] == rest;
  }

  lemma {:induction false} BothAppend(s: string, rest: seq<Item>)
    ensures Replaced(Both(s) + rest) == s + Replaced(rest) && Scanned(Both(s) + rest) == s + Scanned(rest)
    decreases |s|
  {
    hide Replaced, Scanned;
    if s == "" {
      assert Both(s) + rest == rest;
    } else {
      var more := Both(s[1..]) + rest;
      assert Both(s) + rest == [Item(s[0], true, true)] + more;
      ItemsHead(Item(s[0], true, true), more);
      BothAppend(s[1..], rest);
      Regroup([s[0]], s[1..], Replaced(rest));
      Regroup([s[0]], s[1..], Scanned(rest));
      assert [s[0]] + s[1..] == s;
    }
  }

  lemma {:induction false} GivesUpFirst(items: seq<Item>)
    ensures Scanned(GiveUpFirst(items)) == Scanned(items)
    ensures Replaced(GiveUpFirst(items)) == if Replaced(items) == "" then "" else Replaced(items)[1..]
    decreases |items|
  {
    if items != [] {
      var tail := items[1..];
      if items[0].replaced {
        assert ([items[0].(replaced := false)] + tail)[1..] == tail;
      } else {
        GivesUpFirst(tail);
        assert ([items[0]] + GiveUpFirst(tail))[1..] == GiveUpFirst(tail);
      }
    }
  }

  /** The scan emits what the items say. */
  lemma {:induction false} ItemsScan(toks: seq<Tok>, content: Content)
    ensures Scanned(Items(toks, content)) == Scan(toks, content)
    decreases |toks|
  {
    hide TakesFarNewline, MarkerText;
    if toks != [] {
      var t := toks[0];
      if t.Ch? {
        ItemsScan(toks[1..], content);
        ItemsHead(Item(t.c, true, true), Items(toks[1..], content));
      } else if StripsLine(toks, content(t.m)) {
        ItemsScan(toks[2..], content);
        assert [] + Items(toks[2..], content) == Items(toks[2..], content);
        ItemsHead(Item('\n', true, false), Items(toks[2..], content));
      } else {
        ItemsScan(toks[1..], content);
        FarMeansEmpty(toks, content);
        GivesUpFirst(Items(toks[1..], content));
        BothAppend(content(t.m), Items(toks[1..], content));
      }
    }
  }

  lemma FarMeansEmpty(toks: seq<Tok>, content: Content)
    requires toks != [] && toks[0].Mk?
    ensures TakesFarNewline(toks, content) ==>
              toks[0].m < SLOTS && content(toks[0].m) == "" && StartsLine(Partial(toks[1..], content, SLOTS))
  {
    if TakesFarNewline(toks, content) {
      NewlineStays(toks, content, SLOTS);
    }
  }

  /** What replacement ends with: the slots filled, then the instructions. */
  function Final(toks: seq<Tok>, content: Content): string {
    Text(Sub(Partial(toks, content, SLOTS), INSTRUCTIONS, content(INSTRUCTIONS), false))
  }

  /** Replacing the instructions, one token at a time. */
  lemma LastCons(t: Tok, rest: seq<Tok>, rep: string)
    ensures Text(Sub([t] + rest, INSTRUCTIONS, rep, false)) ==
            (if t == Mk(INSTRUCTIONS) then rep else TextOf(t)) + Text(Sub(rest, INSTRUCTIONS, rep, false))
  {
    hide MarkerText;
    assert ([t] + rest)[1..] == rest;
    var more := Sub(rest, INSTRUCTIONS, rep, false);
    if t == Mk(INSTRUCTIONS) {
      TextAppend(Chars(rep), more);
      TextOfChars(rep);
    } else {
      assert ([t] + more)[1..] == more;
    }
  }

  lemma LastChars(s: string, rest: seq<Tok>, rep: string)
    ensures Text(Sub(Chars(s) + rest, INSTRUCTIONS, rep, false)) == s + Text(Sub(rest, INSTRUCTIONS, rep, false))
  {
    SubChars(s, rest, INSTRUCTIONS, rep);
    TextAppend(Chars(s), Sub(rest, INSTRUCTIONS, rep, false));
    TextOfChars(s);
  }

  lemma LastAfterNewline(toks: seq<Tok>, rep: string)
    requires StartsLine(toks)
    ensures var all := Text(Sub(toks, INSTRUCTIONS, rep, false));
            all != "" && all[0] == '\n' && all[1..] == Text(Sub(toks[1..], INSTRUCTIONS, rep, false))
  {
    assert toks == [Ch('\n')] + toks[1..];
    LastCons(Ch('\n'), toks[1..], rep);
  }

  /** One token of the template in the final text. */
  lemma FinalHead(toks: seq<Tok>, content: Content)
    requires toks != []
    ensures var rest := Final(toks[1..], content);
            Final(toks, content) ==
            if toks[0].Ch? then [toks[0].c] + rest
            else if content(toks[0].m) != "" || toks[0].m == INSTRUCTIONS then content(toks[0].m) + rest
            else if TakesNewline(toks, content) then (if rest == "" then "" else rest[1..]) else rest
    ensures toks[0].Mk? && toks[0].m < SLOTS && TakesNewline(toks, content) ==>
              Final(toks[1..], content) != "" && Final(toks[1..], content)[0] == '\n'
  {
    hide Sub, Text, TakesNewline, MarkerText;
    var rest := Partial(toks[1..], content, SLOTS);
    var rep := content(INSTRUCTIONS);
    if toks[0].Ch? || toks[0].m == INSTRUCTIONS {
      LastCons(toks[0], rest, rep);
    } else {
      LastChars(content(toks[0].m), rest, rep);
      NewlineStays(toks, content, SLOTS);
      if TakesNewline(toks, content) {
        LastAfterNewline(rest, rep);
      }
    }
  }

  /** A slot whose newline is directly behind it takes that one. */
  lemma NearNewline(toks: seq<Tok>, content: Content)
    requires toks != [] && toks[0].Mk? && StripsLine(toks, "")
    ensures TakesNewline(toks, content)
    ensures Final(toks[1..], content) == "\n" + Final(toks[2..], content)
  {
    hide MarkerText;
    assert toks[1..][1..] == toks[2..];
    FinalHead(toks[1..], content);
  }

  /** Replacement emits what the items say. */
  lemma {:induction false} ItemsReplace(toks: seq<Tok>, content: Content)
    ensures Replaced(Items(toks, content)) == Final(toks, content)
    decreases |toks|
  {
    hide Final, TakesNewline, MarkerText;
    if toks == [] {
      FinalNothing(content);
    } else {
      var t := toks[0];
      FinalHead(toks, content);
      ItemsReplace(toks[1..], content);
      if t.Ch? {
        ItemsHead(Item(t.c, true, true), Items(toks[1..], content));
      } else if StripsLine(toks, content(t.m)) {
        ItemsReplace(toks[2..], content);
        NearNewline(toks, content);
        assert [] + Items(toks[2..], content) == Items(toks[2..], content);
        ItemsHead(Item('\n', true, false), Items(toks[2..], content));
      } else {
        GivesUpFirst(Items(toks[1..], content));
        BothAppend(content(t.m), Items(toks[1..], content));
      }
    }
  }

  lemma FinalNothing(content: Content)
    ensures Final([], content) == ""
  {
  }

  /** Only newlines are ever given up. */
  ghost predicate OnlyNewlines(items: seq<Item>) {
    forall i :: 0 <= i < |items| && !(items[i].replaced && items[i].scanned) ==> items[i].c == '\n'
  }

  lemma {:induction false} GivesUpNewline(items: seq<Item>)
    requires OnlyNewlines(items) && (Replaced(items) != "" ==> Replaced(items)[0] == '\n')
    ensures OnlyNewlines(GiveUpFirst(items))
    decreases |items|
  {
    if items != [] && !items[0].replaced {
      GivesUpNewline(items[1..]);
    }
  }

  lemma {:induction false} ItemsGiveUpNewlines(toks: seq<Tok>, content: Content)
    ensures OnlyNewlines(Items(toks, content))
    decreases |toks|
  {
    hide TakesNewline, MarkerText, Final;
    if toks != [] {
      ItemsGiveUpNewlines(toks[1..], content);
      if toks[0].Mk? {
        if StripsLine(toks, content(toks[0].m)) {
          ItemsGiveUpNewlines(toks[2..], content);
        } else if TakesFarNewline(toks, content) {
          ItemsReplace(toks[1..], content);
          FinalHead(toks, content);
          GivesUpNewline(Items(toks[1..], content));
        }
      }
    }
  }

  // ------------------------------------------------------- exactly when equal

  /**
   Between any two characters that are not newlines, and at both ends, the forms give up equally
   many newlines; `d` is how many more replacement has given up so far.
   */
  predicate Even(items: seq<Item>, d: int) {
    if items == [] then d == 0
    else
      var item := items[0];
      if item.replaced && item.scanned then (item.c == '\n' || d == 0) && Even(items[1..], d)
      else Even(items[1..], d + (if item.replaced then 0 else 1) - (if item.scanned then 0 else 1))
  }

  function Newlines(n: nat): string { seq(n, _ => '\n') }

  lemma NewlinesFirst(n: nat, s: string)
    ensures Newlines(n) + ("\n" + s) == Newlines(n + 1) + s == "\n" + (Newlines(n) + s)
  {
  }

  /** Equal once the side that is behind has its newlines back. */
  predicate Level(d: int, r: string, c: string) {
    Newlines(if d < 0 then -d else 0) + r == Newlines(if d > 0 then d else 0) + c
  }

  lemma LevelBoth(d: int, r: string, c: string)
    ensures Level(d, "\n" + r, "\n" + c) <==> Level(d, r, c)
  {
    var a: nat, b: nat := if d < 0 then -d else 0, if d > 0 then d else 0;
    NewlinesFirst(a, r);
    NewlinesFirst(b, c);
    SameHead('\n', Newlines(a) + r, Newlines(b) + c);
  }

  lemma LevelOther(d: int, ch: char, r: string, c: string)
    requires ch != '\n'
    ensures Level(d, [ch] + r, [ch] + c) <==> d == 0 && Level(0, r, c)
  {
    OtherHead(ch, if d < 0 then -d else 0, r, if d > 0 then d else 0, c);
    assert Newlines(0) + r == r && Newlines(0) + c == c;
  }

  lemma LevelReplaced(d: int, r: string, c: string)
    ensures Level(d, "\n" + r, c) <==> Level(d - 1, r, c)
  {
    if d > 0 {
      NewlinesFirst(0, r);
      NewlinesFirst(d - 1, c);
      SameHead('\n', Newlines(0) + r, Newlines(d - 1) + c);
    } else {
      NewlinesFirst(-d, r);
    }
  }

  lemma LevelScanned(d: int, r: string, c: string)
    ensures Level(d, r, "\n" + c) <==> Level(d + 1, r, c)
  {
    if d < 0 {
      NewlinesFirst(0, c);
      NewlinesFirst(-d - 1, r);
      SameHead('\n', Newlines(-d - 1) + r, Newlines(0) + c);
    } else {
      NewlinesFirst(d, c);
    }
  }

  lemma LevelNothing(d: int)
    ensures Level(d, "", "") <==> d == 0
  {
    assert |Newlines(if d < 0 then -d else 0) + ""| == if d < 0 then -d else 0;
    assert |Newlines(if d > 0 then d else 0) + ""| == if d > 0 then d else 0;
  }

  lemma {:induction false} EvenIff(items: seq<Item>, d: int)
    requires OnlyNewlines(items)
    ensures Even(items, d) <==> Level(d, Replaced(items), Scanned(items))
    decreases |items|
  {
    hide Level;
    if items == [] {
      LevelNothing(d);
    } else {
      var item, rest := items[0], items[1..];
      var r, c := Replaced(rest), Scanned(rest);
      assert OnlyNewlines(rest) by {
        assert forall i :: 0 <= i < |rest| ==> rest[i] == items[i + 1];
      }
      EvenIff(rest, d + (if item.replaced then 0 else 1) - (if item.scanned then 0 else 1));
      if item.replaced && item.scanned {
        LevelBoth(d, r, c);
        if item.c != '\n' {
          LevelOther(d, item.c, r, c);
        }
      } else if item.replaced {
        LevelReplaced(d, r, c);
      } else if item.scanned {
        LevelScanned(d, r, c);
      } else {
        assert "" + r == r && "" + c == c;
      }
    }
  }

  lemma SameHead(c: char, x: string, y: string)
    ensures [c] + x == [c] + y <==> x == y
  {
    assert ([c] + x)[1..] == x && ([c] + y)[1..] == y;
  }

  lemma OtherHead(c: char, a: nat, x: string, b: nat, y: string)
    requires c != '\n' && (a == 0 || b == 0)
    ensures Newlines(a) + ([c] + x) == Newlines(b) + ([c] + y) <==> a == b == 0 && x == y
  {
    var l, r := Newlines(a) + ([c] + x), Newlines(b) + ([c] + y);
    assert a > 0 ==> l[0] == '\n' && r[0] == c;
    assert b > 0 ==> r[0] == '\n' && l[0] == c;
    if a == b == 0 {
      assert l == [c] + x && r == [c] + y;
      SameHead(c, x, y);
    }
  }

  /** What `assemble` returns, as its method is specified. */
  function Assembled(template: string, content: Content): string {
    Replace(Filled(template, content, SLOTS), MarkerText(INSTRUCTIONS), content(INSTRUCTIONS))
  }

  lemma AssembledIsFinal(template: string, content: Content)
    requires MakesNoMarker(template, content)
    ensures Assembled(template, content) == Final(Tokens(template), content)
  {
    var toks := Tokens(template);
    FilledTokens(template, content, SLOTS);
    StagesArePartial(toks, content, SLOTS);
    assert Faithful(Stage(toks, content, SLOTS));
    ReplaceTokens(Partial(toks, content, SLOTS), INSTRUCTIONS, content(INSTRUCTIONS), false);
    assert MarkerText(INSTRUCTIONS) + "" == MarkerText(INSTRUCTIONS);
  }

  /**
   For every template and contents where no substitution makes a marker, repeated replacement and
   the single scan agree if and only if each gives up as many newlines as the other wherever they
   differ.
   */
  lemma AssembleAgreesWithScan(template: string, content: Content)
    requires MakesNoMarker(template, content)
    ensures Assembled(template, content) == Scan(Tokens(template), content) <==> Even(Items(Tokens(template), content), 0)
  {
    hide Assembled, Scan, Items, Even, Final, MakesNoMarker, Tokens;
    var toks := Tokens(template);
    AssembledIsFinal(template, content);
    ItemsReplace(toks, content);
    ItemsScan(toks, content);
    ItemsGiveUpNewlines(toks, content);
    EvenIff(Items(toks, content), 0);
    assert Newlines(0) + Final(toks, content) == Final(toks, content);
    assert Newlines(0) + Scan(toks, content) == Scan(toks, content);
  }

  lemma {:induction false} FinalLength(toks: seq<Tok>, content: Content)
    ensures |Final(toks, content)| + Extra(toks, content) == |Scan(toks, content)| + Kept(toks, content)
    ensures Extra(toks, content) == Kept(toks, content) == 0 ==> Final(toks, content) == Scan(toks, content)
    decreases |toks|
  {
    hide Final, TakesNewline, MarkerText;
    if toks == [] {
      FinalNothing(content);
    } else {
      FinalHead(toks, content);
      FinalLength(toks[1..], content);
      if toks[0].Mk? && StripsLine(toks, content(toks[0].m)) {
        FinalLength(toks[2..], content);
        NearNewline(toks, content);
        assert toks[1..][1..] == toks[2..];
      }
    }
  }

  /**
   The lengths differ by exactly the newlines given up on either side; so where only one side
   gives any up, the forms agree if and only if neither does.
   */
  lemma AssembledLength(template: string, content: Content)
    requires MakesNoMarker(template, content)
    ensures var extra, kept := Extra(Tokens(template), content), Kept(Tokens(template), content);
            |Assembled(template, content)| + extra == |Scan(Tokens(template), content)| + kept &&
            (extra == 0 || kept == 0 ==>
               (Assembled(template, content) == Scan(Tokens(template), content) <==> extra == kept == 0))
  {
    hide Assembled, Scan, Final, Extra, Kept, MakesNoMarker;
    AssembledIsFinal(template, content);
    FinalLength(Tokens(template), content);
  }

  // ------------------------------------------- a condition a caller can check

  /** No opening brace directly before another or before a marker. */
  predicate Neat(afterBrace: bool, toks: seq<Tok>)
    decreases |toks|
  {
    toks == [] ||
    if toks[0].Mk? then !afterBrace && Neat(false, toks[1..])
    else if toks[0].c == '{' then !afterBrace && Neat(true, toks[1..])
    else Neat(false, toks[1..])
  }

  predicate NeatContent(s: string) { Neat(false, Chars(s)) && (s == "" || s[|s| - 1] != '{') }

  lemma {:induction false} NeatChars(afterBrace: bool, s: string)
    ensures Neat(afterBrace, Chars(s)) <==>
            !(afterBrace && s != "" && s[0] == '{') && forall i :: 0 <= i < |s| - 1 ==> s[i] != '{' || s[i + 1] != '{'
    decreases |s|
  {
    if s != "" {
      assert Chars(s)[1..] == Chars(s[1..]);
      NeatChars(s[0] == '{', s[1..]);
      assert forall i :: 1 <= i < |s| - 1 ==> s[i] == s[1..][i - 1] && s[i + 1] == s[1..][i];
    }
  }

  /** Such contents are easily checked: no two opening braces together, and none at the end. */
  lemma NeatContentIff(s: string)
    ensures NeatContent(s) <==>
            (forall i :: 0 <= i < |s| - 1 ==> s[i] != '{' || s[i + 1] != '{') && (s == "" || s[|s| - 1] != '{')
  {
    NeatChars(false, s);
  }

  lemma {:induction false} NeatFaithful(afterBrace: bool, toks: seq<Tok>)
    requires Neat(afterBrace, toks)
    ensures Faithful(toks)
    decreases |toks|
  {
    if toks != [] {
      var s := Text(toks);
      var rest := Text(toks[1..]);
      assert s[|TextOf(toks[0])|..] == rest;
      if toks[0].Mk? {
        NeatFaithful(false, toks[1..]);
        MarkerUnique(s, toks[0].m, MarkerAt(s).value);
      } else {
        var brace := toks[0].c == '{';
        NeatFaithful(brace, toks[1..]);
        NeatHead(toks[1..], brace);
        assert rest != "" ==> s[1] == rest[0];
        forall m: Marker ensures !(MarkerText(m) <= s) {
          assert MarkerText(m)[0] == '{' && MarkerText(m)[1] == '{';
        }
      }
    }
  }

  lemma NeatHead(toks: seq<Tok>, afterBrace: bool)
    requires Neat(afterBrace, toks)
    ensures afterBrace && Text(toks) != "" ==> Text(toks)[0] != '{'
  {
  }

  lemma {:induction false} NeatAppend(afterBrace: bool, s: string, rest: seq<Tok>)
    requires Neat(afterBrace, Chars(s)) && (s != "" ==> s[|s| - 1] != '{')
    requires Neat(if s == "" then afterBrace else false, rest)
    ensures Neat(afterBrace, Chars(s) + rest)
    decreases |s|
  {
    if s == "" {
      assert Chars(s) + rest == rest;
    } else {
      CharsHead(s, rest);
      CharsHead(s, []);
      assert Chars(s)[1..] == Chars(s[1..]);
      NeatAppend(s[0] == '{', s[1..], rest);
    }
  }

  lemma {:induction false} NeatSub(afterBrace: bool, toks: seq<Tok>, m: Marker, rep: string, nl: bool)
    requires Neat(afterBrace, toks) && NeatContent(rep)
    ensures Neat(afterBrace, Sub(toks, m, rep, nl))
    decreases |toks|
  {
    if toks != [] {
      if toks[0] == Mk(m) && (!nl || (|toks| > 1 && toks[1] == Ch('\n'))) {
        var rest := toks[if nl then 2 else 1..];
        assert nl ==> toks[1..][1..] == rest;
        NeatSub(false, rest, m, rep, nl);
        assert !afterBrace;
        NeatAppend(false, rep, Sub(rest, m, rep, nl));
      } else {
        NeatSub(toks[0] == Ch('{'), toks[1..], m, rep, nl);
        var more := Sub(toks[1..], m, rep, nl);
        assert ([toks[0]] + more)[1..] == more;
      }
    }
  }

  lemma NeatFill(toks: seq<Tok>, m: Marker, content: string)
    requires Neat(false, toks) && NeatContent(content)
    ensures Neat(false, FillToks(toks, m, content))
  {
    if content == "" {
      NeatSub(false, toks, m, "", true);
      NeatSub(false, Sub(toks, m, "", true), m, "", false);
    } else {
      NeatSub(false, toks, m, content, false);
    }
  }

  lemma {:induction false} NeatStage(toks: seq<Tok>, content: Content, j: nat)
    requires j <= SLOTS && Neat(false, toks) && forall m: Marker :: m < SLOTS ==> NeatContent(content(m))
    ensures Neat(false, Stage(toks, content, j))
  {
    hide Neat, NeatContent, FillToks;
    if j > 0 {
      NeatStage(toks, content, j - 1);
      NeatFill(Stage(toks, content, j - 1), j - 1, content(j - 1));
    }
  }

  /**
   If the template never has an opening brace directly before another or before a marker, and
   no slot content has two in a row or one at its end, then nothing substituted makes a marker.
   */
  lemma NeatMakesNoMarker(template: string, content: Content)
    requires Neat(false, Tokens(template)) && forall m: Marker :: m < SLOTS ==> NeatContent(content(m))
    ensures MakesNoMarker(template, content)
  {
    var toks := Tokens(template);
    forall j: nat | j <= SLOTS
      ensures Faithful(Stage(toks, content, j))
      ensures j < SLOTS && content(j) == "" ==> Faithful(Sub(Stage(toks, content, j), j, "", true))
    {
      NeatStage(toks, content, j);
      NeatFaithful(false, Stage(toks, content, j));
      if j < SLOTS && content(j) == "" {
        NeatSub(false, Stage(toks, content, j), j, "", true);
        NeatFaithful(false, Sub(Stage(toks, content, j), j, "", true));
      }
    }
  }

  // ------------------------------------------------------ where they part

  const EMPTY: Content := _ => ""

  lemma EmptyIsNeat()
    ensures forall m: Marker :: m < SLOTS ==> NeatContent(EMPTY(m))
  {
    assert Chars("") == [];
  }

  lemma NeatTemplate(toks: seq<Tok>)
    requires Neat(false, toks)
    ensures Tokens(Text(toks)) == toks && MakesNoMarker(Text(toks), EMPTY)
  {
    NeatFaithful(false, toks);
    EmptyIsNeat();
    NeatMakesNoMarker(Text(toks), EMPTY);
  }

  /** Two empty slots side by side in the reverse order of replacement, then two newlines. */
  const REVERSED: seq<Tok> := [Mk(1), Mk(0), Ch('\n'), Ch('\n')]

  lemma ReversedText()
    ensures Text(REVERSED) == "{{tone}}{{identity}}\n\n"
  {
    hide MarkerText;
    TextAppend([Mk(1)], [Mk(0)] + Chars("\n\n"));
    TextAppend([Mk(0)], Chars("\n\n"));
    TextOfChars("\n\n");
    OneMarker(1);
    OneMarker(0);
    assert REVERSED == [Mk(1)] + ([Mk(0)] + Chars("\n\n"));
    TwoNames();
    assert "{{tone}}" + ("{{identity}}" + "\n\n") == "{{tone}}{{identity}}\n\n";
  }

  lemma OneMarker(m: Marker)
    ensures Text([Mk(m)]) == MarkerText(m)
  {
    hide MarkerText;
    assert [Mk(m)][1..] == [] && MarkerText(m) + "" == MarkerText(m);
  }

  lemma TwoNames()
    ensures MarkerText(0) == "{{identity}}" && MarkerText(1) == "{{tone}}"
  {
  }

  lemma ReversedExtra()
    ensures Extra(REVERSED, EMPTY) == 1 && Kept(REVERSED, EMPTY) == 0 && Neat(false, REVERSED)
  {
    hide MarkerText;
    var a := REVERSED[1..];
    var b := a[1..];
    var c := b[1..];
    assert a == [Mk(0), Ch('\n'), Ch('\n')] && b == [Ch('\n'), Ch('\n')] && c == [Ch('\n')] && c[1..] == [];
    assert forall j: nat :: Partial(c, EMPTY, j) == [Ch('\n')];
    assert forall j: nat :: Partial(b, EMPTY, j) == [Ch('\n'), Ch('\n')];
    assert TakesNewline(a, EMPTY) && StripsLine(a, "");
    assert Partial(a, EMPTY, 1) == [Ch('\n')];
    assert TakesFarNewline(REVERSED, EMPTY);
    assert Extra(c, EMPTY) == 0 && Extra(b, EMPTY) == 0 && Extra(a, EMPTY) == 0;
    assert InstructionLines(c) == 0 && InstructionLines(b) == 0 && InstructionLines(a) == 0;
    assert Neat(false, c) && Neat(false, b) && Neat(false, a);
  }

  /** Replacement takes both newlines, the scan only one. */
  lemma AdjacentMarkersDiffer()
    ensures var template := "{{tone}}{{identity}}\n\n";
            MakesNoMarker(template, EMPTY) && Assembled(template, EMPTY) != Scan(Tokens(template), EMPTY)
  {
    hide Assembled, Scan, Extra, Kept, MakesNoMarker, Text, Neat, Tokens;
    ReversedText();
    ReversedExtra();
    NeatTemplate(REVERSED);
    AssembledLength(Text(REVERSED), EMPTY);
  }

  const INSTRUCTIONS_LINE: seq<Tok> := [Mk(INSTRUCTIONS), Ch('\n')]

  lemma InstructionsLineFacts()
    ensures Text(INSTRUCTIONS_LINE) == "{{instructions}}\n" && Neat(false, INSTRUCTIONS_LINE)
    ensures Extra(INSTRUCTIONS_LINE, EMPTY) == 0 && Kept(INSTRUCTIONS_LINE, EMPTY) == 1
  {
    var line := INSTRUCTIONS_LINE[1..];
    assert line == [Ch('\n')] && line[1..] == [];
    assert Text(line) == "\n" && Extra(line, EMPTY) == 0 && InstructionLines(line) == 0 && Neat(false, line);
  }

  /** Without instructions, replacement keeps the newline of their line and the scan does not. */
  lemma EmptyInstructionsDiffer()
    ensures var template := "{{instructions}}\n";
            MakesNoMarker(template, EMPTY) && Assembled(template, EMPTY) != Scan(Tokens(template), EMPTY)
  {
    hide Assembled, Scan, Extra, Kept, MakesNoMarker, Text, Neat, Tokens;
    InstructionsLineFacts();
    NeatTemplate(INSTRUCTIONS_LINE);
    AssembledLength(Text(INSTRUCTIONS_LINE), EMPTY);
  }

  /** With both at once the newlines given up can make good for each other: counting alone does not decide. */
  lemma DifferencesCanCancel()
    ensures var toks := REVERSED + INSTRUCTIONS_LINE;
            Extra(toks, EMPTY) > 0 && Kept(toks, EMPTY) > 0 && Even(Items(toks, EMPTY), 0)
  {
    hide MarkerText;
    var toks := REVERSED + INSTRUCTIONS_LINE;
    var a := toks[1..];
    var b := a[1..];
    var c := b[1..];
    assert a[0] == Mk(0) && b == [Ch('\n'), Ch('\n')] + INSTRUCTIONS_LINE && c == [Ch('\n')] + INSTRUCTIONS_LINE;
    assert a[2..] == c && c[1..] == INSTRUCTIONS_LINE && INSTRUCTIONS_LINE[2..] == [];
    assert Items(INSTRUCTIONS_LINE, EMPTY) == [Item('\n', true, false)];
    assert Items(c, EMPTY) == [Item('\n', true, true), Item('\n', true, false)];
    assert [] + Items(c, EMPTY) == Items(c, EMPTY) == Items(a, EMPTY);
    assert StartsLine(Partial(c, EMPTY, 1)) && StartsLine(Partial(b, EMPTY, 0));
    assert Partial(a, EMPTY, 1) == Partial(b, EMPTY, 1)[1..] == Partial(c, EMPTY, 1);
    assert TakesFarNewline(toks, EMPTY);
    var items := Items(toks, EMPTY);
    assert items == [Item('\n', false, true), Item('\n', true, false)];
    assert items[1..] == [Item('\n', true, false)] && items[1..][1..] == [];
    assert Even(items[1..], 1);
    InstructionsLineFacts();
    assert InstructionLines(toks) == InstructionLines(a) == InstructionLines(b) == InstructionLines(c);
  }
}
