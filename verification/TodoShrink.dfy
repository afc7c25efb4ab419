/** Shrinking one serialised todo line to a byte budget by binary search. */
module TodoShrink {
  import opened Wrappers
  import opened Utf8

  /**
   A JSON object with a string `content` field: the serialised text before and after the
   string, and the decoded content.  Re-encoding leaves every other field as it is.
   */
  datatype Content = Content(before: string, text: string, after: string)

  /** What parsing a line gives: its string `status` and string `content`, where present. */
  datatype Parsed = NotJson | Json(status: Option<string>, content: Option<Content>)

  /** String escapes as in section 7 of RFC 8259: short forms, then `\u00XX` for other controls. */
  function Escape(c: char): (e: string)
    ensures |e| >= 1
  {
    var n := c as int;
    if c == '"' || c == '\\' then ['\\', c]
    else if n == 8 then "\\b"
    else if n == 9 then "\\t"
    else if n == 10 then "\\n"
    else if n == 12 then "\\f"
    else if n == 13 then "\\r"
    else if n < 32 then "\\u00" + [Hex(n / 16), Hex(n % 16)]
    else [c]
  }

  function Hex(d: int): char
    requires 0 <= d < 16
  {
    "0123456789abcdef"[d]
  }

  function EscapeAll(s: string): string {
    if s == [] then "" else Escape(s[0]) + EscapeAll(s[1..])
  }

  /** The line re-encoded with its content cut to `k` characters and an ellipsis added. */
  function Encode(c: Content, k: nat): string
    requires k <= |c.text|
  {
    c.before + "\"" + EscapeAll(c.text[..k] + "...") + "\"" + c.after
  }

  lemma {:induction false} EscapeAppend(a: string, b: string)
    ensures EscapeAll(a + b) == EscapeAll(a) + EscapeAll(b)
    decreases |a|
  {
    if a == [] {
      assert a + b == b;
    } else {
      assert (a + b)[1..] == a[1..] + b;
      EscapeAppend(a[1..], b);
    }
  }

  function Size(c: Content, k: nat): nat
    requires k <= |c.text|
  {
    Bytes(c.before) + Bytes(EscapeAll(c.text[..k])) + Bytes(EscapeAll("...")) + Bytes(c.after) + 2
  }

  lemma EncodeSize(c: Content, k: nat)
    requires k <= |c.text|
    ensures Bytes(Encode(c, k)) == Size(c, k)
  {
    EscapeAppend(c.text[..k], "...");
    BytesAppend(EscapeAll(c.text[..k]), EscapeAll("..."));
    var e := EscapeAll(c.text[..k] + "...");
    BytesAppend(c.before + "\"" + e + "\"", c.after);
    BytesAppend(c.before + "\"" + e, "\"");
    BytesAppend(c.before + "\"", e);
    BytesAppend(c.before, "\"");
    assert Bytes("\"") == 1;
  }

  /** A longer prefix never encodes shorter. */
  lemma SizeMonotone(c: Content, j: nat, k: nat)
    requires j <= k <= |c.text|
    ensures Bytes(Encode(c, j)) <= Bytes(Encode(c, k))
  {
    EncodeSize(c, j);
    EncodeSize(c, k);
    assert c.text[..k] == c.text[..j] + c.text[j..k];
    EscapeAppend(c.text[..j], c.text[j..k]);
    BytesAppend(EscapeAll(c.text[..j]), EscapeAll(c.text[j..k]));
  }

  /** `r` is the re-encoding of the longest character prefix that fits, or nothing fits. */
  ghost predicate LongestFit(c: Content, avail: nat, r: Option<string>) {
    match r
    case None => forall j :: 0 <= j <= |c.text| ==> Bytes(Encode(c, j)) > avail
    case Some(s) => exists k :: 0 <= k <= |c.text| && s == Encode(c, k) && Bytes(s) <= avail &&
                                forall j :: k < j <= |c.text| ==> Bytes(Encode(c, j)) > avail
  }

  /** Nothing fits exactly when the bare ellipsis does not. */
  lemma NothingFits(c: Content, avail: nat, r: Option<string>)
    requires LongestFit(c, avail, r)
    ensures r.None? <==> Bytes(Encode(c, 0)) > avail
  {
    if Bytes(Encode(c, 0)) > avail {
      forall j | 0 <= j <= |c.text| ensures Bytes(Encode(c, j)) > avail {
        SizeMonotone(c, 0, j);
      }
    }
  }

  method SearchPrefix(c: Content, avail: nat) returns (best: Option<string>)
    ensures LongestFit(c, avail, best)
  {
    var lo: nat, hi: nat := 0, |c.text|;
    best := None;
    while lo <= hi
      invariant lo <= |c.text| + 1 && hi <= |c.text|
      invariant best.None? ==> lo == 0
      invariant best.Some? ==> 0 < lo && best.value == Encode(c, lo - 1) && Bytes(best.value) <= avail
      invariant forall j :: hi < j <= |c.text| ==> Bytes(Encode(c, j)) > avail
      invariant best.Some? ==> lo <= hi + 1
      decreases hi + 1 - lo
    {
      var idx := (lo + hi) / 2;
      var candidate := Encode(c, idx);
      if Bytes(candidate) <= avail {
        best := Some(candidate);
        lo := idx + 1;
      } else {
        forall j | idx <= j <= |c.text| ensures Bytes(Encode(c, j)) > avail {
          SizeMonotone(c, idx, j);
        }
        if idx == 0 {
          break;
        }
        hi := idx - 1;
      }
    }
  }

  /** The contract of shrinking one line to `avail` bytes. */
  ghost predicate Shrinks(parsed: Parsed, line: string, avail: nat, r: Option<string>) {
    if avail == 0 then r == None
    else if Bytes(line) <= avail then r == Some(line)
    else if parsed.Json? && parsed.content.Some? then LongestFit(parsed.content.value, avail, r)
    else if avail < 4 then r == None
    else r == Some(line[..FloorBoundary(line, avail - 3)] + "...")
  }

  method ShrinkTodoLine(parse: string -> Parsed, line: string, avail: nat) returns (r: Option<string>)
    ensures Shrinks(parse(line), line, avail, r)
    ensures r.Some? ==> Bytes(r.value) <= avail
  {
    if avail == 0 {
      return None;
    }
    if Bytes(line) <= avail {
      return Some(line);
    }
    var parsed := parse(line);
    if parsed.Json? && parsed.content.Some? {
      r := SearchPrefix(parsed.content.value, avail);
      return;
    }
    if avail < 4 {
      return None;
    }
    var boundary := FloorBoundary(line, avail - 3);
    BytesAppend(line[..boundary], "...");
    assert Bytes("...") == 3;
    r := Some(line[..boundary] + "...");
  }

  /** The bytes a line needs at the least: the encoding of an empty content, or a raw cut. */
  function Minimal(parsed: Parsed): nat {
    if parsed.Json? && parsed.content.Some? then Bytes(Encode(parsed.content.value, 0)) else 4
  }

  /** Without room, or for a line that is too long, shrinking succeeds iff the minimal encoding fits. */
  lemma ShrinkSucceedsIff(parsed: Parsed, line: string, avail: nat, r: Option<string>)
    requires Shrinks(parsed, line, avail, r) && (avail == 0 || Bytes(line) > avail)
    ensures r.Some? <==> Minimal(parsed) <= avail
  {
    if parsed.Json? && parsed.content.Some? {
      EncodeSize(parsed.content.value, 0);
      if avail > 0 {
        NothingFits(parsed.content.value, avail, r);
      }
    }
  }

  predicate HasText(parsed: Parsed) { parsed.Json? && parsed.content.Some? }

  /** The line as it was, or its own object with a shortened content. */
  ghost predicate Whole(parsed: Parsed, line: string, emitted: string) {
    emitted == line ||
    (HasText(parsed) && exists k :: 0 <= k <= |parsed.content.value.text| && emitted == Encode(parsed.content.value, k))
  }

  /**
   How a JSON text can end (sections 2 to 7 of RFC 8259): an object, an array or a string is closed,
   a number ends in a digit, a literal in its last letter, and white space may follow.
   */
  predicate EndsLikeJson(s: string) {
    s != "" && var c := s[|s| - 1]; c in "}]\"el \t\n\r" || '0' <= c <= '9'
  }

  /** A shrunk line stays whole if and only if it has a text content; otherwise it ends in dots, as no JSON does. */
  lemma ShrunkWholeIff(parsed: Parsed, line: string, avail: nat, r: Option<string>)
    requires Shrinks(parsed, line, avail, r) && Bytes(line) > avail && r.Some?
    ensures Whole(parsed, line, r.value) <==> HasText(parsed)
    ensures !HasText(parsed) ==>
              avail >= 4 && r.value == line[..FloorBoundary(line, avail - 3)] + "..." && !EndsLikeJson(r.value)
  {
    if HasText(parsed) {
      var k :| 0 <= k <= |parsed.content.value.text| && r.value == Encode(parsed.content.value, k);
    } else {
      BytesAppend(line[..FloorBoundary(line, avail - 3)], "...");
      assert Bytes("...") == 3;
    }
  }

  // ------------------------------------------ what a JSON reader gets back

  function HexValue(c: char): Option<nat> {
    if '0' <= c <= '9' then Some(c as int - '0' as int)
    else if 'a' <= c <= 'f' then Some(c as int - 'a' as int + 10)
    else if 'A' <= c <= 'F' then Some(c as int - 'A' as int + 10)
    else None
  }

  /** The character written by four hexadecimal digits; halves of surrogate pairs are left out. */
  function HexChar(s: string): Option<char> {
    if |s| < 4 then None
    else
      var a, b, c, d := HexValue(s[0]), HexValue(s[1]), HexValue(s[2]), HexValue(s[3]);
      if a.None? || b.None? || c.None? || d.None? then None
      else
        var n := a.value * 4096 + b.value * 256 + c.value * 16 + d.value;
        if n < 0xD800 || 0xE000 <= n <= 0xFFFF then Some(n as char) else None
  }

  /**
   Reading the rest of a JSON string after its opening quote, as in section 7 of RFC 8259: its
   value, and the text after its closing quote.
   */
  function ReadString(s: string): Option<(string, string)>
    decreases |s|
  {
    if s == [] || s[0] as int < 32 then None
    else if s[0] == '"' then Some(("", s[1..]))
    else if s[0] != '\\' then Prepend(s[0], ReadString(s[1..]))
    else if |s| < 2 then None
    else match s[1]
      case '"' => Prepend('"', ReadString(s[2..]))
      case '\\' => Prepend('\\', ReadString(s[2..]))
      case '/' => Prepend('/', ReadString(s[2..]))
      case 'b' => Prepend(8 as char, ReadString(s[2..]))
      case 'f' => Prepend(12 as char, ReadString(s[2..]))
      case 'n' => Prepend(10 as char, ReadString(s[2..]))
      case 'r' => Prepend(13 as char, ReadString(s[2..]))
      case 't' => Prepend(9 as char, ReadString(s[2..]))
      case 'u' =>
        var c := HexChar(s[2..]);
        if c.None? then None else Prepend(c.value, ReadString(s[6..]))
      case _ => None
  }

  function Prepend(c: char, r: Option<(string, string)>): Option<(string, string)> {
    if r.None? then None else Some(([c] + r.value.0, r.value.1))
  }

  lemma HexRead(d: int)
    requires 0 <= d < 16
    ensures HexValue(Hex(d)) == Some(d)
  {
  }

  /** One escaped character is read back as itself. */
  lemma EscapeRead(c: char, rest: string)
    ensures ReadString(Escape(c) + rest) == Prepend(c, ReadString(rest))
  {
    var s := Escape(c) + rest;
    if |Escape(c)| == 6 {
      var n := c as int;
      HexRead(n / 16);
      HexRead(n % 16);
      assert s[2] == '0' && s[3] == '0' && s[4] == Hex(n / 16) && s[5] == Hex(n % 16);
      assert s[6..] == rest;
      HexRead(0);
    } else if |Escape(c)| == 2 {
      assert s[2..] == rest;
    } else {
      assert s[1..] == rest;
    }
  }

  lemma {:induction false} EscapeAllRead(text: string, rest: string)
    ensures ReadString(EscapeAll(text) + "\"" + rest) == Some((text, rest))
    decreases |text|
  {
    hide Escape;
    if text == [] {
      assert EscapeAll(text) + "\"" + rest == ['"'] + rest;
    } else {
      var more := EscapeAll(text[1..]) + "\"" + rest;
      assert EscapeAll(text) + "\"" + rest == Escape(text[0]) + more;
      EscapeRead(text[0], more);
      EscapeAllRead(text[1..], rest);
      assert [text[0]] + text[1..] == text;
    }
  }

  /** A JSON reader of the shrunk line finds every other field as it was, and the cut text with three dots. */
  lemma EncodeDecodes(c: Content, k: nat)
    requires k <= |c.text|
    ensures |c.before| < |Encode(c, k)| && Encode(c, k)[..|c.before| + 1] == c.before + "\""
    ensures ReadString(Encode(c, k)[|c.before| + 1..]) == Some((c.text[..k] + "...", c.after))
  {
    hide EscapeAll, ReadString;
    var body := EscapeAll(c.text[..k] + "...") + "\"" + c.after;
    assert Encode(c, k) == c.before + "\"" + body;
    assert (c.before + "\"" + body)[|c.before| + 1..] == body;
    EscapeAllRead(c.text[..k] + "...", c.after);
  }

  /** The escapes are as short as serde_json writes them: two characters where there is a short form. */
  lemma EscapeLength(c: char)
    ensures |Escape(c)| == if c in "\"\\" || c as int in {8, 9, 10, 12, 13} then 2 else if c as int < 32 then 6 else 1
  {
  }

  /** No prefix that fits is longer than the one chosen. */
  lemma LongestMeans(c: Content, avail: nat, r: Option<string>)
    requires LongestFit(c, avail, r)
    ensures r.Some? ==> exists k :: 0 <= k <= |c.text| && r.value == Encode(c, k) && Bytes(r.value) <= avail &&
                                    forall j :: 0 <= j <= |c.text| && Bytes(Encode(c, j)) <= avail ==> j <= k
    ensures r.None? ==> forall j :: 0 <= j <= |c.text| ==> Bytes(Encode(c, j)) > avail
  {
    hide Encode;
  }

  /** The last characters a JSON text can have. */
  lemma JsonEnds(s: string, c: char)
    ensures EndsLikeJson(s + [c]) <==> c in "}]\"0123456789el \t\n\r"
    ensures !EndsLikeJson("")
  {
    assert '0' <= c <= '9' <==> c in "0123456789";
  }
}
