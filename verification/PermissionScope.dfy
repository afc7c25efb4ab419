/** Tool keys, scope patterns, and how an allowed scope is generalised. */
module PermissionScope {
  import opened Wrappers
  import opened Chars

  // ------------------------------------------------------------ tool names

  const TOOL_ALIASES: seq<(string, string)> := [
    ("agent_control", "control_agent"), ("agent_list", "list_agents"), ("agent_status", "get_agent"),
    ("batch", "run_batch"), ("bash", "run_shell"), ("blackboard", "use_blackboard"),
    ("code_execution", "run_python"), ("codegraph", "map_codegraph"), ("edit", "edit_file"),
    ("edit_lines", "edit_file_lines"), ("explore", "explore_code"), ("fusion_delegate", "delegate_fusion"),
    ("glob", "search_files"), ("grep", "search_code"), ("index", "index_file"),
    ("insert_lines", "insert_file_lines"), ("load_namespace", "load_toolset"), ("memory", "use_memory"),
    ("multi_edit", "edit_file_bulk"), ("multiedit", "edit_file_bulk"), ("question", "ask_user"),
    ("read", "read_file"), ("semblem", "search_text"), ("skill", "load_skill"), ("task", "run_task"),
    ("team", "run_team"), ("todo_write", "update_todo"), ("tool_search", "search_tools"),
    ("webfetch", "fetch_url"), ("websearch", "search_web"), ("workflow", "run_workflow"), ("write", "write_file")]

  const BASH_TOOL_NAME := "run_shell"

  const FILE_WRITE_TOOLS: seq<string> :=
    ["write_file", "edit_file", "edit_file_bulk", "edit_file_lines", "insert_file_lines"]

  function Lookup(table: seq<(string, string)>, name: string): string {
    if table == [] then name else if table[0].0 == name then table[0].1 else Lookup(table[1..], name)
  }

  function CanonicalToolName(name: string): string { Lookup(TOOL_ALIASES, name) }

  predicate IsBash(name: string) { CanonicalToolName(name) == BASH_TOOL_NAME }

  predicate IsFileWrite(name: string) {
    exists c :: c in FILE_WRITE_TOOLS && CanonicalToolName(c) == CanonicalToolName(name)
  }

  datatype ToolKey = Wildcard | Native(name: string) | McpServer(server: string) | McpTool(server: string, tool: string)

  predicate IsMcp(tool: ToolKey) { tool.McpServer? || tool.McpTool? }

  /** `matches_rule`. */
  predicate MatchesRule(rule: ToolKey, actual: ToolKey) {
    match rule
    case Wildcard => true
    case Native(a) => actual.Native? && CanonicalToolName(a) == CanonicalToolName(actual.name)
    case McpServer(server) => IsMcp(actual) && actual.server == server
    case McpTool(server, tool) => actual == McpTool(server, tool)
  }

  // ----------------------------------------------------------------- paths

  /** Where the last `/`-separated piece begins. */
  function PieceStart(s: string): (i: nat)
    ensures i <= |s| && '/' !in s[i..] && (i > 0 ==> s[i - 1] == '/')
  {
    if s == "" || s[|s| - 1] == '/' then |s| else
      var i := PieceStart(s[..|s| - 1]);
      assert s[i..] == s[..|s| - 1][i..] + [s[|s| - 1]];
      i
  }

  /** Empty pieces and `.` are not components. */
  function Component(piece: string): seq<string> { if piece == "" || piece == "." then [] else [piece] }

  /** The components of a path, its root left aside. */
  function Names(s: string): seq<string>
    decreases |s|
  {
    var i := PieceStart(s);
    (if i == 0 then [] else Names(s[..i - 1])) + Component(s[i..])
  }

  /** Resolving `..` lexically; it never climbs above the root. */
  function Resolve(base: seq<string>, names: seq<string>): seq<string> {
    if names == [] then base
    else
      var name := names[|names| - 1];
      var before := Resolve(base, names[..|names| - 1]);
      if name != ".." then before + [name] else if before == [] then [] else before[..|before| - 1]
  }

  predicate IsAbsolute(s: string) { s != "" && s[0] == '/' }

  /** The absolute, resolved form of a path; the empty path has none. */
  function Norm(cwd: seq<string>, s: string): Option<seq<string>> {
    if s == "" then None else Some(Resolve([], (if IsAbsolute(s) then [] else cwd) + Names(s)))
  }

  // -------------------------------------------------------- scope patterns

  predicate EndsWith(s: string, suffix: string) { |suffix| <= |s| && s[|s| - |suffix|..] == suffix }

  function Without(s: string, suffix: string): string
    requires EndsWith(s, suffix)
  {
    s[..|s| - |suffix|]
  }

  predicate Under(cwd: seq<string>, dir: string, value: string) {
    var d, v := Norm(cwd, dir), Norm(cwd, value);
    d.None? || (v.Some? && d.value <= v.value)
  }

  /** `scope_matches`, with paths resolved lexically. */
  predicate ScopeMatches(cwd: seq<string>, pattern: string, value: string) {
    if pattern == "*" || pattern == "**" then true
    else if EndsWith(pattern, "/**") then Under(cwd, Without(pattern, "/**"), value)
    else if EndsWith(pattern, " *") then
      var prefix := Without(pattern, " *"); value == prefix || prefix + " " <= value
    else if EndsWith(pattern, "*") then Without(pattern, "*") <= value
    else pattern == value
  }

  // -------------------------------------------------------- generalisation

  function SkipSpace(s: string): string {
    if s != "" && IsWhitespace(s[0]) then SkipSpace(s[1..]) else s
  }

  function Word(s: string): (w: string)
    ensures |w| <= |s|
  {
    if s == "" || IsWhitespace(s[0]) then "" else [s[0]] + Word(s[1..])
  }

  /** The first token, or the whole segment when it has none. */
  function FirstToken(s: string): string {
    var token := Word(SkipSpace(s)); if token == "" then s else token
  }

  /** `Components` drops trailing separators and `.` pieces. */
  function TrimTail(body: string): string
    decreases |body|
  {
    var i := PieceStart(body);
    if body == "" || Component(body[i..]) != [] then body
    else if i == 0 then "" else TrimTail(body[..i - 1])
  }

  /** The length of the root, or of a leading `.` component. */
  function LeadLength(s: string): (n: nat)
    ensures n <= |s|
  {
    if IsAbsolute(s) || s == "." || "./" <= s then 1 else 0
  }

  /** The text above the last component. */
  function Above(body: string): string
  {
    var i := PieceStart(body); TrimTail(if i == 0 then "" else body[..i - 1])
  }

  /** The text of `Path::parent`; `None` for a bare root and for the empty path. */
  function ParentText(s: string): Option<string> {
    var n := LeadLength(s);
    var body := TrimTail(s[n..]);
    if body == "" then (if n == 1 && s[0] == '.' then Some("") else None)
    else Some(s[..n] + Above(body))
  }

  /** `generalize_scope`. */
  function Generalize(tool: ToolKey, scope: string): string {
    match tool
    case Native(name) =>
      if IsBash(name) then FirstToken(scope) + " *"
      else if IsFileWrite(name) then
        var parent := ParentText(scope);
        if parent.Some? && parent.value != "" then parent.value + "/**" else "**"
      else scope
    case McpServer(_) => "*"
    case McpTool(_, _) => "*"
    case Wildcard => scope
  }

  // ------------------------------------------------------------ reflexivity

  lemma {:induction false} PieceOf(b: string, p: string)
    requires '/' !in p
    ensures PieceStart(b + "/" + p) == |b| + 1
    decreases |p|
  {
    var s := b + "/" + p;
    if p == "" {
      assert s[|s| - 1] == '/';
    } else {
      assert s[..|s| - 1] == b + "/" + p[..|p| - 1];
      assert s[|s| - 1] == p[|p| - 1];
      PieceOf(b, p[..|p| - 1]);
    }
  }

  lemma NamesSlash(b: string, p: string)
    requires '/' !in p
    ensures Names(b + "/" + p) == Names(b) + Component(p)
  {
    var s := b + "/" + p;
    PieceOf(b, p);
    assert s[..|b|] == b && s[|b| + 1..] == p;
  }

  lemma ResolvePush(base: seq<string>, names: seq<string>, name: string)
    ensures Resolve(base, names + [name]) ==
            (var before := Resolve(base, names);
             if name != ".." then before + [name] else if before == [] then [] else before[..|before| - 1])
  {
    assert (names + [name])[..|names|] == names;
  }

  lemma ResolveBelow(base: seq<string>, names: seq<string>, name: string)
    requires name != ".."
    ensures Resolve([], base + (names + [name])) == Resolve([], base + names) + [name]
  {
    hide Resolve;
    assert base + (names + [name]) == (base + names) + [name];
    ResolvePush([], base + names, name);
  }

  lemma GlobReflexive(cwd: seq<string>, dir: string)
    ensures Under(cwd, dir, dir + "/" + "**")
  {
    hide Names, Resolve;
    if dir != "" {
      assert (dir + "/" + "**")[0] == dir[0];
      NamesSlash(dir, "**");
      ResolveBelow(if IsAbsolute(dir) then [] else cwd, Names(dir), "**");
    }
  }

  /** Every scope is matched by itself taken as a pattern. */
  lemma ScopeReflexive(cwd: seq<string>, s: string)
    ensures ScopeMatches(cwd, s, s)
  {
    hide EndsWith, Without, Under;
    if EndsWith(s, "/**") {
      SuffixSplit(s, "/**");
      assert Without(s, "/**") + "/**" == Without(s, "/**") + "/" + "**";
      GlobReflexive(cwd, Without(s, "/**"));
    } else if EndsWith(s, " *") {
      SuffixSplit(s, " *");
      assert Without(s, " *") + " *" == Without(s, " *") + " " + "*";
    } else if EndsWith(s, "*") {
      SuffixSplit(s, "*");
    }
  }

  lemma SuffixSplit(s: string, suffix: string)
    requires EndsWith(s, suffix)
    ensures s == Without(s, suffix) + suffix
  {
  }

  lemma RuleReflexive(tool: ToolKey)
    ensures MatchesRule(tool, tool)
  {
  }

  // ------------------------------------------- does an allowed scope stick?

  lemma {:induction false} SkipSuffix(s: string)
    ensures SkipSpace(s) == s <==> s == "" || !IsWhitespace(s[0])
    ensures |SkipSpace(s)| <= |s| && SkipSpace(s) == s[|s| - |SkipSpace(s)|..]
    ensures SkipSpace(s) != "" ==> !IsWhitespace(SkipSpace(s)[0])
    decreases |s|
  {
    hide IsWhitespace;
    if s != "" && IsWhitespace(s[0]) {
      SkipSuffix(s[1..]);
    }
  }

  lemma {:induction false} WordPrefix(s: string)
    ensures Word(s) <= s
    ensures forall i :: 0 <= i < |Word(s)| ==> !IsWhitespace(Word(s)[i])
    ensures |Word(s)| < |s| ==> IsWhitespace(s[|Word(s)|])
    decreases |s|
  {
    hide IsWhitespace;
    if s != "" && !IsWhitespace(s[0]) {
      WordPrefix(s[1..]);
    }
  }

  /** The segment has no token, or starts with one that ends the segment or is followed by a plain space. */
  predicate StartsWithCommand(s: string) {
    (forall i :: 0 <= i < |s| ==> IsWhitespace(s[i])) ||
    (!IsWhitespace(s[0]) && (|Word(s)| == |s| || s[|Word(s)|] == ' '))
  }

  lemma SpacePattern(cwd: seq<string>, prefix: string, value: string)
    ensures ScopeMatches(cwd, prefix + " *", value) <==> value == prefix || prefix + " " <= value
  {
    var pattern := prefix + " *";
    assert pattern[|pattern| - 2..] == " *" && pattern[|pattern| - 2] == ' ';
    assert EndsWith(pattern, " *") && Without(pattern, " *") == prefix;
    assert |pattern| >= 3 ==> pattern[|pattern| - 3..][1] == ' ';
  }

  lemma {:induction false} AllSpace(s: string)
    ensures SkipSpace(s) == "" <==> forall i :: 0 <= i < |s| ==> IsWhitespace(s[i])
    decreases |s|
  {
    hide IsWhitespace;
    if s != "" {
      AllSpace(s[1..]);
      assert forall i :: 0 < i < |s| ==> s[i] == s[1..][i - 1];
    }
  }

  /** A generalised shell segment covers the segment exactly in these cases. */
  lemma BashSticksIff(cwd: seq<string>, s: string)
    ensures ScopeMatches(cwd, FirstToken(s) + " *", s) <==> StartsWithCommand(s)
  {
    hide ScopeMatches;
    SpacePattern(cwd, FirstToken(s), s);
    AllSpace(s);
    SkipSuffix(s);
    var rest := SkipSpace(s);
    WordPrefix(rest);
    WordPrefix(s);
    if rest != "" {
      TokenIff(s);
    }
  }

  /** With a first token: the token and a space start the segment, or it is the token. */
  lemma TokenIff(s: string)
    requires SkipSpace(s) != ""
    ensures var token := Word(SkipSpace(s));
            token != "" && (s == token || token + " " <= s <==>
              s != "" && !IsWhitespace(s[0]) && (|Word(s)| == |s| || s[|Word(s)|] == ' '))
  {
    hide IsWhitespace, Word, SkipSpace;
    SkipSuffix(s);
    var rest := SkipSpace(s);
    WordPrefix(rest);
    var token := Word(rest);
    assert token != "" && token[0] == rest[0];
    if IsWhitespace(s[0]) {
      assert s[0] != token[0];
    } else {
      WordIff(s);
    }
  }

  lemma WordIff(s: string)
    ensures s == Word(s) || Word(s) + " " <= s <==> |Word(s)| == |s| || s[|Word(s)|] == ' '
  {
    WordPrefix(s);
    hide Word;
    var w := Word(s);
    assert s == w + s[|w|..];
    if |w| < |s| {
      assert s[|w|..][0] == s[|w|];
    }
  }

  /** A last piece that is no component can go. */
  lemma NamesDrop(body: string)
    requires Component(body[PieceStart(body)..]) == []
    ensures var i := PieceStart(body); Names(body) == if i == 0 then [] else Names(body[..i - 1])
  {
  }

  lemma {:induction false} NamesTrim(body: string)
    ensures Names(TrimTail(body)) == Names(body)
    ensures var t := TrimTail(body); t <= body && (t != "" ==> Component(t[PieceStart(t)..]) != [])
    decreases |body|
  {
    hide Names, PieceStart;
    var i := PieceStart(body);
    NamesEmpty();
    if body != "" && Component(body[i..]) == [] {
      NamesDrop(body);
      if i > 0 {
        var shorter := body[..i - 1];
        NamesTrim(shorter);
        assert TrimTail(body) == TrimTail(shorter);
        assert TrimTail(shorter) <= shorter <= body;
      }
    }
  }

  lemma NamesEmpty()
    ensures Names("") == []
  {
  }

  lemma {:induction false} PieceAfterLead(c: char, x: string)
    requires c == '/' || (c == '.' && x != "" && x[0] == '/')
    ensures PieceStart([c] + x) == 1 + PieceStart(x)
    decreases |x|
  {
    var s := [c] + x;
    if x != "" && x[|x| - 1] != '/' {
      assert s[..|s| - 1] == [c] + x[..|x| - 1] && s[|s| - 1] == x[|x| - 1];
      PieceAfterLead(c, x[..|x| - 1]);
    }
  }

  /** A root, or a leading `.` piece, adds no component. */
  lemma {:induction false} NamesAfterLead(c: char, x: string)
    requires c == '/' || (c == '.' && (x == "" || x[0] == '/'))
    ensures Names([c] + x) == Names(x)
    decreases |x|
  {
    var s := [c] + x;
    if c == '.' && x == "" {
      assert s == ".";
      NamesEmpty();
    } else {
      PieceAfterLead(c, x);
      var i := PieceStart(x);
      assert s[i + 1..] == x[i..];
      if i > 0 {
        assert s[..i] == [c] + x[..i - 1];
        NamesAfterLead(c, x[..i - 1]);
      } else {
        assert s[..0] == "";
        NamesEmpty();
      }
    }
  }

  lemma NamesLead(s: string, x: string)
    requires x <= s[LeadLength(s)..]
    ensures Names(s[..LeadLength(s)] + x) == Names(x)
    ensures s[..LeadLength(s)] + x != "" ==> IsAbsolute(s[..LeadLength(s)] + x) == IsAbsolute(s)
  {
    hide Names;
    if LeadLength(s) == 1 {
      assert s[..1] == [s[0]];
      assert x != "" ==> x[0] == s[1];
      NamesAfterLead(s[0], x);
    } else {
      assert s[..0] + x == x;
      assert x != "" ==> x[0] == s[0];
    }
  }

  lemma AboveNames(x: string)
    requires TrimTail(x) != ""
    ensures var a := Above(TrimTail(x));
            a <= x && |Names(x)| > 0 && Names(a) == Names(x)[..|Names(x)| - 1]
  {
    hide Names, TrimTail;
    var body := TrimTail(x);
    var i := PieceStart(body);
    var above := if i == 0 then "" else body[..i - 1];
    NamesTrim(x);
    NamesLast(body);
    NamesTrim(above);
    assert above <= body;
  }

  /** The parent's components are all but the last; only a rooted path has a rooted parent. */
  lemma ParentNames(s: string)
    requires ParentText(s).Some? && ParentText(s).value != ""
    ensures var parent := ParentText(s).value;
            Names(s) != [] && Names(parent) == Names(s)[..|Names(s)| - 1] && IsAbsolute(parent) == IsAbsolute(s) && s != ""
  {
    hide Names, TrimTail, IsAbsolute, Above, LeadLength;
    var n := LeadLength(s);
    AboveNames(s[n..]);
    NamesLead(s, s[n..]);
    NamesLead(s, Above(TrimTail(s[n..])));
    assert s[..n] + s[n..] == s;
  }

  lemma NamesLast(body: string)
    requires body != "" && Component(body[PieceStart(body)..]) != []
    ensures var i := PieceStart(body);
            Names(body) == Names(if i == 0 then "" else body[..i - 1]) + [body[i..]]
  {
    NamesEmpty();
  }

  /** The path's last component climbs out of the directory that was generalised. */
  predicate ClimbsOut(cwd: seq<string>, s: string) {
    var parent := ParentText(s);
    parent.Some? && parent.value != "" && Names(s) != [] && Names(s)[|Names(s)| - 1] == ".." &&
    Norm(cwd, parent.value) != Some([])
  }

  /** A path is under its parent unless its last component climbs out of it. */
  lemma FileSticksIff(cwd: seq<string>, s: string)
    requires ParentText(s).Some? && ParentText(s).value != ""
    ensures ScopeMatches(cwd, ParentText(s).value + "/**", s) <==> !ClimbsOut(cwd, s)
  {
    hide Names, Resolve, IsAbsolute, ParentText;
    var parent := ParentText(s).value;
    ParentNames(s);
    var pattern := parent + "/**";
    assert EndsWith(pattern, "/**") && Without(pattern, "/**") == parent;
    var base := if IsAbsolute(s) then [] else cwd;
    var names := Names(s);
    var last := names[|names| - 1];
    assert base + names == (base + names[..|names| - 1]) + [last];
    ResolvePush([], base + names[..|names| - 1], last);
  }

  /** When allowing a scope covers that scope again. */
  predicate Sticks(cwd: seq<string>, tool: ToolKey, s: string) {
    !tool.Native? ||
    (if IsBash(tool.name) then StartsWithCommand(s) else IsFileWrite(tool.name) ==> !ClimbsOut(cwd, s))
  }

  lemma GeneralizeSticksIff(cwd: seq<string>, tool: ToolKey, s: string)
    ensures ScopeMatches(cwd, Generalize(tool, s), s) <==> Sticks(cwd, tool, s)
  {
    hide IsBash, IsFileWrite, ScopeMatches, ParentText, FirstToken, StartsWithCommand;
    ScopeReflexive(cwd, s);
    StarMatches(cwd, s);
    if tool.Native? {
      if IsBash(tool.name) {
        BashSticksIff(cwd, s);
      } else if IsFileWrite(tool.name) && ParentText(s).Some? && ParentText(s).value != "" {
        FileSticksIff(cwd, s);
      }
    }
  }

  lemma StarMatches(cwd: seq<string>, s: string)
    ensures ScopeMatches(cwd, "*", s) && ScopeMatches(cwd, "**", s)
  {
  }

  lemma OneName()
    ensures PieceStart("a") == 0 && Names("a") == ["a"] && TrimTail("a") == "a"
  {
    assert "a"[..0] == "";
  }

  lemma ParentStep(b: string, p: string)
    requires '/' !in p && Component(p) != [] && LeadLength(b + "/" + p) == 0 && TrimTail(b) == b
    ensures ParentText(b + "/" + p) == Some(b)
  {
    hide PieceStart, LeadLength;
    var s := b + "/" + p;
    PieceOf(b, p);
    assert s[|b| + 1..] == p && s[..|b|] == b && s[0..] == s;
    assert TrimTail(s) == s;
    assert s[..0] == "" && "" + b == b;
  }

  lemma UpFromA()
    ensures Names("a/..") == ["a", ".."] && ParentText("a/..") == Some("a")
  {
    hide Names, PieceStart, ParentText, TrimTail;
    var s := "a" + "/" + "..";
    assert s == "a/.." && s[0] == 'a' && LeadLength(s) == 0;
    OneName();
    NamesSlash("a", "..");
    ParentStep("a", "..");
  }

  /** Allowing a write to `a/..` allows what is under `a`, and that path is not. */
  lemma ParentOfParent()
    ensures ClimbsOut(["home"], "a/..") && !Sticks(["home"], Native("write_file"), "a/..")
  {
    hide Names, ParentText, IsBash, IsFileWrite, TrimTail, PieceStart;
    UpFromA();
    OneName();
    assert ["home"] + ["a"] == ["home", "a"];
    ResolvePush([], ["home"], "a");
    WriteFileIsFileWrite();
  }

  lemma WriteFileIsFileWrite()
    ensures !IsBash("write_file") && IsFileWrite("write_file")
  {
    assert FILE_WRITE_TOOLS[0] == "write_file";
    LookupMiss(TOOL_ALIASES, "write_file");
  }

  lemma {:induction false} LookupMiss(table: seq<(string, string)>, name: string)
    requires forall i :: 0 <= i < |table| ==> table[i].0 != name
    ensures Lookup(table, name) == name
    decreases |table|
  {
    if table != [] {
      LookupMiss(table[1..], name);
    }
  }

  lemma ShellIsBash()
    ensures IsBash("run_shell")
  {
    var name := "run_shell";
    assert |name| == 9 && name[3] == '_';
    assert forall i :: 0 <= i < |TOOL_ALIASES| ==> |TOOL_ALIASES[i].0| != 9 || TOOL_ALIASES[i].0[3] != '_';
    LookupMiss(TOOL_ALIASES, name);
  }

  /** A segment whose first token is followed by a tab is not covered by its own generalisation. */
  lemma TabDoesNotStick(cwd: seq<string>)
    ensures !Sticks(cwd, Native("run_shell"), "ls\t-l")
  {
    hide IsBash, IsFileWrite;
    ShellIsBash();
    var s := "ls\t-l";
    assert s[0] == 'l' && s[1] == 's' && s[2] == '\t';
    assert !IsWhitespace(s[0]) && !IsWhitespace(s[1]) && IsWhitespace(s[2]);
    WordPrefix(s);
    assert |Word(s)| == 2 by {
      assert Word(s[1..][1..]) == "" && Word(s[1..]) == ['s'] + Word(s[1..][1..]);
    }
  }

  // ----------------------------------------------- which tool a rule is about

  /** A rule for a native tool covers its other names, and no other tool. */
  lemma NativeRuleCovers(a: string, b: string)
    ensures MatchesRule(Native(a), Native(b)) <==> CanonicalToolName(a) == CanonicalToolName(b)
    ensures CanonicalToolName(a) != CanonicalToolName(b) ==> !MatchesRule(Native(a), Native(b))
  {
  }

  /** A rule for a server covers all its tools, one for a tool that tool alone, and neither a native tool. */
  lemma McpRuleCovers(server: string, tool: string, server': string, tool': string, name: string)
    ensures MatchesRule(McpServer(server), McpTool(server', tool')) <==> server == server'
    ensures MatchesRule(McpServer(server), McpServer(server')) <==> server == server'
    ensures MatchesRule(McpTool(server, tool), McpTool(server', tool')) <==> server == server' && tool == tool'
    ensures !MatchesRule(McpTool(server, tool), McpServer(server'))
    ensures !MatchesRule(McpServer(server), Native(name)) && !MatchesRule(McpTool(server, tool), Native(name))
    ensures !MatchesRule(Native(name), McpServer(server)) && !MatchesRule(Native(name), McpTool(server, tool))
  {
  }

  lemma WildcardCovers(tool: ToolKey)
    ensures MatchesRule(Wildcard, tool)
    ensures MatchesRule(tool, Wildcard) ==> tool == Wildcard
  {
  }

  /** A name in the table stands for its entry, the first one if there are several; any other for itself. */
  lemma {:induction false} LookupIs(table: seq<(string, string)>, name: string) returns (i: nat)
    ensures i <= |table| && forall j :: 0 <= j < i ==> table[j].0 != name
    ensures if i < |table| then table[i] == (name, Lookup(table, name)) else Lookup(table, name) == name
    decreases |table|
  {
    if table == [] {
      i := 0;
    } else if table[0].0 == name {
      i := 0;
    } else {
      i := LookupIs(table[1..], name);
      assert forall j :: 0 < j < i + 1 ==> table[j] == table[1..][j - 1];
      i := i + 1;
    }
  }

  lemma ShellEntry(j: nat)
    requires j < |TOOL_ALIASES|
    ensures TOOL_ALIASES[4] == ("bash", "run_shell")
    ensures TOOL_ALIASES[j].1 == "run_shell" ==> j == 4
  {
    var shell := "run_shell";
    assert |shell| == 9 && shell[4] == 's';
    assert j != 4 ==> |TOOL_ALIASES[j].1| != 9 || TOOL_ALIASES[j].1[4] != 's';
  }

  lemma BashEntry(j: nat)
    requires j < 4
    ensures TOOL_ALIASES[j].0 != "bash"
  {
    assert |TOOL_ALIASES[j].0| != 4;
  }

  /** A tool with one entry in the table has two names. */
  lemma TwoNames(table: seq<(string, string)>, at: nat, name: string)
    requires at < |table| && (forall j :: 0 <= j < |table| && table[j].1 == table[at].1 ==> j == at)
    requires (forall j :: 0 <= j < at ==> table[j].0 != table[at].0) && Lookup(table, table[at].1) == table[at].1
    ensures Lookup(table, name) == table[at].1 <==> name == table[at].1 || name == table[at].0
  {
    hide Lookup;
    var i := LookupIs(table, name);
  }

  /** The shell has two names. */
  lemma BashNames(name: string)
    ensures IsBash(name) <==> name == "run_shell" || name == "bash"
  {
    ShellIsBash();
    forall j: nat | j < |TOOL_ALIASES| && TOOL_ALIASES[j].1 == "run_shell" ensures j == 4 {
      ShellEntry(j);
    }
    ShellEntry(4);
    forall j: nat | j < 4 ensures TOOL_ALIASES[j].0 != "bash" {
      BashEntry(j);
    }
    TwoNames(TOOL_ALIASES, 4, name);
  }

  /** The name is an entry's key, and no earlier entry has it. */
  predicate EntryAt(table: seq<(string, string)>, j: nat, key: string, target: string) {
    j < |table| && table[j] == (key, target) && forall i :: 0 <= i < j ==> table[i].0 != key
  }

  lemma {:induction false} LookupEntry(table: seq<(string, string)>, j: nat, key: string, target: string)
    requires EntryAt(table, j, key, target)
    ensures Lookup(table, key) == target
    decreases |table|
  {
    if j > 0 {
      assert table[0].0 != key;
      LookupEntry(table[1..], j - 1, key, target);
    }
  }

  lemma EditEntry()
    ensures EntryAt(TOOL_ALIASES, 8, "edit", "edit_file")
  {
    assert forall i :: 0 <= i < 8 ==> |TOOL_ALIASES[i].0| != 4 || TOOL_ALIASES[i].0[0] != 'e';
  }

  lemma EditLinesEntry()
    ensures EntryAt(TOOL_ALIASES, 9, "edit_lines", "edit_file_lines")
  {
    assert forall i :: 0 <= i < 9 ==> |TOOL_ALIASES[i].0| != 10 || TOOL_ALIASES[i].0[0] != 'e';
  }

  lemma InsertLinesEntry()
    ensures EntryAt(TOOL_ALIASES, 15, "insert_lines", "insert_file_lines")
  {
    assert forall i :: 0 <= i < 15 ==> |TOOL_ALIASES[i].0| != 12 || TOOL_ALIASES[i].0[0] != 'i';
  }

  lemma MultiEditEntry()
    ensures EntryAt(TOOL_ALIASES, 18, "multi_edit", "edit_file_bulk")
  {
    assert forall i :: 0 <= i < 18 ==> |TOOL_ALIASES[i].0| != 10 || TOOL_ALIASES[i].0[0] != 'm';
  }

  lemma MultieditEntry()
    ensures EntryAt(TOOL_ALIASES, 19, "multiedit", "edit_file_bulk")
  {
    assert forall i :: 0 <= i < 19 ==> |TOOL_ALIASES[i].0| != 9 || TOOL_ALIASES[i].0[0] != 'm';
  }

  lemma WriteEntry()
    ensures EntryAt(TOOL_ALIASES, 31, "write", "write_file")
  {
    assert forall i :: 0 <= i < 31 ==> |TOOL_ALIASES[i].0| != 5 || TOOL_ALIASES[i].0[0] != 'w';
  }

  /** No other entry stands for a tool that writes files. */
  lemma WriteEntries(j: nat)
    requires j < |TOOL_ALIASES| && TOOL_ALIASES[j].1 in FILE_WRITE_TOOLS
    ensures j == 8 || j == 9 || j == 15 || j == 18 || j == 19 || j == 31
  {
    var c := TOOL_ALIASES[j].1;
    assert (|c| == 10 && c[0] == 'w') || (|c| == 9 && c[0] == 'e') || (|c| == 14 && c[0] == 'e') ||
           (|c| == 15 && c[0] == 'e') || (|c| == 17 && c[0] == 'i');
  }

  /** The names of the tools that write files are no aliases. */
  lemma WriteToolsAreCanonical(c: string)
    requires c in FILE_WRITE_TOOLS
    ensures CanonicalToolName(c) == c
  {
    assert |c| >= 6 && (c[4] == '_' || c[5] == '_' || c[6] == '_');
    assert c == "write_file" || c == "edit_file" || c == "edit_file_bulk" || c == "edit_file_lines" || c == "insert_file_lines";
    assert |c| == 10 ==> c[0] == 'w';
    assert |c| == 9 ==> c[4] == '_';
    assert |c| == 14 ==> c[5] == 'f';
    assert |c| == 15 ==> c[4] == '_';
    assert forall i :: 0 <= i < |TOOL_ALIASES| ==> var k := TOOL_ALIASES[i].0;
      (|k| == 10 ==> k[0] != 'w') && (|k| == 9 ==> k[4] != '_') && (|k| == 14 ==> k[5] != 'f') &&
      (|k| == 15 ==> k[4] != '_') && |k| != 17;
    LookupMiss(TOOL_ALIASES, c);
  }

  /** The tools that write files, by all their names. */
  lemma FileWriteNames(name: string)
    ensures IsFileWrite(name) <==>
            name in ["write_file", "write", "edit_file", "edit", "edit_file_bulk", "multi_edit", "multiedit",
                     "edit_file_lines", "edit_lines", "insert_file_lines", "insert_lines"]
  {
    hide Lookup, EntryAt;
    forall c | c in FILE_WRITE_TOOLS ensures CanonicalToolName(c) == c {
      WriteToolsAreCanonical(c);
    }
    assert IsFileWrite(name) <==> CanonicalToolName(name) in FILE_WRITE_TOOLS;
    var i := LookupIs(TOOL_ALIASES, name);
    if i < |TOOL_ALIASES| && CanonicalToolName(name) in FILE_WRITE_TOOLS {
      WriteEntries(i);
    }
    if name == "edit" { EditEntry(); LookupEntry(TOOL_ALIASES, 8, name, "edit_file"); }
    if name == "edit_lines" { EditLinesEntry(); LookupEntry(TOOL_ALIASES, 9, name, "edit_file_lines"); }
    if name == "insert_lines" { InsertLinesEntry(); LookupEntry(TOOL_ALIASES, 15, name, "insert_file_lines"); }
    if name == "multi_edit" { MultiEditEntry(); LookupEntry(TOOL_ALIASES, 18, name, "edit_file_bulk"); }
    if name == "multiedit" { MultieditEntry(); LookupEntry(TOOL_ALIASES, 19, name, "edit_file_bulk"); }
    if name == "write" { WriteEntry(); LookupEntry(TOOL_ALIASES, 31, name, "write_file"); }
  }

  // ------------------------------------------------------ what patterns cover

  /** A name that stands for itself in a path. */
  predicate PlainName(name: string) { name != "" && name != "." && name != ".." && '/' !in name }

  predicate PlainNames(names: seq<string>) { forall n :: n in names ==> PlainName(n) }

  /** Names written one after the other, each behind a slash. */
  function Slashed(names: seq<string>): string {
    if names == [] then "" else Slashed(names[..|names| - 1]) + "/" + names[|names| - 1]
  }

  lemma {:induction false} NamesSlashed(x: string, names: seq<string>)
    requires PlainNames(names)
    ensures Names(x + Slashed(names)) == Names(x) + names
    decreases |names|
  {
    hide Names;
    if names == [] {
      assert x + "" == x;
    } else {
      var init, last := names[..|names| - 1], names[|names| - 1];
      assert PlainName(last);
      assert x + Slashed(names) == (x + Slashed(init)) + "/" + last;
      NamesSlash(x + Slashed(init), last);
      NamesSlashed(x, init);
      assert init + [last] == names;
    }
  }

  lemma {:induction false} NameAlone(p: string)
    requires '/' !in p
    ensures PieceStart(p) == 0 && Names(p) == Component(p)
    decreases |p|
  {
    if p != "" {
      NameAlone(p[..|p| - 1]);
    }
    assert p[0..] == p;
  }

  lemma {:induction false} ResolvePlain(base: seq<string>, names: seq<string>)
    requires PlainNames(names)
    ensures Resolve(base, names) == base + names
    decreases |names|
  {
    if names != [] {
      var init, last := names[..|names| - 1], names[|names| - 1];
      assert PlainName(last);
      ResolvePlain(base, init);
      assert base + init + [last] == base + names;
    }
  }

  /** `..` takes the name before it away, and nothing at the root. */
  lemma UpTakesOne(base: seq<string>, names: seq<string>, name: string)
    requires name != ".."
    ensures Resolve(base, names + [name] + [".."]) == Resolve(base, names)
    ensures Resolve([], [".."]) == []
  {
    hide Resolve;
    ResolvePush(base, names + [name], "..");
    ResolvePush(base, names, name);
    ResolvePush([], [], "..");
    assert [] + [".."] == [".."];
    ResolvePlain([], []);
  }

  /** A plain path from the root resolves to its names. */
  lemma RootedPath(cwd: seq<string>, names: seq<string>)
    requires names != [] && PlainNames(names)
    ensures Norm(cwd, Slashed(names)) == Some(names)
  {
    hide Names, Resolve, Slashed, PlainNames;
    SlashedStarts(names);
    NamesSlashed("", names);
    NamesEmpty();
    assert "" + Slashed(names) == Slashed(names);
    assert [] + names == names;
    ResolvePlain([], names);
  }

  /** A plain path without a slash in front is taken from the working directory. */
  lemma RelativePath(cwd: seq<string>, names: seq<string>)
    requires names != [] && PlainNames(cwd) && PlainNames(names)
    ensures Norm(cwd, Slashed(names)[1..]) == Some(cwd + names)
  {
    hide Names, Resolve, Slashed;
    RelativeNames(names);
    assert [] + (cwd + names) == cwd + names;
    ResolvePlain([], cwd + names);
  }

  lemma RelativeNames(names: seq<string>)
    requires names != [] && PlainNames(names)
    ensures Slashed(names) != ""
    ensures var s := Slashed(names)[1..]; s != "" && !IsAbsolute(s) && Names(s) == names
  {
    hide Names, Slashed;
    var first := names[0];
    assert PlainName(first);
    SlashedStarts(names);
    NameAlone(first);
    NamesSlashed(first, names[1..]);
    assert [first] + names[1..] == names;
    assert Slashed(names)[1..] == first + Slashed(names[1..]);
  }

  /** The root has no names, and the empty path is no path. */
  lemma NoPath(cwd: seq<string>)
    ensures Norm(cwd, "") == None && Norm(cwd, "/") == Some([])
  {
    hide Names, Resolve;
    RootHasNoNames();
    var none: seq<string> := [];
    assert none + none == none;
  }

  lemma RootHasNoNames()
    ensures Names("/") == [] && Resolve([], []) == []
  {
    hide Names;
    NamesAfterLead('/', "");
    NamesEmpty();
    assert ['/'] + "" == "/";
  }

  lemma {:induction false} SlashedStarts(names: seq<string>)
    requires names != []
    ensures Slashed(names) == "/" + names[0] + Slashed(names[1..])
    decreases |names|
  {
    hide Slashed;
    var init, last := names[..|names| - 1], names[|names| - 1];
    assert init + [last] == names;
    SlashedLast(init, last);
    NoNames();
    if init == [] {
      assert names[1..] == [];
      assert "" + "/" + last == "/" + names[0] + "";
    } else {
      SlashedStarts(init);
      assert names[1..] == init[1..] + [last];
      SlashedLast(init[1..], last);
      assert "/" + names[0] + Slashed(init[1..]) + "/" + last == "/" + names[0] + (Slashed(init[1..]) + "/" + last);
    }
  }

  lemma Endings(s: string)
    ensures EndsWith(s, "*") <==> |s| >= 1 && s[|s| - 1] == '*'
    ensures EndsWith(s, " *") <==> |s| >= 2 && s[|s| - 2] == ' ' && s[|s| - 1] == '*'
    ensures EndsWith(s, "/**") <==> |s| >= 3 && s[|s| - 3] == '/' && s[|s| - 2] == '*' && s[|s| - 1] == '*'
  {
    if |s| >= 1 { assert s[|s| - 1..] == [s[|s| - 1]]; }
    if |s| >= 2 { assert s[|s| - 2..] == [s[|s| - 2], s[|s| - 1]]; }
    if |s| >= 3 { assert s[|s| - 3..] == [s[|s| - 3], s[|s| - 2], s[|s| - 1]]; }
  }

  /** A pattern that ends in a star, not behind a space or another star, matches by prefix. */
  lemma StarCovers(cwd: seq<string>, prefix: string, value: string)
    requires prefix != "" && prefix[|prefix| - 1] != ' ' && prefix[|prefix| - 1] != '*'
    ensures ScopeMatches(cwd, prefix + "*", value) <==> prefix <= value
  {
    var pattern := prefix + "*";
    hide EndsWith;
    Endings(pattern);
    assert pattern[|pattern| - 2] == prefix[|prefix| - 1];
    assert EndsWith(pattern, "*") && pattern[..|prefix|] == prefix;
  }

  /** A pattern without a star at its end matches only itself. */
  lemma ExactCovers(cwd: seq<string>, pattern: string, value: string)
    requires pattern == "" || pattern[|pattern| - 1] != '*'
    ensures ScopeMatches(cwd, pattern, value) <==> value == pattern
  {
    hide EndsWith;
    Endings(pattern);
  }

  /** The star alone, and the directory star at the root, match everything. */
  lemma AllCovered(cwd: seq<string>, value: string)
    ensures ScopeMatches(cwd, "*", value) && ScopeMatches(cwd, "**", value) && ScopeMatches(cwd, "/**", value)
  {
    assert EndsWith("/**", "/**") && Without("/**", "/**") == "";
  }

  /** A directory and two stars covers the plain paths with all the directory's names in front. */
  lemma GlobCovers(cwd: seq<string>, dir: seq<string>, names: seq<string>)
    requires dir != [] && names != [] && PlainNames(cwd) && PlainNames(dir) && PlainNames(names)
    ensures ScopeMatches(cwd, Slashed(dir) + "/**", Slashed(names)) <==> dir <= names
    ensures ScopeMatches(cwd, Slashed(dir) + "/**", Slashed(names)[1..]) <==> dir <= cwd + names
  {
    hide Norm, Slashed, PlainNames;
    RootedPath(cwd, dir);
    RootedPath(cwd, names);
    RelativePath(cwd, names);
    var pattern := Slashed(dir) + "/**";
    assert pattern[|pattern| - 3..] == "/**";
    SlashedStarts(dir);
    assert pattern[0] == '/' && Without(pattern, "/**") == Slashed(dir);
  }

  /** The first token: the first run of characters between white space. */
  lemma FirstTokenIs(s: string) returns (i: nat, j: nat)
    ensures (forall k :: 0 <= k < |s| ==> IsWhitespace(s[k])) ==> FirstToken(s) == s
    ensures (exists k :: 0 <= k < |s| && !IsWhitespace(s[k])) ==>
              i < j <= |s| && FirstToken(s) == s[i..j] &&
              (forall k :: 0 <= k < i ==> IsWhitespace(s[k])) && (forall k :: i <= k < j ==> !IsWhitespace(s[k])) &&
              (j < |s| ==> IsWhitespace(s[j]))
  {
    hide IsWhitespace, Word, SkipSpace;
    AllSpace(s);
    SkipIsSpace(s);
    SkipSuffix(s);
    var rest := SkipSpace(s);
    i := |s| - |rest|;
    WordPrefix(rest);
    j := i + |Word(rest)|;
    WordSlice(s, i, Word(rest));
  }

  lemma WordSlice(s: string, i: nat, w: string)
    requires i <= |s| && w <= s[i..] && (forall k :: 0 <= k < |w| ==> !IsWhitespace(w[k]))
    requires |w| < |s| - i ==> IsWhitespace(s[i..][|w|])
    ensures w == s[i..i + |w|] && (i + |w| < |s| ==> IsWhitespace(s[i + |w|]))
    ensures forall k :: i <= k < i + |w| ==> !IsWhitespace(s[k])
  {
    hide IsWhitespace;
    forall k | i <= k < i + |w| ensures !IsWhitespace(s[k]) {
      assert w[k - i] == s[i..][k - i] == s[k];
    }
  }

  lemma {:induction false} SkipIsSpace(s: string)
    ensures |SkipSpace(s)| <= |s| && forall k :: 0 <= k < |s| - |SkipSpace(s)| ==> IsWhitespace(s[k])
    decreases |s|
  {
    hide IsWhitespace;
    if s != "" && IsWhitespace(s[0]) {
      SkipIsSpace(s[1..]);
      assert forall k :: 0 < k < |s| ==> s[k] == s[1..][k - 1];
    }
  }

  lemma LastNameStays(x: string, name: string)
    requires PlainName(name)
    ensures PieceStart(x + "/" + name) == |x| + 1 && TrimTail(x + "/" + name) == x + "/" + name
  {
    PieceOf(x, name);
    assert (x + "/" + name)[|x| + 1..] == name;
  }

  /** The parent of a plain rooted path is the path without its last name. */
  lemma ParentOfPlain(dir: seq<string>, name: string)
    requires dir != [] && PlainNames(dir) && PlainName(name)
    ensures ParentText(Slashed(dir + [name])) == Some(Slashed(dir))
  {
    hide PieceStart, TrimTail, Slashed, PlainNames, PlainName;
    var d := Slashed(dir);
    var s := d + "/" + name;
    SlashedLast(dir, name);
    SlashedStarts(dir);
    var body := s[1..];
    assert body == d[1..] + "/" + name;
    LastNameStays(d[1..], name);
    assert body[..|d| - 1] == d[1..];
    TrimPlain(dir);
    assert s[..1] + d[1..] == d;
  }

  lemma SlashedLast(dir: seq<string>, name: string)
    ensures Slashed(dir + [name]) == Slashed(dir) + "/" + name
  {
    assert (dir + [name])[..|dir|] == dir;
  }

  lemma TrimPlain(dir: seq<string>)
    requires dir != [] && PlainNames(dir)
    ensures Slashed(dir) != "" && TrimTail(Slashed(dir)[1..]) == Slashed(dir)[1..]
  {
    hide PieceStart, TrimTail, Slashed;
    SlashedStarts(dir);
    var init, last := dir[..|dir| - 1], dir[|dir| - 1];
    assert PlainName(last) && init + [last] == dir;
    SlashedLast(init, last);
    if init == [] {
      NoNames();
      assert Slashed(dir)[1..] == last;
      TrimAlone(last);
    } else {
      SlashedStarts(init);
      assert Slashed(dir)[1..] == Slashed(init)[1..] + "/" + last;
      LastNameStays(Slashed(init)[1..], last);
    }
  }

  lemma NoNames()
    ensures Slashed([]) == ""
  {
  }

  lemma TrimAlone(name: string)
    requires PlainName(name)
    ensures TrimTail(name) == name
  {
    NameAlone(name);
    assert name[0..] == name;
  }

  /**
   What allowing one scope grants: for the shell, the command alone or with arguments; for a tool
   that writes files, the directory of the file; for a tool of a server, everything; for any other
   tool, the very scope.
   */
  lemma GeneralizeGrants(cwd: seq<string>, server: string, tool: string, name: string, scope: string, value: string,
                         dir: seq<string>, file: string, names: seq<string>)
    requires dir != [] && names != [] && PlainNames(cwd) && PlainNames(dir) && PlainName(file) && PlainNames(names)
    ensures ScopeMatches(cwd, Generalize(McpTool(server, tool), scope), value) &&
            ScopeMatches(cwd, Generalize(McpServer(server), scope), value)
    ensures IsBash(name) ==>
              var command := FirstToken(scope);
              (ScopeMatches(cwd, Generalize(Native(name), scope), value) <==> value == command || command + " " <= value)
    ensures IsFileWrite(name) && !IsBash(name) ==>
              (ScopeMatches(cwd, Generalize(Native(name), Slashed(dir + [file])), Slashed(names)) <==> dir <= names)
    ensures !IsBash(name) && !IsFileWrite(name) && (scope == "" || scope[|scope| - 1] != '*') ==>
              (ScopeMatches(cwd, Generalize(Native(name), scope), value) <==> value == scope)
  {
    hide IsBash, IsFileWrite, ScopeMatches, ParentText, FirstToken, Slashed, PlainNames, PlainName;
    StarMatches(cwd, value);
    if IsBash(name) {
      SpacePattern(cwd, FirstToken(scope), value);
    } else if IsFileWrite(name) {
      ParentOfPlain(dir, file);
      SlashedStarts(dir);
      GlobCovers(cwd, dir, names);
    } else {
      if scope == "" || scope[|scope| - 1] != '*' {
        ExactCovers(cwd, scope, value);
      }
    }
  }

  /** A file in the working directory or at the root has no directory to name: every path is granted. */
  lemma BareFileGrantsAll(cwd: seq<string>, name: string, file: string)
    requires IsFileWrite(name) && !IsBash(name) && PlainName(file)
    ensures Generalize(Native(name), file) == "**" && Generalize(Native(name), "/" + file) == "//**"
  {
    hide IsBash, IsFileWrite, ParentText;
    ParentOfFile(file);
  }

  lemma ParentOfFile(file: string)
    requires PlainName(file)
    ensures ParentText(file) == Some("") && ParentText("/" + file) == Some("/")
  {
    hide PieceStart;
    NameAlone(file);
    TrimAlone(file);
    assert file[0..] == file && file[..0] == "" && ("/" + file)[1..] == file;
    assert ("/" + file)[..1] == "/" && "" + "" == "" && "/" + "" == "/";
    assert |file| >= 2 ==> file[1] in file;
    assert LeadLength(file) == 0;
    TrimNothing();
    assert Above(file) == "";
  }

  lemma TrimNothing()
    ensures TrimTail("") == ""
  {
  }

  lemma TrimSlashed(dir: seq<string>)
    requires PlainNames(dir)
    ensures TrimTail(Slashed(dir)) == Slashed(dir)
  {
    hide PieceStart, TrimTail, Slashed;
    NoNames();
    TrimNothing();
    if dir != [] {
      var init, last := dir[..|dir| - 1], dir[|dir| - 1];
      assert PlainName(last) && init + [last] == dir;
      SlashedLast(init, last);
      LastNameStays(Slashed(init), last);
    }
  }

  /** A path that starts with a dot keeps it in its parent. */
  lemma ParentFromDot(dir: seq<string>, file: string)
    requires PlainNames(dir) && PlainName(file)
    ensures ParentText("." + Slashed(dir + [file])) == Some("." + Slashed(dir))
    ensures ParentText(".") == Some("") && ParentText("") == None && ParentText("/") == None
  {
    hide PieceStart, TrimTail, Slashed, PlainNames, PlainName;
    var d := Slashed(dir);
    SlashedLast(dir, file);
    var body := d + "/" + file;
    var s := "." + body;
    assert (if d == "" then body else d)[0] == '/' by {
      if dir != [] {
        SlashedStarts(dir);
      } else {
        NoNames();
      }
    }
    assert s[0] == '.' && s[1] == '/' && s[1..] == body && s[..1] == ".";
    LastNameStays(d, file);
    assert body[..|d|] == d;
    TrimSlashed(dir);
    TrimNothing();
    var none := "";
    assert "."[1..] == "" && "/"[1..] == "" && none[0..] == none;
  }

  /** The parent of a plain relative path, as long as it has a directory. */
  lemma ParentOfRelative(dir: seq<string>, file: string)
    requires dir != [] && PlainNames(dir) && PlainName(file)
    ensures Slashed(dir) != "" && Slashed(dir + [file]) != ""
    ensures ParentText(Slashed(dir + [file])[1..]) == Some(Slashed(dir)[1..])
  {
    hide PieceStart, TrimTail, Slashed, PlainNames;
    SlashedLast(dir, file);
    SlashedStarts(dir);
    TrimPlain(dir);
    var d := Slashed(dir)[1..];
    var s := d + "/" + file;
    assert Slashed(dir + [file])[1..] == s;
    NoLead(dir, file);
    LastNameStays(d, file);
    assert s[0..] == s && s[..|d|] == d && s[..0] + d == d;
  }

  lemma NoLead(dir: seq<string>, file: string)
    requires dir != [] && PlainNames(dir)
    ensures Slashed(dir) != "" && LeadLength(Slashed(dir)[1..] + "/" + file) == 0
  {
    hide Slashed;
    SlashedStarts(dir);
    var first := dir[0];
    assert PlainName(first);
    var s := first + (Slashed(dir[1..]) + "/" + file);
    assert Slashed(dir)[1..] + "/" + file == s;
    assert s[0] == first[0] && first[0] in first;
    if |first| >= 2 {
      assert s[1] == first[1] && first[1] in first;
    } else {
      assert first == [first[0]];
    }
  }
}
