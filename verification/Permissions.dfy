/** The permission manager: checking rules, enforcing with a prompt, and applying answers. */
module Permissions {
  import opened Wrappers
  import opened PermissionScope

  datatype Effect = Allow | Deny
  datatype DefaultEffect = AllowByDefault | DenyByDefault | Prompt
  datatype Rule = Rule(tool: ToolKey, scope: Option<string>, effect: Effect)
  datatype Check = Allowed | Denied | NeedsPrompt(tool: ToolKey, scopes: seq<string>, forcePrompt: bool)

  /** The process's working and home directories, as components. */
  datatype Env = Env(cwd: seq<string>, home: Option<seq<string>>)

  /** A call to be checked. */
  datatype Call = Call(tool: ToolKey, scopes: seq<string>, forcePrompt: bool, planPath: Option<string>)

  // ----------------------------------------------------- what a check means

  predicate Hits(env: Env, r: Rule, tool: ToolKey, scope: string) {
    MatchesRule(r.tool, tool) && (r.scope.None? || ScopeMatches(env.cwd, r.scope.value, scope))
  }

  predicate SomeHit(env: Env, rules: set<Rule>, tool: ToolKey, scope: string, effect: Effect) {
    exists r :: r in rules && r.effect == effect && Hits(env, r, tool, scope)
  }

  predicate AnyDenied(env: Env, rules: set<Rule>, tool: ToolKey, scopes: seq<string>) {
    exists s :: s in scopes && SomeHit(env, rules, tool, s, Deny)
  }

  /** The scopes no allow rule covers, in order. */
  function Unclaimed(env: Env, rules: set<Rule>, tool: ToolKey, scopes: seq<string>): seq<string> {
    if scopes == [] then []
    else
      var s := scopes[|scopes| - 1];
      Unclaimed(env, rules, tool, scopes[..|scopes| - 1]) + if SomeHit(env, rules, tool, s, Allow) then [] else [s]
  }

  /** `normalize_scope_path`: `~` expanded, made absolute, resolved lexically. */
  function Expanded(env: Env, path: string): seq<string> {
    if "~/" <= path && env.home.Some? then
      var rest := path[2..]; Resolve([], (if IsAbsolute(rest) then [] else env.home.value) + Names(rest))
    else if path == "~" && env.home.Some? then Resolve([], env.home.value)
    else Resolve([], (if IsAbsolute(path) then [] else env.cwd) + Names(path))
  }

  predicate IsPlanWrite(env: Env, tool: ToolKey, pending: seq<string>, planPath: Option<string>) {
    planPath.Some? && tool.Native? && IsFileWrite(tool.name) &&
    forall s :: s in pending ==> Expanded(env, s) == Expanded(env, planPath.value)
  }

  function ByDefault(effect: DefaultEffect, tool: ToolKey, pending: seq<string>, forcePrompt: bool): Check {
    match effect
    case DenyByDefault => Denied
    case AllowByDefault => Allowed
    case Prompt => NeedsPrompt(tool, pending, forcePrompt)
  }

  function Pending(env: Env, rules: set<Rule>, call: Call): seq<string> {
    if call.forcePrompt then call.scopes else Unclaimed(env, rules, call.tool, call.scopes)
  }

  /** The answer to a check, from the set of rules alone. */
  function Decide(env: Env, rules: set<Rule>, yolo: bool, effect: DefaultEffect, call: Call): Check {
    if AnyDenied(env, rules, call.tool, call.scopes) then Denied
    else if yolo then Allowed
    else
      var pending := Pending(env, rules, call);
      if pending == [] || (!call.forcePrompt && IsPlanWrite(env, call.tool, pending, call.planPath)) then Allowed
      else ByDefault(effect, call.tool, pending, call.forcePrompt)
  }

  // ------------------------------------------------------- default effects

  /** The order of `str`. */
  predicate LexLeq(a: string, b: string) {
    a == "" || (b != "" && (a[0] < b[0] || (a[0] == b[0] && LexLeq(a[1..], b[1..]))))
  }

  lemma {:induction false} LexTotal(a: string, b: string)
    ensures LexLeq(a, b) || LexLeq(b, a)
    ensures LexLeq(a, b) && LexLeq(b, a) ==> a == b
    decreases |a|
  {
    if a != "" && b != "" {
      LexTotal(a[1..], b[1..]);
      assert a == [a[0]] + a[1..] && b == [b[0]] + b[1..];
    }
  }

  lemma {:induction false} LexTransitive(a: string, b: string, c: string)
    requires LexLeq(a, b) && LexLeq(b, c)
    ensures LexLeq(a, c)
    decreases |a|
  {
    if a != "" && b != "" && c != "" && a[0] == b[0] == c[0] {
      LexTransitive(a[1..], b[1..], c[1..]);
    }
  }

  ghost predicate IsLeast(names: set<string>, n: string) { n in names && forall m :: m in names ==> LexLeq(n, m) }

  lemma {:induction false} LeastExists(names: set<string>)
    requires names != {}
    ensures exists n :: IsLeast(names, n)
    decreases |names|
  {
    var x :| x in names;
    var rest := names - {x};
    if rest == {} {
      LeastOfMore({}, None, x);
      assert {} + {x} == names;
    } else {
      LeastExists(rest);
      var y :| IsLeast(rest, y);
      LeastOfMore(rest, Some(y), x);
      assert rest + {x} == names;
    }
  }

  lemma LeastUnique(names: set<string>, a: string, b: string)
    requires IsLeast(names, a) && IsLeast(names, b)
    ensures a == b
  {
    LexTotal(a, b);
  }

  lemma LeastOfMore(names: set<string>, best: Option<string>, n: string)
    requires if best.None? then names == {} else IsLeast(names, best.value)
    ensures IsLeast(names + {n}, if best.None? || !LexLeq(best.value, n) then n else best.value)
  {
    LexTotal(n, n);
    if best.Some? {
      LexTotal(n, best.value);
      if !LexLeq(best.value, n) {
        forall m | m in names ensures LexLeq(n, m) {
          LexTransitive(n, best.value, m);
        }
      }
    }
  }

  ghost function Least(names: set<string>): (n: string)
    requires names != {}
    ensures IsLeast(names, n)
  {
    LeastExists(names);
    var n :| IsLeast(names, n);
    n
  }

  type Defaults = map<ToolKey, DefaultEffect>

  function Get(defaults: Defaults, key: ToolKey): Option<DefaultEffect> {
    if key in defaults then Some(defaults[key]) else None
  }

  /** The configured names that are aliases of the same canonical tool. */
  ghost function Aliases(keys: set<ToolKey>, canonical: string): set<string> {
    set k | k in keys && k.Native? && CanonicalToolName(k.name) == canonical :: k.name
  }

  lemma OneMoreKey(keys: set<ToolKey>, k: ToolKey, canonical: string)
    ensures Aliases(keys + {k}, canonical) ==
            Aliases(keys, canonical) + if k.Native? && CanonicalToolName(k.name) == canonical then {k.name} else {}
  {
    hide CanonicalToolName;
  }

  /** The default for a tool, with no mention of the order in which a map is walked. */
  ghost function DefaultFor(defaults: Defaults, tool: ToolKey): Option<DefaultEffect> {
    if tool in defaults then Some(defaults[tool])
    else match tool
      case Native(actual) =>
        var canonical := CanonicalToolName(actual);
        if Native(canonical) in defaults then Some(defaults[Native(canonical)])
        else if Aliases(defaults.Keys, canonical) != {} then Get(defaults, Native(Least(Aliases(defaults.Keys, canonical))))
        else Get(defaults, Wildcard)
      case McpTool(server, _) =>
        if McpServer(server) in defaults then Some(defaults[McpServer(server)]) else Get(defaults, Wildcard)
      case _ => Get(defaults, Wildcard)
  }

  /** The first entry, in whatever order the map yields them, whose name is the canonical one. */
  method FindExact(defaults: Defaults, canonical: string) returns (found: Option<DefaultEffect>)
    ensures found == Get(defaults, Native(canonical))
  {
    var keys := defaults.Keys;
    while keys != {}
      invariant keys <= defaults.Keys && (Native(canonical) in defaults ==> Native(canonical) in keys)
      decreases |keys|
    {
      var k :| k in keys;
      if k.Native? && k.name == canonical {
        return Some(defaults[k]);
      }
      keys := keys - {k};
    }
    return None;
  }

  /** The smallest alias, in whatever order the map yields its entries. */
  method FindAlias(defaults: Defaults, canonical: string) returns (found: Option<DefaultEffect>)
    ensures found == if Aliases(defaults.Keys, canonical) == {} then None
                     else Get(defaults, Native(Least(Aliases(defaults.Keys, canonical))))
  {
    hide CanonicalToolName, Aliases, IsLeast, LexLeq;
    var keys := defaults.Keys;
    var best: Option<string> := None;
    ghost var walked: set<ToolKey> := {};
    found := None;
    NoKeys(canonical);
    while keys != {}
      invariant keys <= defaults.Keys && walked == defaults.Keys - keys
      invariant best.None? <==> Aliases(walked, canonical) == {}
      invariant best.None? ==> found.None?
      invariant best.Some? ==> IsLeast(Aliases(walked, canonical), best.value) && Native(best.value) in defaults &&
                               found == Some(defaults[Native(best.value)])
      decreases |keys|
    {
      var k :| k in keys;
      keys := keys - {k};
      OneMoreKey(walked, k, canonical);
      if k.Native? && CanonicalToolName(k.name) == canonical {
        LeastOfMore(Aliases(walked, canonical), best, k.name);
        if best.None? || !LexLeq(best.value, k.name) {
          best, found := Some(k.name), Some(defaults[k]);
        }
      }
      walked := walked + {k};
    }
    assert walked == defaults.Keys;
    if best.Some? {
      LeastUnique(Aliases(walked, canonical), best.value, Least(Aliases(walked, canonical)));
    }
  }

  lemma NoKeys(canonical: string)
    ensures Aliases({}, canonical) == {}
  {
  }

  /** `resolve_tool_default`. */
  method ResolveToolDefault(defaults: Defaults, tool: ToolKey) returns (found: Option<DefaultEffect>)
    ensures found == DefaultFor(defaults, tool)
  {
    if tool in defaults {
      return Some(defaults[tool]);
    }
    match tool
    case Native(actual) =>
      var canonical := CanonicalToolName(actual);
      found := FindExact(defaults, canonical);
      if found.None? {
        found := FindAlias(defaults, canonical);
      }
      if found.None? {
        found := Get(defaults, Wildcard);
      }
    case McpTool(server, _) =>
      found := Get(defaults, McpServer(server));
      if found.None? {
        found := Get(defaults, Wildcard);
      }
    case _ =>
      found := Get(defaults, Wildcard);
  }

  // --------------------------------------------------------------- answers

  datatype PermissionAnswer =
    | AllowOnce
    | AllowSession
    | AllowAlwaysLocal
    | AllowAlwaysGlobal
    | DenyOnce
    | DenyWithGuidance(guidance: string)
    | DenyAlwaysLocal
    | DenyAlwaysGlobal

  predicate IsAllow(a: PermissionAnswer) {
    a.AllowOnce? || a.AllowSession? || a.AllowAlwaysLocal? || a.AllowAlwaysGlobal?
  }

  function Encode(a: PermissionAnswer): string {
    match a
    case AllowOnce => "allow"
    case AllowSession => "allow_session"
    case AllowAlwaysLocal => "allow_always_local"
    case AllowAlwaysGlobal => "allow_always_global"
    case DenyOnce => "deny"
    case DenyWithGuidance(g) => "deny:" + g
    case DenyAlwaysLocal => "deny_always_local"
    case DenyAlwaysGlobal => "deny_always_global"
  }

  function Decode(s: string): Option<PermissionAnswer> {
    if s == "allow" then Some(AllowOnce)
    else if s == "allow_session" then Some(AllowSession)
    else if s == "allow_always_local" then Some(AllowAlwaysLocal)
    else if s == "allow_always_global" then Some(AllowAlwaysGlobal)
    else if s == "deny" then Some(DenyOnce)
    else if s == "deny_always_local" then Some(DenyAlwaysLocal)
    else if s == "deny_always_global" then Some(DenyAlwaysGlobal)
    else if "deny:" <= s then (if s[5..] == "" then Some(DenyOnce) else Some(DenyWithGuidance(s[5..])))
    else None
  }

  /** Every answer survives the wire but one: guidance that is empty comes back as a plain denial. */
  lemma AnswerRoundTrip(a: PermissionAnswer)
    ensures Decode(Encode(a)) == Some(if a == DenyWithGuidance("") then DenyOnce else a)
  {
    if a.DenyWithGuidance? {
      var s := Encode(a);
      assert s[4] == ':' && s[5..] == a.guidance;
    }
  }

  predicate Lasting(a: PermissionAnswer) { !a.AllowOnce? && !a.DenyOnce? && !a.DenyWithGuidance? }

  function Recorded(tool: ToolKey, scope: string, a: PermissionAnswer): string {
    if IsAllow(a) || IsMcp(tool) then Generalize(tool, scope) else scope
  }

  /** The rules an answer adds. */
  function Granted(tool: ToolKey, scopes: seq<string>, a: PermissionAnswer): set<Rule> {
    if !Lasting(a) then {}
    else set s | s in scopes :: Rule(tool, Some(Recorded(tool, s, a)), if IsAllow(a) then Allow else Deny)
  }

  function ToSet<T(==)>(s: seq<T>): set<T> { set x | x in s }

  lemma PatternsNext(tool: ToolKey, scopes: seq<string>, k: nat)
    requires k < |scopes|
    ensures (set s | s in scopes[..k + 1] :: Generalize(tool, s)) ==
            (set s | s in scopes[..k] :: Generalize(tool, s)) + {Generalize(tool, scopes[k])}
  {
    hide Generalize;
    assert scopes[..k + 1] == scopes[..k] + [scopes[k]];
    assert scopes[k] in scopes[..k + 1];
  }

  /** `generalized_scopes`: one pattern per scope, each kept the first time it appears. */
  method GeneralizedScopes(tool: ToolKey, scopes: seq<string>) returns (patterns: seq<string>)
    ensures ToSet(patterns) == set s | s in scopes :: Generalize(tool, s)
    ensures forall i, j :: 0 <= i < j < |patterns| ==> patterns[i] != patterns[j]
  {
    hide Generalize;
    patterns := [];
    for k := 0 to |scopes|
      invariant ToSet(patterns) == set s | s in scopes[..k] :: Generalize(tool, s)
      invariant forall i, j :: 0 <= i < j < |patterns| ==> patterns[i] != patterns[j]
    {
      var g := Generalize(tool, scopes[k]);
      PatternsNext(tool, scopes, k);
      if g !in patterns {
        assert ToSet(patterns + [g]) == ToSet(patterns) + {g};
        patterns := patterns + [g];
      } else {
        assert g in ToSet(patterns);
      }
    }
    assert scopes[..|scopes|] == scopes;
  }

  // --------------------------------------------------------------- enforcing

  datatype Verdict = Ok | Err(guidance: Option<string>)

  /** What `enforce` comes to; `waited` when it took the response lock. */
  datatype Enforced = Enforced(verdict: Verdict, waited: bool, asked: Option<seq<string>>, added: set<Rule>)

  function Answered(tool: ToolKey, asked: seq<string>, response: Option<string>): Enforced {
    if response.None? then Enforced(Err(None), true, Some(asked), {})
    else
      var a := Decode(response.value);
      if a.None? then Enforced(Err(None), true, Some(asked), {})
      else
        var guidance := if a.value.DenyWithGuidance? then Some(a.value.guidance) else None;
        Enforced(if IsAllow(a.value) then Ok else Err(guidance), true, Some(asked), Granted(tool, asked, a.value))
  }

  /** `before` and `after` are the rules and the yolo switch at the first check and at the re-check. */
  function EnforceSpec(env: Env, before: set<Rule>, yolo: bool, after: set<Rule>, yolo': bool, effect: DefaultEffect,
                       call: Call, channel: bool, response: Option<string>): Enforced
  {
    match Decide(env, before, yolo, effect, call)
    case Allowed => Enforced(Ok, false, None, {})
    case Denied => Enforced(Err(None), false, None, {})
    case NeedsPrompt(_, pending, _) =>
      if !channel then Enforced(Err(None), false, None, {})
      else
        match Decide(env, after, yolo', effect, call.(scopes := pending))
        case Allowed => Enforced(Ok, true, None, {})
        case Denied => Enforced(Err(None), true, None, {})
        case NeedsPrompt(_, asked, _) => Answered(call.tool, asked, response)
  }

  // ------------------------------------------------------------- the manager

  class PermissionManager {
    var sessionRules: seq<Rule>
    var yolo: bool
    const configRules: seq<Rule>
    const builtinRules: seq<Rule>
    const default: DefaultEffect
    const toolDefaults: Defaults
    const env: Env

    constructor (config: seq<Rule>, builtin: seq<Rule>, yolo: bool, default: DefaultEffect, toolDefaults: Defaults, env: Env)
      ensures Rules() == ToSet(config) + ToSet(builtin) && sessionRules == [] && this.yolo == yolo
    {
      sessionRules, this.yolo := [], yolo;
      configRules, builtinRules, this.default, this.toolDefaults, this.env := config, builtin, default, toolDefaults, env;
    }

    ghost function Rules(): set<Rule> reads this { ToSet(sessionRules) + ToSet(configRules) + ToSet(builtinRules) }

    ghost function Effective(tool: ToolKey): DefaultEffect {
      var found := DefaultFor(toolDefaults, tool); if found.Some? then found.value else default
    }

    /** One scope against every rule, in session, config, builtin order; stops at the first denial. */
    method CheckScope(tool: ToolKey, scope: string) returns (denied: bool, hasAllow: bool)
      ensures denied == SomeHit(env, Rules(), tool, scope, Deny)
      ensures !denied ==> hasAllow == SomeHit(env, Rules(), tool, scope, Allow)
    {
      hide Hits;
      var all := sessionRules + configRules + builtinRules;
      assert ToSet(all) == Rules();
      denied, hasAllow := false, false;
      for j := 0 to |all|
        invariant forall i :: 0 <= i < j && all[i].effect.Deny? ==> !Hits(env, all[i], tool, scope)
        invariant hasAllow <==> exists i :: 0 <= i < j && all[i].effect.Allow? && Hits(env, all[i], tool, scope)
      {
        if Hits(env, all[j], tool, scope) {
          assert all[j] in Rules();
          if all[j].effect.Deny? {
            return true, hasAllow;
          }
          hasAllow := true;
        }
      }
      HitIff(all, env, tool, scope, Deny);
      HitIff(all, env, tool, scope, Allow);
    }

    /** `check_inner`. */
    method CheckInner(call: Call) returns (c: Check)
      ensures c == Decide(env, Rules(), yolo, Effective(call.tool), call)
    {
      hide SomeHit, DefaultFor, IsFileWrite, Expanded, Unclaimed;
      var unclaimed: seq<string> := [];
      UnclaimedNone(env, Rules(), call.tool);
      for i := 0 to |call.scopes|
        invariant forall k :: 0 <= k < i ==> !SomeHit(env, Rules(), call.tool, call.scopes[k], Deny)
        invariant unclaimed == if call.forcePrompt then [] else Unclaimed(env, Rules(), call.tool, call.scopes[..i])
      {
        var denied, hasAllow := CheckScope(call.tool, call.scopes[i]);
        if denied {
          assert call.scopes[i] in call.scopes;
          return Denied;
        }
        UnclaimedNext(env, Rules(), call.tool, call.scopes, i);
        if !hasAllow && !call.forcePrompt {
          unclaimed := unclaimed + [call.scopes[i]];
        }
      }
      assert !AnyDenied(env, Rules(), call.tool, call.scopes);
      assert call.scopes[..|call.scopes|] == call.scopes;
      if yolo {
        return Allowed;
      }
      var pending := if call.forcePrompt then call.scopes else unclaimed;
      if pending == [] {
        return Allowed;
      }
      if !call.forcePrompt && IsPlanWrite(env, call.tool, pending, call.planPath) {
        return Allowed;
      }
      var found := ResolveToolDefault(toolDefaults, call.tool);
      c := ByDefault(if found.Some? then found.value else default, call.tool, pending, call.forcePrompt);
    }

    /** `add_session_rule`: a rule already there is not added again. */
    method AddSessionRule(rule: Rule)
      modifies this`sessionRules
      ensures sessionRules == old(sessionRules) + if rule in old(sessionRules) then [] else [rule]
      ensures Rules() == old(Rules()) + {rule}
    {
      if rule !in sessionRules {
        sessionRules := sessionRules + [rule];
      }
    }

    /** `apply_decision`, without the copy written to the configuration file. */
    method ApplyDecision(tool: ToolKey, scopes: seq<string>, a: PermissionAnswer)
      modifies this`sessionRules
      ensures old(sessionRules) <= sessionRules
      ensures Rules() == old(Rules()) + Granted(tool, scopes, a)
    {
      hide Generalize, RulesFor, ToSet, Granted;
      var resolved := scopes;
      NoRules(tool, scopes, a);
      if IsAllow(a) || IsMcp(tool) {
        resolved := GeneralizedScopes(tool, scopes);
      }
      if !Lasting(a) {
        return;
      }
      var effect := if IsAllow(a) then Allow else Deny;
      ghost var before := Rules();
      for k := 0 to |resolved|
        invariant old(sessionRules) <= sessionRules
        invariant Rules() == before + RulesFor(tool, resolved[..k], effect)
      {
        AddSessionRule(Rule(tool, Some(resolved[k]), effect));
        RulesForNext(tool, resolved, k, effect);
      }
      assert resolved[..|resolved|] == resolved;
      GrantedAre(tool, scopes, a, resolved);
    }

    /**
     * `enforce`. While the caller waits for the response lock others may answer prompts of
     * their own: `interim` are the rules added meanwhile, `yolo'` the switch they leave behind.
     * `late` are rules that arrive after the re-check: an earlier answerer applies its rule once
     * it has released the lock.
     */
    method Enforce(call: Call, channel: bool, interim: seq<Rule>, yolo': bool, late: seq<Rule>, response: Option<string>)
      returns (verdict: Verdict, asked: Option<seq<string>>)
      modifies this`sessionRules, this`yolo
      ensures var spec := EnforceSpec(env, old(Rules()), old(yolo), old(Rules()) + ToSet(interim), yolo',
                                      Effective(call.tool), call, channel, response);
              verdict == spec.verdict && asked == spec.asked &&
              Rules() == old(Rules()) + (if spec.waited then ToSet(interim) else {}) +
                         (if spec.asked.Some? then ToSet(late) else {}) + spec.added
    {
      hide Decide, Granted, DefaultFor, Decode, Encode;
      var first := CheckInner(call);
      if first.Allowed? {
        return Ok, None;
      }
      if first.Denied? || !channel {
        return Err(None), None;
      }
      ghost var r0, y0 := Rules(), yolo;
      sessionRules, yolo := sessionRules + interim, yolo';
      assert Rules() == r0 + ToSet(interim);
      FirstPrompt(env, r0, y0, Effective(call.tool), call);
      var second := CheckInner(call.(scopes := first.scopes));
      if second.Allowed? {
        return Ok, None;
      }
      if second.Denied? {
        return Err(None), None;
      }
      FirstPrompt(env, Rules(), yolo, Effective(call.tool), call.(scopes := first.scopes));
      asked := Some(second.scopes);
      ghost var r1 := Rules();
      sessionRules := sessionRules + late;
      assert Rules() == r1 + ToSet(late);
      if response.None? {
        return Err(None), asked;
      }
      var a := Decode(response.value);
      if a.None? {
        return Err(None), asked;
      }
      ApplyDecision(second.tool, second.scopes, a.value);
      if IsAllow(a.value) {
        return Ok, asked;
      }
      return Err(if a.value.DenyWithGuidance? then Some(a.value.guidance) else None), asked;
    }
  }

  lemma HitIff(all: seq<Rule>, env: Env, tool: ToolKey, scope: string, effect: Effect)
    ensures SomeHit(env, ToSet(all), tool, scope, effect) <==>
            exists i :: 0 <= i < |all| && all[i].effect == effect && Hits(env, all[i], tool, scope)
  {
    hide Hits;
    if SomeHit(env, ToSet(all), tool, scope, effect) {
      var r :| r in ToSet(all) && r.effect == effect && Hits(env, r, tool, scope);
      var i :| 0 <= i < |all| && all[i] == r;
      assert all[i].effect == effect;
    }
  }

  lemma UnclaimedNone(env: Env, rules: set<Rule>, tool: ToolKey)
    ensures Unclaimed(env, rules, tool, []) == []
  {
  }

  lemma UnclaimedNext(env: Env, rules: set<Rule>, tool: ToolKey, scopes: seq<string>, i: nat)
    requires i < |scopes|
    ensures Unclaimed(env, rules, tool, scopes[..i + 1]) ==
            Unclaimed(env, rules, tool, scopes[..i]) + if SomeHit(env, rules, tool, scopes[i], Allow) then [] else [scopes[i]]
  {
    hide SomeHit;
    assert scopes[..i + 1][..i] == scopes[..i];
  }

  function RulesFor(tool: ToolKey, patterns: seq<string>, effect: Effect): set<Rule> {
    set s | s in patterns :: Rule(tool, Some(s), effect)
  }

  lemma RulesForNext(tool: ToolKey, patterns: seq<string>, k: nat, effect: Effect)
    requires k < |patterns|
    ensures RulesFor(tool, patterns[..k + 1], effect) ==
            RulesFor(tool, patterns[..k], effect) + {Rule(tool, Some(patterns[k]), effect)}
  {
    assert patterns[..k + 1] == patterns[..k] + [patterns[k]];
    assert patterns[k] in patterns[..k + 1];
  }

  lemma NoRules(tool: ToolKey, scopes: seq<string>, a: PermissionAnswer)
    ensures !Lasting(a) ==> Granted(tool, scopes, a) == {}
    ensures forall patterns: seq<string>, effect :: RulesFor(tool, patterns[..0], effect) == {}
  {
  }

  lemma GrantedAre(tool: ToolKey, scopes: seq<string>, a: PermissionAnswer, resolved: seq<string>)
    requires Lasting(a)
    requires if IsAllow(a) || IsMcp(tool) then ToSet(resolved) == set s | s in scopes :: Generalize(tool, s)
             else resolved == scopes
    ensures Granted(tool, scopes, a) == RulesFor(tool, resolved, if IsAllow(a) then Allow else Deny)
  {
    hide Generalize;
    assert forall s :: s in resolved <==> s in ToSet(resolved);
  }

  /** A prompt is about the call's own tool, and repeats its `forcePrompt`. */
  lemma FirstPrompt(env: Env, rules: set<Rule>, yolo: bool, effect: DefaultEffect, call: Call)
    ensures var c := Decide(env, rules, yolo, effect, call);
            c.NeedsPrompt? ==>
              c.tool == call.tool && c.forcePrompt == call.forcePrompt &&
              c.scopes == Pending(env, rules, call) && c.scopes != []
  {
  }

  // --------------------------------------------- re-checking what is pending

  lemma {:induction false} UnclaimedSubset(env: Env, rules: set<Rule>, tool: ToolKey, scopes: seq<string>, s: string)
    ensures s in Unclaimed(env, rules, tool, scopes) <==> s in scopes && !SomeHit(env, rules, tool, s, Allow)
    decreases |scopes|
  {
    hide SomeHit;
    if scopes != [] {
      UnclaimedSubset(env, rules, tool, scopes[..|scopes| - 1], s);
    }
  }

  lemma HitGrows(env: Env, rules: set<Rule>, more: set<Rule>, tool: ToolKey, scope: string, effect: Effect)
    requires rules <= more && SomeHit(env, rules, tool, scope, effect)
    ensures SomeHit(env, more, tool, scope, effect)
  {
    hide Hits;
  }

  /** Filtering again what was left before gives what filtering everything gives. */
  lemma {:induction false} UnclaimedTwice(env: Env, rules: set<Rule>, more: set<Rule>, tool: ToolKey, scopes: seq<string>)
    requires rules <= more
    ensures Unclaimed(env, more, tool, Unclaimed(env, rules, tool, scopes)) == Unclaimed(env, more, tool, scopes)
    decreases |scopes|
  {
    hide SomeHit;
    if scopes != [] {
      var before, s := scopes[..|scopes| - 1], scopes[|scopes| - 1];
      UnclaimedTwice(env, rules, more, tool, before);
      var left := Unclaimed(env, rules, tool, before);
      if SomeHit(env, rules, tool, s, Allow) {
        HitGrows(env, rules, more, tool, s, Allow);
        assert left + [] == left;
      } else {
        assert (left + [s])[..|left|] == left;
      }
    }
  }

  /** Some rule denies a scope of the call, but none denies a scope still pending. */
  predicate DeniedOutside(env: Env, rules: set<Rule>, call: Call, pending: seq<string>) {
    AnyDenied(env, rules, call.tool, call.scopes) && !AnyDenied(env, rules, call.tool, pending)
  }

  lemma PendingAgain(env: Env, rules: set<Rule>, more: set<Rule>, call: Call)
    requires rules <= more
    ensures var pending := Pending(env, rules, call);
            Pending(env, more, call.(scopes := pending)) == Pending(env, more, call) &&
            (AnyDenied(env, more, call.tool, pending) ==> AnyDenied(env, more, call.tool, call.scopes))
  {
    hide SomeHit, Unclaimed;
    if !call.forcePrompt {
      UnclaimedTwice(env, rules, more, call.tool, call.scopes);
      forall s { UnclaimedSubset(env, rules, call.tool, call.scopes, s); }
    }
  }

  /**
   * Checking only the pending scopes again, after the rules have grown, answers as checking
   * the whole call would: exactly unless a new rule denies one of the other scopes.
   */
  lemma RecheckIff(env: Env, rules: set<Rule>, yolo: bool, more: set<Rule>, yolo': bool, effect: DefaultEffect, call: Call)
    requires rules <= more && Decide(env, rules, yolo, effect, call).NeedsPrompt?
    ensures var pending := Decide(env, rules, yolo, effect, call).scopes;
            var again := Decide(env, more, yolo', effect, call.(scopes := pending));
            again == Decide(env, more, yolo', effect, call) <==> !DeniedOutside(env, more, call, pending)
  {
    hide AnyDenied, Pending, IsPlanWrite;
    PendingAgain(env, rules, more, call);
    FirstPrompt(env, rules, yolo, effect, call);
  }

  /** With allow rules only, nothing is missed. */
  lemma RecheckAfterAllows(env: Env, rules: set<Rule>, yolo: bool, more: set<Rule>, yolo': bool, effect: DefaultEffect,
                           call: Call)
    requires rules <= more && Decide(env, rules, yolo, effect, call).NeedsPrompt?
    requires forall r :: r in more - rules ==> r.effect == Allow
    ensures var pending := Decide(env, rules, yolo, effect, call).scopes;
            Decide(env, more, yolo', effect, call.(scopes := pending)) == Decide(env, more, yolo', effect, call)
  {
    hide Hits, Decide, IsPlanWrite;
    RecheckIff(env, rules, yolo, more, yolo', effect, call);
    NotDenied(env, rules, yolo, effect, call);
    forall s | s in call.scopes ensures !SomeHit(env, more, call.tool, s, Deny) {
      assert !SomeHit(env, rules, call.tool, s, Deny);
    }
  }

  /**
   * While `ls; cat x` waits to ask about `cat x`, another caller's forced prompt about `ls` is
   * answered with a lasting denial: the re-check misses it.
   */
  lemma RecheckCanMiss(env: Env)
    ensures var tool := Native("run_shell");
            var call := Call(tool, ["ls", "cat x"], false, None);
            var rules := {Rule(tool, Some("ls *"), Allow)};
            var more := rules + Granted(tool, ["ls"], DenyAlwaysLocal);
            Decide(env, rules, false, Prompt, call) == NeedsPrompt(tool, ["cat x"], false) &&
            Decide(env, more, false, Prompt, call.(scopes := ["cat x"])) == NeedsPrompt(tool, ["cat x"], false) &&
            Decide(env, more, false, Prompt, call) == Denied
  {
    hide ScopeMatches, Unclaimed, AnyDenied, MatchesRule, IsFileWrite;
    var tool := Native("run_shell");
    var call := Call(tool, ["ls", "cat x"], false, None);
    var allow, deny := Rule(tool, Some("ls *"), Allow), Rule(tool, Some("ls"), Deny);
    var rules := {allow};
    var more := rules + {deny};
    OneDenial(tool, "ls");
    RuleReflexive(tool);
    ListMatches(env.cwd);
    assert Hits(env, allow, tool, "ls") && Hits(env, deny, tool, "ls");
    assert !Hits(env, allow, tool, "cat x") && !Hits(env, deny, tool, "cat x");
    Denials(env, rules, more, tool, allow, deny);
    hide Hits;
    UnclaimedNone(env, rules, tool);
    UnclaimedNext(env, rules, tool, ["ls", "cat x"], 0);
    UnclaimedNext(env, rules, tool, ["ls", "cat x"], 1);
    assert ["ls", "cat x"][..0] == [] && ["ls", "cat x"][..2] == ["ls", "cat x"];
    OneScope(env, more, tool, "cat x");
  }

  lemma OneDenial(tool: ToolKey, s: string)
    requires !IsMcp(tool)
    ensures Granted(tool, [s], DenyAlwaysLocal) == {Rule(tool, Some(s), Deny)}
  {
    assert s in [s] && Recorded(tool, s, DenyAlwaysLocal) == s;
  }

  lemma ListMatches(cwd: seq<string>)
    ensures ScopeMatches(cwd, "ls *", "ls") && !ScopeMatches(cwd, "ls *", "cat x")
    ensures ScopeMatches(cwd, "ls", "ls") && !ScopeMatches(cwd, "ls", "cat x")
  {
    hide ScopeMatches;
    assert "ls" + " *" == "ls *";
    SpacePattern(cwd, "ls", "ls");
    SpacePattern(cwd, "ls", "cat x");
    assert ("ls" + " ")[0] == 'l' && "cat x"[0] == 'c';
    ExactCovers(cwd, "ls", "ls");
    ExactCovers(cwd, "ls", "cat x");
  }

  lemma Denials(env: Env, rules: set<Rule>, more: set<Rule>, tool: ToolKey, allow: Rule, deny: Rule)
    requires rules == {allow} && more == rules + {deny} && allow.effect == Allow && deny.effect == Deny
    requires Hits(env, allow, tool, "ls") && Hits(env, deny, tool, "ls")
    requires !Hits(env, allow, tool, "cat x") && !Hits(env, deny, tool, "cat x")
    ensures AnyDenied(env, more, tool, ["ls", "cat x"]) && !AnyDenied(env, more, tool, ["cat x"])
    ensures !AnyDenied(env, rules, tool, ["ls", "cat x"])
    ensures SomeHit(env, rules, tool, "ls", Allow) && !SomeHit(env, rules, tool, "cat x", Allow)
    ensures !SomeHit(env, more, tool, "cat x", Allow)
  {
    hide Hits;
    assert "ls" in ["ls", "cat x"];
    assert SomeHit(env, more, tool, "ls", Deny);
    assert forall s :: s in ["ls", "cat x"] ==> s == "ls" || s == "cat x";
  }

  lemma NotDenied(env: Env, rules: set<Rule>, yolo: bool, effect: DefaultEffect, call: Call)
    requires Decide(env, rules, yolo, effect, call) != Denied
    ensures !AnyDenied(env, rules, call.tool, call.scopes)
  {
  }

  /**
   * `enforce` lets a call through only if no rule it saw denies any scope it re-checked, and then
   * only because the check allows it or the user allowed exactly the scopes still unclaimed.
   */
  lemma EnforceSound(env: Env, before: set<Rule>, yolo: bool, after: set<Rule>, yolo': bool, effect: DefaultEffect,
                     call: Call, channel: bool, response: Option<string>)
    requires before <= after
    ensures var e := EnforceSpec(env, before, yolo, after, yolo', effect, call, channel, response);
            e.verdict == Ok ==>
              !AnyDenied(env, before, call.tool, call.scopes) &&
              (e.waited ==> !AnyDenied(env, after, call.tool, Pending(env, before, call))) &&
              match e.asked
              case None =>
                Decide(env, before, yolo, effect, call) == Allowed ||
                Decide(env, after, yolo', effect, call.(scopes := Pending(env, before, call))) == Allowed
              case Some(asked) =>
                asked == Pending(env, after, call) && response.Some? && Decode(response.value).Some? &&
                IsAllow(Decode(response.value).value)
  {
    hide Decode, AnyDenied, IsPlanWrite, Granted, Pending;
    PendingAgain(env, before, after, call);
    FirstPrompt(env, before, yolo, effect, call);
    FirstPrompt(env, after, yolo', effect, call.(scopes := Pending(env, before, call)));
  }

  // ------------------------------------------------------- decisions stick

  /** Denials are never undone by further rules, by yolo, or by the default. */
  lemma DenyMonotone(env: Env, rules: set<Rule>, more: set<Rule>, yolo: bool, effect: DefaultEffect, call: Call)
    requires rules <= more && AnyDenied(env, rules, call.tool, call.scopes)
    ensures Decide(env, more, yolo, effect, call) == Denied
  {
    hide SomeHit;
    var s :| s in call.scopes && SomeHit(env, rules, call.tool, s, Deny);
    HitGrows(env, rules, more, call.tool, s, Deny);
  }

  lemma GrantHits(env: Env, tool: ToolKey, scopes: seq<string>, s: string, a: PermissionAnswer)
    requires Lasting(a) && s in scopes && ScopeMatches(env.cwd, Recorded(tool, s, a), s)
    ensures SomeHit(env, Granted(tool, scopes, a), tool, s, if IsAllow(a) then Allow else Deny)
  {
    hide ScopeMatches, Recorded, MatchesRule;
    var r := Rule(tool, Some(Recorded(tool, s, a)), if IsAllow(a) then Allow else Deny);
    assert r in Granted(tool, scopes, a);
    RuleReflexive(tool);
    assert Hits(env, r, tool, s);
  }

  lemma DenialMatches(env: Env, tool: ToolKey, s: string, a: PermissionAnswer)
    requires !IsAllow(a)
    ensures ScopeMatches(env.cwd, Recorded(tool, s, a), s)
  {
    hide ScopeMatches;
    ScopeReflexive(env.cwd, s);
    StarMatches(env.cwd, s);
  }

  /**
   * After a lasting denial of what a prompt asked about, the same call is denied, whatever
   * else is added, with yolo on, with a forced prompt, with any default and any plan file.
   */
  lemma DenySticks(env: Env, rules: set<Rule>, yolo: bool, effect: DefaultEffect, call: Call, a: PermissionAnswer,
                   later: set<Rule>, yolo': bool, effect': DefaultEffect, call': Call)
    requires Decide(env, rules, yolo, effect, call).NeedsPrompt? && Lasting(a) && !IsAllow(a)
    requires Granted(call.tool, Decide(env, rules, yolo, effect, call).scopes, a) <= later
    requires call'.tool == call.tool && call'.scopes == call.scopes
    ensures Decide(env, later, yolo', effect', call') == Denied
  {
    hide Decide, SomeHit, Granted, ScopeMatches, Recorded;
    FirstPrompt(env, rules, yolo, effect, call);
    var pending := Pending(env, rules, call);
    var s := pending[0];
    assert s in call.scopes by {
      UnclaimedSubset(env, rules, call.tool, call.scopes, s);
    }
    DenialMatches(env, call.tool, s, a);
    GrantHits(env, call.tool, pending, s, a);
    HitGrows(env, Granted(call.tool, pending, a), later, call.tool, s, Deny);
    DenyMonotone(env, later, later, yolo', effect', call');
  }

  lemma HitUnion(env: Env, one: set<Rule>, two: set<Rule>, tool: ToolKey, scope: string, effect: Effect)
    ensures SomeHit(env, one + two, tool, scope, effect) <==>
            SomeHit(env, one, tool, scope, effect) || SomeHit(env, two, tool, scope, effect)
  {
    hide Hits;
    if SomeHit(env, one + two, tool, scope, effect) {
      var r :| r in one + two && r.effect == effect && Hits(env, r, tool, scope);
      assert r in one || r in two;
    }
  }

  /** Some scope's generalised pattern matches `s`. */
  predicate Covered(env: Env, tool: ToolKey, scopes: seq<string>, s: string) {
    exists p :: p in scopes && ScopeMatches(env.cwd, Generalize(tool, p), s)
  }

  /** What the rules of a lasting allow match, and that they deny nothing. */
  lemma GrantCovers(env: Env, tool: ToolKey, scopes: seq<string>, a: PermissionAnswer, s: string)
    requires Lasting(a) && IsAllow(a)
    ensures SomeHit(env, Granted(tool, scopes, a), tool, s, Allow) <==> Covered(env, tool, scopes, s)
    ensures !SomeHit(env, Granted(tool, scopes, a), tool, s, Deny)
  {
    hide ScopeMatches, Generalize, MatchesRule;
    var granted := Granted(tool, scopes, a);
    RuleReflexive(tool);
    if SomeHit(env, granted, tool, s, Allow) {
      var r :| r in granted && r.effect == Allow && Hits(env, r, tool, s);
      var p :| p in scopes && r == Rule(tool, Some(Generalize(tool, p)), Allow);
    }
    if p :| p in scopes && ScopeMatches(env.cwd, Generalize(tool, p), s) {
      var r := Rule(tool, Some(Generalize(tool, p)), Allow);
      assert r in granted && Hits(env, r, tool, s);
    }
  }

  /** `s` is the plan file, and the tool one that writes files. */
  predicate PlanScope(env: Env, call: Call, s: string) {
    call.planPath.Some? && call.tool.Native? && IsFileWrite(call.tool.name) &&
    Expanded(env, s) == Expanded(env, call.planPath.value)
  }

  /** When an unforced call that may have to ask is allowed: scope by scope. */
  lemma AllowedIff(env: Env, rules: set<Rule>, yolo: bool, call: Call)
    requires !call.forcePrompt
    ensures Decide(env, rules, yolo, Prompt, call) == Allowed <==>
            !AnyDenied(env, rules, call.tool, call.scopes) &&
            (yolo || forall s :: s in call.scopes ==> SomeHit(env, rules, call.tool, s, Allow) || PlanScope(env, call, s))
  {
    hide SomeHit, Unclaimed, AnyDenied, IsFileWrite, Expanded;
    forall s { UnclaimedSubset(env, rules, call.tool, call.scopes, s); }
    var pending := Pending(env, rules, call);
    assert pending != [] ==> pending[0] in pending;
    assert IsPlanWrite(env, call.tool, pending, call.planPath) && pending != [] ==> forall s :: s in pending ==> PlanScope(env, call, s);
    assert (forall s :: s in pending ==> PlanScope(env, call, s)) && pending != [] ==> IsPlanWrite(env, call.tool, pending, call.planPath);
  }

  lemma AsksByDefault(env: Env, rules: set<Rule>, yolo: bool, effect: DefaultEffect, call: Call)
    requires Decide(env, rules, yolo, effect, call).NeedsPrompt?
    ensures effect == Prompt && !yolo && !AnyDenied(env, rules, call.tool, call.scopes)
  {
  }

  lemma DeniedUnion(env: Env, one: set<Rule>, two: set<Rule>, tool: ToolKey, scopes: seq<string>)
    requires forall s :: !SomeHit(env, two, tool, s, Deny)
    ensures AnyDenied(env, one + two, tool, scopes) <==> AnyDenied(env, one, tool, scopes)
  {
    hide SomeHit;
    forall s { HitUnion(env, one, two, tool, s, Deny); }
  }

  /**
   * Once a prompt that listed the unclaimed scopes of a call is answered with a lasting allow, and
   * whatever rules `late` others add, when the same call is allowed.
   */
  lemma AllowedAfter(env: Env, rules: set<Rule>, late: set<Rule>, yolo: bool, call: Call, a: PermissionAnswer)
    requires !call.forcePrompt && Lasting(a) && IsAllow(a)
    ensures var pending := Pending(env, rules, call);
            Decide(env, rules + late + Granted(call.tool, pending, a), yolo, Prompt, call) == Allowed <==>
            !AnyDenied(env, rules + late, call.tool, call.scopes) &&
            (yolo || forall s :: s in pending ==>
               SomeHit(env, late, call.tool, s, Allow) || Covered(env, call.tool, pending, s) || PlanScope(env, call, s))
  {
    hide SomeHit, Unclaimed, AnyDenied, Covered, PlanScope, Granted, Decide, IsAllow, Lasting;
    var pending := Pending(env, rules, call);
    var granted := Granted(call.tool, pending, a);
    AllowedIff(env, rules + late + granted, yolo, call);
    forall s { GrantCovers(env, call.tool, pending, a, s); }
    DeniedUnion(env, rules + late, granted, call.tool, call.scopes);
    forall s
      ensures s in pending <==> s in call.scopes && !SomeHit(env, rules, call.tool, s, Allow)
      ensures SomeHit(env, rules + late + granted, call.tool, s, Allow) <==>
              SomeHit(env, rules, call.tool, s, Allow) || SomeHit(env, late, call.tool, s, Allow) ||
              Covered(env, call.tool, pending, s)
    {
      UnclaimedSubset(env, rules, call.tool, call.scopes, s);
      HitUnion(env, rules, late, call.tool, s, Allow);
      HitUnion(env, rules + late, granted, call.tool, s, Allow);
    }
  }

  /**
   * After a lasting allow of a prompt that was not forced, the same call is allowed if and only if
   * every scope asked about is matched by some generalised pattern, or is the plan file.
   */
  lemma AllowSticksIff(env: Env, rules: set<Rule>, yolo: bool, effect: DefaultEffect, call: Call, a: PermissionAnswer)
    requires !call.forcePrompt && Lasting(a) && IsAllow(a)
    requires Decide(env, rules, yolo, effect, call).NeedsPrompt?
    ensures var pending := Decide(env, rules, yolo, effect, call).scopes;
            Decide(env, rules + Granted(call.tool, pending, a), yolo, effect, call) == Allowed <==>
            forall s :: s in pending ==> Covered(env, call.tool, pending, s) || PlanScope(env, call, s)
  {
    hide Decide, SomeHit, AnyDenied, Covered, PlanScope, Granted, Pending;
    AsksByDefault(env, rules, yolo, effect, call);
    FirstPrompt(env, rules, yolo, effect, call);
    AllowedAfter(env, rules, {}, yolo, call, a);
    assert rules + {} == rules;
    forall s { NoRuleHits(env, call.tool, s, Allow); }
  }

  lemma NoRuleHits(env: Env, tool: ToolKey, s: string, effect: Effect)
    ensures !SomeHit(env, {}, tool, s, effect)
  {
  }

  /** It is enough that each scope is covered by its own pattern. */
  lemma AllowSticks(env: Env, rules: set<Rule>, yolo: bool, effect: DefaultEffect, call: Call, a: PermissionAnswer)
    requires !call.forcePrompt && Decide(env, rules, yolo, effect, call).NeedsPrompt? && Lasting(a) && IsAllow(a)
    requires forall s :: s in Decide(env, rules, yolo, effect, call).scopes ==> Sticks(env.cwd, call.tool, s)
    ensures var granted := Granted(call.tool, Decide(env, rules, yolo, effect, call).scopes, a);
            Decide(env, rules + granted, yolo, effect, call) == Allowed
  {
    hide Decide, Granted, Sticks, PlanScope, ScopeMatches, Generalize, IsAllow, Lasting;
    AllowSticksIff(env, rules, yolo, effect, call, a);
    forall s { GeneralizeSticksIff(env.cwd, call.tool, s); }
  }

  /** `enforce` and the next check of the same call: what an answered prompt is worth. */
  lemma EnforcedAllowSticks(env: Env, before: set<Rule>, yolo: bool, after: set<Rule>, yolo': bool, effect: DefaultEffect,
                            call: Call, channel: bool, response: Option<string>, late: set<Rule>, yolo'': bool)
    requires before <= after && !call.forcePrompt
    requires response.Some? && Decode(response.value).Some?
    requires var a := Decode(response.value).value; Lasting(a) && IsAllow(a)
    requires EnforceSpec(env, before, yolo, after, yolo', effect, call, channel, response).asked.Some?
    ensures var e := EnforceSpec(env, before, yolo, after, yolo', effect, call, channel, response);
            Decide(env, after + late + e.added, yolo'', effect, call) == Allowed <==>
            !AnyDenied(env, after + late, call.tool, call.scopes) &&
            (yolo'' || forall s :: s in e.asked.value ==>
               SomeHit(env, late, call.tool, s, Allow) || Covered(env, call.tool, e.asked.value, s) || PlanScope(env, call, s))
    ensures AnyDenied(env, after, call.tool, call.scopes) <==>
            DeniedOutside(env, after, call, Pending(env, before, call))
  {
    hide Decide, AnyDenied, SomeHit, Covered, PlanScope, Granted, Pending, Decode, IsAllow, Lasting;
    var a := Decode(response.value).value;
    var again := call.(scopes := Pending(env, before, call));
    FirstPrompt(env, before, yolo, effect, call);
    FirstPrompt(env, after, yolo', effect, again);
    AsksByDefault(env, after, yolo', effect, again);
    PendingAgain(env, before, after, call);
    AllowedAfter(env, after, late, yolo'', call, a);
  }

  /** A tab after the command: the answer does not stick, and the user is asked again. */
  lemma TabAsksAgain(env: Env, a: PermissionAnswer)
    requires Lasting(a) && IsAllow(a)
    ensures var call := Call(Native("run_shell"), ["ls\t-l"], false, None);
            Decide(env, {}, false, Prompt, call) == NeedsPrompt(call.tool, ["ls\t-l"], false) &&
            Decide(env, Granted(call.tool, ["ls\t-l"], a), false, Prompt, call) != Allowed
  {
    hide Decide, SomeHit, Granted, ScopeMatches, Sticks, Generalize, IsAllow, Lasting;
    var s := "ls\t-l";
    var call := Call(Native("run_shell"), [s], false, None);
    NoRules(call.tool, call.scopes, a);
    FirstAsk(env, call, s);
    TabDoesNotStick(env.cwd);
    GeneralizeSticksIff(env.cwd, call.tool, s);
    AllowSticksIff(env, {}, false, Prompt, call, a);
    assert {} + Granted(call.tool, [s], a) == Granted(call.tool, [s], a);
    assert s in [s];
  }

  lemma FirstAsk(env: Env, call: Call, s: string)
    requires call.scopes == [s] && !call.forcePrompt && call.planPath.None?
    ensures Decide(env, {}, false, Prompt, call) == NeedsPrompt(call.tool, [s], false)
  {
    hide SomeHit, Unclaimed;
    NoRuleHits(env, call.tool, s, Allow);
    forall t { NoRuleHits(env, call.tool, t, Deny); }
    OneScope(env, {}, call.tool, s);
  }

  lemma OneScope(env: Env, rules: set<Rule>, tool: ToolKey, s: string)
    ensures Unclaimed(env, rules, tool, [s]) == if SomeHit(env, rules, tool, s, Allow) then [] else [s]
  {
    hide SomeHit, Unclaimed;
    UnclaimedNone(env, rules, tool);
    UnclaimedNext(env, rules, tool, [s], 0);
    assert [s][..0] == [] && [s][..1] == [s];
  }

  // ------------------------------------------------- what a rule leaves alone

  /** The rule's tool is another one than `tool`, or `tool` is not one of the rule's server. */
  ghost predicate AboutAnother(rule: ToolKey, tool: ToolKey) {
    match (rule, tool)
    case (Native(a), Native(b)) => CanonicalToolName(a) != CanonicalToolName(b)
    case (McpTool(s, t), McpTool(s', t')) => s != s' || t != t'
    case (McpServer(s), McpTool(s', _)) => s != s'
    case (McpServer(s), McpServer(s')) => s != s'
    case (McpTool(_, _), McpServer(_)) => true
    case (Native(_), _) => true
    case (_, Native(_)) => !rule.Wildcard?
    case (_, _) => tool.Wildcard? && !rule.Wildcard?
  }

  /** A rule about another tool changes no answer; any other rule without a scope decides. */
  lemma OtherToolsRule(env: Env, rules: set<Rule>, r: Rule, yolo: bool, effect: DefaultEffect, call: Call)
    ensures AboutAnother(r.tool, call.tool) ==>
              Decide(env, rules + {r}, yolo, effect, call) == Decide(env, rules, yolo, effect, call)
    ensures !AboutAnother(r.tool, call.tool) && r.scope.None? && r.effect == Deny && call.scopes != [] ==>
              Decide(env, rules + {r}, yolo, effect, call) == Denied
    ensures !AboutAnother(r.tool, call.tool) && r.scope.None? && r.effect == Allow && !call.forcePrompt &&
            !AnyDenied(env, rules, call.tool, call.scopes) ==>
              Decide(env, rules + {r}, yolo, effect, call) == Allowed
  {
    hide CanonicalToolName, ScopeMatches, IsPlanWrite, Unclaimed;
    assert AboutAnother(r.tool, call.tool) <==> !MatchesRule(r.tool, call.tool);
    hide MatchesRule, AboutAnother;
    forall s, e ensures SomeHit(env, rules + {r}, call.tool, s, e) <==>
                          SomeHit(env, rules, call.tool, s, e) || (r.effect == e && Hits(env, r, call.tool, s))
    {
      OneMoreRule(env, rules, r, call.tool, s, e);
    }
    if !MatchesRule(r.tool, call.tool) {
      SameHits(env, rules, rules + {r}, call.tool, call.tool, call.scopes);
    } else if r.scope.None? {
      forall s { UnclaimedSubset(env, rules + {r}, call.tool, call.scopes, s); }
      if call.scopes != [] {
        assert call.scopes[0] in call.scopes;
      }
      var left := Unclaimed(env, rules + {r}, call.tool, call.scopes);
      assert left != [] ==> left[0] in left;
    }
  }

  lemma OneMoreRule(env: Env, rules: set<Rule>, r: Rule, tool: ToolKey, s: string, e: Effect)
    ensures SomeHit(env, rules + {r}, tool, s, e) <==>
            SomeHit(env, rules, tool, s, e) || (r.effect == e && Hits(env, r, tool, s))
  {
    hide Hits;
    if r.effect == e && Hits(env, r, tool, s) {
      assert r in rules + {r};
    }
  }

  /** Where the same scopes are denied and the same ones allowed, the same ones are left. */
  lemma {:induction false} SameHits(env: Env, rules: set<Rule>, rules': set<Rule>, tool: ToolKey, tool': ToolKey,
                                    scopes: seq<string>)
    requires forall s, e :: SomeHit(env, rules, tool, s, e) <==> SomeHit(env, rules', tool', s, e)
    ensures Unclaimed(env, rules, tool, scopes) == Unclaimed(env, rules', tool', scopes)
    ensures AnyDenied(env, rules, tool, scopes) == AnyDenied(env, rules', tool', scopes)
    decreases |scopes|
  {
    hide SomeHit;
    if scopes != [] {
      SameHits(env, rules, rules', tool, tool', scopes[..|scopes| - 1]);
    }
  }

  /** The answer, whichever name of the tool it is about. */
  ghost predicate SameAnswer(c: Check, d: Check) {
    if c.NeedsPrompt? then d.NeedsPrompt? && c.scopes == d.scopes && c.forcePrompt == d.forcePrompt else c == d
  }

  /** Two names of one tool get the same answer, in the call and in the rules. */
  lemma AliasesDecideAlike(env: Env, rules: set<Rule>, yolo: bool, effect: DefaultEffect, call: Call, a: string, b: string,
                           scope: Option<string>, e: Effect)
    requires CanonicalToolName(a) == CanonicalToolName(b)
    ensures SameAnswer(Decide(env, rules, yolo, effect, call.(tool := Native(a))),
                       Decide(env, rules, yolo, effect, call.(tool := Native(b))))
    ensures Decide(env, rules + {Rule(Native(a), scope, e)}, yolo, effect, call) ==
            Decide(env, rules + {Rule(Native(b), scope, e)}, yolo, effect, call)
  {
    hide ScopeMatches, Unclaimed, CanonicalToolName, FILE_WRITE_TOOLS;
    assert IsFileWrite(a) == IsFileWrite(b);
    hide IsFileWrite;
    var x, y := Rule(Native(a), scope, e), Rule(Native(b), scope, e);
    AliasHits(env, rules, a, b);
    SameHits(env, rules, rules, Native(a), Native(b), call.scopes);
    forall s, e' ensures SomeHit(env, rules + {x}, call.tool, s, e') <==> SomeHit(env, rules + {y}, call.tool, s, e') {
      OneMoreRule(env, rules, x, call.tool, s, e');
      OneMoreRule(env, rules, y, call.tool, s, e');
    }
    hide Hits, SomeHit;
    SameHits(env, rules + {x}, rules + {y}, call.tool, call.tool, call.scopes);
  }

  lemma AliasHits(env: Env, rules: set<Rule>, a: string, b: string)
    requires CanonicalToolName(a) == CanonicalToolName(b)
    ensures forall s, e :: SomeHit(env, rules, Native(a), s, e) <==> SomeHit(env, rules, Native(b), s, e)
  {
    hide ScopeMatches, CanonicalToolName;
    assert forall r, s :: r in rules ==> (Hits(env, r, Native(a), s) <==> Hits(env, r, Native(b), s));
    hide Hits;
  }

  /** A rule that lets one tool read does not let another one write. */
  lemma ReadRuleStillAsks(env: Env)
    ensures var call := Call(Native("write_file"), ["/etc/hosts"], false, None);
            Decide(env, {Rule(Native("read_file"), None, Allow)}, false, Prompt, call) ==
            NeedsPrompt(Native("write_file"), ["/etc/hosts"], false)
  {
    hide Decide, AboutAnother;
    var call := Call(Native("write_file"), ["/etc/hosts"], false, None);
    var r := Rule(Native("read_file"), None, Allow);
    ReadIsNotWrite();
    assert AboutAnother(r.tool, call.tool) by {
      AnotherNative("read_file", "write_file");
    }
    OtherToolsRule(env, {}, r, false, Prompt, call);
    assert {} + {r} == {r};
    FirstAsk(env, call, "/etc/hosts");
  }

  lemma AnotherNative(a: string, b: string)
    requires CanonicalToolName(a) != CanonicalToolName(b)
    ensures AboutAnother(Native(a), Native(b))
  {
  }

  lemma ReadIsNotWrite()
    ensures CanonicalToolName("read_file") != CanonicalToolName("write_file")
  {
    hide Lookup;
    var read, write := "read_file", "write_file";
    assert |read| == 9 && read[4] == '_' && |write| == 10 && write[0] == 'w';
    assert forall i :: 0 <= i < |TOOL_ALIASES| ==> |TOOL_ALIASES[i].0| != 9 || TOOL_ALIASES[i].0[4] != '_';
    LookupMiss(TOOL_ALIASES, read);
    WriteToolsAreCanonical(write);
  }

  // ------------------------------------------------------- what is decided

  /** What a call gets that no rule denies, by the kind of call and the default. */
  lemma DecidedBy(env: Env, rules: set<Rule>, effect: DefaultEffect, call: Call)
    requires !AnyDenied(env, rules, call.tool, call.scopes)
    ensures Decide(env, rules, true, effect, call) == Allowed
    ensures call.scopes == [] ==> Decide(env, rules, false, effect, call) == Allowed
    ensures (forall s :: s in call.scopes ==> SomeHit(env, rules, call.tool, s, Allow)) && !call.forcePrompt ==>
              Decide(env, rules, false, effect, call) == Allowed
    ensures call.forcePrompt && call.scopes != [] ==>
              Decide(env, rules, false, DenyByDefault, call) == Denied &&
              Decide(env, rules, false, AllowByDefault, call) == Allowed &&
              Decide(env, rules, false, Prompt, call) == NeedsPrompt(call.tool, call.scopes, true)
    ensures (exists s :: s in call.scopes && !SomeHit(env, rules, call.tool, s, Allow)) &&
            !call.forcePrompt && call.planPath.None? ==>
              Decide(env, rules, false, DenyByDefault, call) == Denied &&
              Decide(env, rules, false, AllowByDefault, call) == Allowed &&
              Decide(env, rules, false, Prompt, call).NeedsPrompt?
  {
    hide SomeHit, Unclaimed, AnyDenied;
    forall s { UnclaimedSubset(env, rules, call.tool, call.scopes, s); }
    var left := Unclaimed(env, rules, call.tool, call.scopes);
    assert left != [] ==> left[0] in left;
  }

  /** The text of a plain path from the root. */
  lemma RootedText(names: seq<string>)
    requires names != [] && PlainNames(names)
    ensures Slashed(names) != "" && IsAbsolute(Slashed(names)) && Names(Slashed(names)) == names
  {
    hide Names, Slashed;
    SlashedStarts(names);
    NamesSlashed("", names);
    NamesEmpty();
    assert "" + Slashed(names) == Slashed(names);
    assert [] + names == names;
  }

  /** A plain path stands for its names from the root, the home directory or the working directory. */
  lemma ExpandedPlain(env: Env, names: seq<string>)
    requires names != [] && PlainNames(names)
    ensures Expanded(env, Slashed(names)) == names
    ensures env.home.Some? && PlainNames(env.home.value) ==>
              Expanded(env, "~" + Slashed(names)) == env.home.value + names && Expanded(env, "~") == env.home.value
    ensures PlainNames(env.cwd) && names[0] != "~" ==> Expanded(env, Slashed(names)[1..]) == env.cwd + names
  {
    hide Names, Resolve, Slashed;
    RootedText(names);
    RelativeNames(names);
    ResolvePlain([], names);
    assert [] + names == names;
    SlashedStarts(names);
    var s := Slashed(names);
    assert ("~" + s)[2..] == s[1..];
    if env.home.Some? && PlainNames(env.home.value) {
      ResolvePlain([], env.home.value);
      ResolvePlain([], env.home.value + names);
      assert [] + env.home.value == env.home.value && [] + (env.home.value + names) == env.home.value + names;
    }
    if PlainNames(env.cwd) && names[0] != "~" {
      TildeFirst(names);
      ResolvePlain([], env.cwd + names);
      assert [] + (env.cwd + names) == env.cwd + names;
    }
  }

  /** `~/` is the home directory, and an absolute path behind it is itself. */
  lemma ExpandedHome(env: Env, home: seq<string>, names: seq<string>)
    requires env.home == Some(home) && PlainNames(home) && names != [] && PlainNames(names)
    ensures Expanded(env, "~/") == home
    ensures Expanded(env, "~/" + Slashed(names)) == names
  {
    hide Names, Resolve, Slashed;
    RootedText(names);
    NamesEmpty();
    ResolvePlain([], home);
    ResolvePlain([], names);
    assert [] + home == home && home + [] == home && [] + names == names;
    assert "~/"[2..] == "" && ("~/" + Slashed(names))[2..] == Slashed(names);
  }

  lemma TildeFirst(names: seq<string>)
    requires names != [] && PlainNames(names) && names[0] != "~"
    ensures Slashed(names) != "" && var s := Slashed(names)[1..]; !("~/" <= s) && s != "~"
  {
    hide Slashed;
    SlashedStarts(names);
    var s := names[0] + Slashed(names[1..]);
    assert Slashed(names)[1..] == s;
    assert PlainName(names[0]);
    assert s[0] == names[0][0];
    LongerThanTilde(names[0]);
    assert |names[0]| >= 2 ==> names[0][1] in names[0] && s[1] == names[0][1];
  }

  lemma LongerThanTilde(name: string)
    requires name != "" && name != "~"
    ensures name[0] != '~' || |name| >= 2
  {
    assert |name| < 2 ==> name == [name[0]];
  }

  /** With a plan file named, writing that file needs no permission, and writing another one does. */
  lemma PlanFileOnly(env: Env, name: string, plan: seq<string>, file: seq<string>)
    requires plan != [] && file != [] && PlainNames(plan) && PlainNames(file) && IsFileWrite(name)
    ensures var call := Call(Native(name), [Slashed(file)], false, Some(Slashed(plan)));
            Decide(env, {}, false, Prompt, call) ==
            (if file == plan then Allowed else NeedsPrompt(Native(name), [Slashed(file)], false))
    ensures forall tool: ToolKey :: !tool.Native? ==>
              Decide(env, {}, false, Prompt, Call(tool, [Slashed(file)], false, Some(Slashed(plan)))) ==
              NeedsPrompt(tool, [Slashed(file)], false)
  {
    hide Expanded, Slashed, PlainNames, IsFileWrite, SomeHit, Unclaimed;
    ExpandedPlain(env, plan);
    ExpandedPlain(env, file);
    var s := Slashed(file);
    forall tool ensures Unclaimed(env, {}, tool, [s]) == [s] && !AnyDenied(env, {}, tool, [s]) {
      NoRuleHits(env, tool, s, Allow);
      NoRuleHits(env, tool, s, Deny);
      OneScope(env, {}, tool, s);
    }
    assert s in [s];
  }

  // ------------------------------------------------------ which default counts

  lemma FirstDiffers(a: string, b: string, k: nat)
    requires 0 < k <= |a| && k <= |b| && a[0] != b[0]
    ensures a[..k] != b[..k]
  {
    assert a[..k][0] == a[0] && b[..k][0] == b[0];
  }

  /** `str`'s order: a prefix comes first, and otherwise the first difference decides. */
  lemma {:induction false} LexIff(a: string, b: string)
    ensures LexLeq(a, b) <==>
            exists k :: 0 <= k <= |a| && k <= |b| && a[..k] == b[..k] && (k == |a| || (k < |b| && a[k] < b[k]))
    decreases |a|
  {
    if a == "" {
      assert a[..0] == b[..0];
    } else if b == "" || a[0] != b[0] {
      assert a[..0] == b[..0];
      forall k: nat | 0 < k <= |a| && k <= |b| ensures a[..k] != b[..k] {
        FirstDiffers(a, b, k);
      }
    } else {
      LexIff(a[1..], b[1..]);
      if k :| 0 <= k <= |a[1..]| && k <= |b[1..]| && a[1..][..k] == b[1..][..k] &&
              (k == |a[1..]| || (k < |b[1..]| && a[1..][k] < b[1..][k])) {
        assert a[..k + 1] == [a[0]] + a[1..][..k] && b[..k + 1] == [b[0]] + b[1..][..k];
      }
      if k :| 0 < k <= |a| && k <= |b| && a[..k] == b[..k] && (k == |a| || (k < |b| && a[k] < b[k])) {
        assert a[1..][..k - 1] == a[..k][1..] && b[1..][..k - 1] == b[..k][1..];
      }
    }
  }

  /** The order in which defaults are looked up: the key, the canonical name, an alias, the wildcard. */
  lemma DefaultOrder(defaults: Defaults, tool: ToolKey, name: string)
    ensures tool in defaults ==> DefaultFor(defaults, tool) == Some(defaults[tool])
    ensures Native(name) !in defaults && Native(CanonicalToolName(name)) in defaults ==>
              DefaultFor(defaults, Native(name)) == Some(defaults[Native(CanonicalToolName(name))])
    ensures tool.McpTool? && tool !in defaults && McpServer(tool.server) in defaults ==>
              DefaultFor(defaults, tool) == Some(defaults[McpServer(tool.server)])
    ensures (forall k :: k in defaults ==> k == Wildcard) ==>
              DefaultFor(defaults, tool) == if Wildcard in defaults then Some(defaults[Wildcard]) else None
  {
    hide CanonicalToolName, IsLeast;
  }

  /** Of two configured aliases the smaller one counts. */
  lemma SmallerAliasCounts()
    ensures DefaultFor(map[Native("multiedit") := AllowByDefault, Native("multi_edit") := DenyByDefault],
                       Native("edit_file_bulk")) == Some(DenyByDefault)
  {
    hide Lookup, LexLeq;
    var defaults := map[Native("multiedit") := AllowByDefault, Native("multi_edit") := DenyByDefault];
    var bulk := "edit_file_bulk";
    WriteToolsAreCanonical(bulk);
    MultiEditEntry();
    MultieditEntry();
    LookupEntry(TOOL_ALIASES, 18, "multi_edit", bulk);
    LookupEntry(TOOL_ALIASES, 19, "multiedit", bulk);
    hide CanonicalToolName;
    assert bulk[0] == 'e' && "multi_edit"[0] == 'm' && "multiedit"[0] == 'm';
    var names := Aliases(defaults.Keys, bulk);
    assert Native("multi_edit") in defaults.Keys && Native("multiedit") in defaults.Keys;
    assert names == {"multi_edit", "multiedit"};
    Underscore();
    LexTotal("multi_edit", "multi_edit");
    assert IsLeast(names, "multi_edit");
    LeastUnique(names, "multi_edit", Least(names));
  }

  lemma Underscore()
    ensures LexLeq("multi_edit", "multiedit") && "multi_edit" != "multiedit"
  {
    var a, b := "multi_edit", "multiedit";
    assert |a| == 10 && |b| == 9;
    assert a[..5] == b[..5] && a[5] == '_' && b[5] == 'e' && a[5] < b[5];
    LexIff(a, b);
  }

  // ------------------------------------------------------ answers on the wire

  /** A response is understood exactly if it is some answer's text, and then as an answer with that text. */
  lemma DecodeInverse(s: string)
    ensures Decode(s).Some? <==> exists a :: Encode(a) == s
    ensures Decode(s).Some? ==> Encode(Decode(s).value) == s || (s == "deny:" && Decode(s) == Some(DenyOnce))
  {
    if "deny:" <= s {
      assert "deny:" + s[5..] == s;
      assert Encode(DenyWithGuidance(s[5..])) == s;
    }
    if a :| Encode(a) == s {
      AnswerRoundTrip(a);
    }
    if Decode(s).Some? {
      assert Encode(Decode(s).value) == s || s == "deny:";
    }
  }

  /** The texts that allow, and those whose effect lasts. */
  const ALLOWS: seq<string> := ["allow", "allow_session", "allow_always_local", "allow_always_global"]
  const LASTS: seq<string> :=
    ["allow_session", "allow_always_local", "allow_always_global", "deny_always_local", "deny_always_global"]

  /** What a response to a prompt comes to, in its own text. */
  lemma WireAnswers(tool: ToolKey, asked: seq<string>, response: Option<string>)
    ensures var e := Answered(tool, asked, response);
            && (e.verdict == Ok <==> response.Some? && response.value in ALLOWS)
            && (forall r :: r in e.added ==> r.tool == tool && (r.effect == Allow <==> response.value in ALLOWS))
            && (asked != [] ==> (e.added != {} <==> response.Some? && response.value in LASTS))
            && (asked == [] ==> e.added == {})
            && e.waited && e.asked == Some(asked)
  {
    hide Recorded;
    if response.Some? {
      var s := response.value;
      if "deny:" <= s {
        assert s[4] == ':';
      }
      if asked != [] && s in LASTS {
        assert asked[0] in asked;
        var a := Decode(s).value;
        assert Rule(tool, Some(Recorded(tool, asked[0], a)), if IsAllow(a) then Allow else Deny) in Granted(tool, asked, a);
      }
    }
  }

  /** Only a denial with guidance hands a text back. */
  lemma WireGuidance(tool: ToolKey, asked: seq<string>, guidance: string)
    ensures Answered(tool, asked, Some("deny:" + guidance)).verdict == Err(if guidance == "" then None else Some(guidance))
    ensures Answered(tool, asked, Some("deny")).verdict == Err(None) && Answered(tool, asked, None).verdict == Err(None)
    ensures Answered(tool, asked, Some("deny_always_local")).verdict == Err(None)
    ensures Answered(tool, asked, Some("deny_always_global")).verdict == Err(None)
  {
    hide Granted, Decode;
    ReadGuidance(guidance);
    ReadDenials();
  }

  lemma ReadGuidance(guidance: string)
    ensures Decode("deny:" + guidance) == Some(if guidance == "" then DenyOnce else DenyWithGuidance(guidance))
  {
    AnswerRoundTrip(DenyWithGuidance(guidance));
  }

  lemma ReadDenials()
    ensures Decode("deny") == Some(DenyOnce)
    ensures Decode("deny_always_local") == Some(DenyAlwaysLocal) && Decode("deny_always_global") == Some(DenyAlwaysGlobal)
  {
    hide Decode;
    AnswerRoundTrip(DenyOnce);
    AnswerRoundTrip(DenyAlwaysLocal);
    AnswerRoundTrip(DenyAlwaysGlobal);
  }

  /** An answer records the generalised pattern for an allow or a server's tool, and the scope itself for a denial. */
  lemma RecordedPattern(tool: ToolKey, asked: seq<string>, s: string)
    requires s in asked
    ensures Rule(tool, Some(Generalize(tool, s)), Allow) in Granted(tool, asked, AllowSession)
    ensures tool.Native? ==> Rule(tool, Some(s), Deny) in Granted(tool, asked, DenyAlwaysLocal)
    ensures tool.McpTool? || tool.McpServer? ==> Rule(tool, Some("*"), Deny) in Granted(tool, asked, DenyAlwaysGlobal)
  {
    hide IsBash, IsFileWrite, FirstToken, ParentText;
    assert Recorded(tool, s, AllowSession) == Generalize(tool, s);
  }
}
