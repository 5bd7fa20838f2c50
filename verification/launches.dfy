/**
 Launch definitions: the validation of their templates, the resolution of their variables, and
 the rendering that relies on both.
 */
module Launches {
  import opened Templates
  import opened Options

  /** `wellTyped` says that default and values agree with the variable's type. */
  datatype Variable<+V> = Variable(required: bool, default: Option<V>, wellTyped: bool)

  datatype Step = Step(
    name: string,
    cwd: Option<string>,
    env: map<string, string>,
    command: seq<string>,
    timeout: Option<string>)

  datatype Shape<+V> = Shape(
    target: Option<string>,
    allowArgs: Option<bool>,
    cwd: Option<string>,
    env: map<string, string>,
    command: Option<seq<string>>,
    vars: map<string, Variable<V>>,
    steps: seq<Step>)

  /** A template is checked on its own before defaults are applied, and again when it is effective. */
  datatype Policy = Partial | Effective(targets: set<string>)

  /** Which prefixes a key may have without being among the allowed keys. */
  datatype TemplatePolicy = TemplatePolicy(unboundVar: bool, unboundContext: bool)

  const STRICT := TemplatePolicy(false, false)

  const UNBOUND_VAR_PREFIX := TemplatePolicy(true, false)

  function TemplatesOf(policy: Policy): TemplatePolicy {
    if policy.Partial? then UNBOUND_VAR_PREFIX else STRICT
  }

  /** The names of the built-in variables, and the lexical checks. */
  datatype Rules = Rules(
    builtins: seq<string>,
    nameOk: string -> bool,
    contextOk: string -> bool,
    envKeyOk: string -> bool,
    durationOk: string -> bool)

  const ARGS := "{args}"

  const BUILTINS: seq<string> := [
    "user", "uid", "gid", "home", "container_user", "container_home", "workspace", "state", "state_dir",
    "target", "image", "image_slug", "container_name", "container_state_dir",
    "container_state_dir_in_container", "container_pid", "session_id"]

  function VarKey(name: string): string {
    "var." + name
  }

  /** The variable that a key refers to. */
  function StripVar(key: string): (r: Option<string>)
    ensures r.Some? ==> key == VarKey(r.value) && key[0] == 'v'
    ensures forall n :: key == VarKey(n) ==> r == Some(n)
  {
    if |key| >= 4 && key[..4] == "var." then
      assert key == "var." + key[4..];
      Some(key[4..])
    else None
  }

  /** The context that a key refers to. */
  function StripContext(key: string): (r: Option<string>)
    ensures r.Some? ==> key == "context." + r.value && key[0] == 'c'
    ensures forall n :: key == "context." + n ==> r == Some(n)
  {
    if |key| >= 8 && key[..8] == "context." then
      assert key == "context." + key[8..];
      Some(key[8..])
    else None
  }

  predicate Contains(s: string, part: string) {
    part <= s || (s != "" && Contains(s[1..], part))
  }

  // ---- When a launch is valid ----

  predicate Permits(rules: Rules, policy: TemplatePolicy, declared: set<string>, key: string) {
    || key in rules.builtins
    || (StripVar(key).Some? && StripVar(key).value in declared)
    || UnboundOk(rules, policy, key)
  }

  /** The policy admits the prefix and what follows it is well formed. */
  predicate UnboundOk(rules: Rules, policy: TemplatePolicy, key: string) {
    || (policy.unboundVar && StripVar(key).Some? && rules.nameOk(StripVar(key).value))
    || (policy.unboundContext && StripContext(key).Some? && rules.contextOk(StripContext(key).value))
  }

  ghost predicate TemplateOk(rules: Rules, policy: TemplatePolicy, declared: set<string>, s: string) {
    Parse(s).Ok? && forall k :: Key(k) in Parse(s).value ==> Permits(rules, policy, declared, k)
  }

  ghost predicate CwdOk(rules: Rules, policy: TemplatePolicy, declared: set<string>, cwd: Option<string>) {
    cwd.Some? ==> TemplateOk(rules, policy, declared, cwd.value)
  }

  ghost predicate EnvOk(rules: Rules, policy: TemplatePolicy, declared: set<string>, env: map<string, string>) {
    forall k :: k in env ==> rules.envKeyOk(k) && TemplateOk(rules, policy, declared, env[k])
  }

  predicate CommandOk(command: seq<string>) {
    command != [] && command[0] != ""
  }

  ghost predicate ArgOk(rules: Rules, policy: TemplatePolicy, declared: set<string>, arg: string) {
    arg == ARGS || (!Contains(arg, ARGS) && TemplateOk(rules, policy, declared, arg))
  }

  /** The positions of the whole-argument `{args}`. */
  function Sentinels(command: seq<string>): (r: seq<nat>)
    ensures forall i: nat :: i in r <==> i < |command| && command[i] == ARGS
  {
    if command == [] then []
    else
      var last := |command| - 1;
      Sentinels(command[..last]) + if command[last] == ARGS then [last] else []
  }

  /** Not first, not twice, required when arguments are allowed and refused when they are not. */
  predicate SentinelOk(policy: Policy, allowArgs: Option<bool>, positions: seq<nat>) {
    var allowed := allowArgs == Some(true);
    && !(positions != [] && positions[0] == 0)
    && |positions| <= 1
    && (policy.Effective? && allowed ==> positions != [])
    && ((if policy.Effective? then !allowed else allowArgs == Some(false)) ==> positions == [])
  }

  ghost predicate StepOk(rules: Rules, policy: TemplatePolicy, declared: set<string>, step: Step) {
    && rules.nameOk(step.name) && CommandOk(step.command)
    && (forall a :: a in step.command ==> TemplateOk(rules, policy, declared, a))
    && CwdOk(rules, policy, declared, step.cwd) && EnvOk(rules, policy, declared, step.env)
    && (step.timeout.Some? ==> rules.durationOk(step.timeout.value))
  }

  ghost predicate LaunchCommandOk<V>(rules: Rules, policy: Policy, declared: set<string>, shape: Shape<V>) {
    shape.command.Some? ==>
      && CommandOk(shape.command.value)
      && ArgsOk(rules, TemplatesOf(policy), declared, shape.command.value)
      && SentinelOk(policy, shape.allowArgs, Sentinels(shape.command.value))
  }

  predicate TargetOk(rules: Rules, policy: Policy, target: Option<string>) {
    match policy
    case Effective(targets) => target.Some? && target.value in targets
    case Partial => target.Some? ==> rules.nameOk(target.value)
  }

  predicate VariableOk<V>(v: Variable<V>) {
    v.wellTyped && !(v.required && v.default.Some?)
  }

  ghost predicate StepsOk(rules: Rules, policy: TemplatePolicy, declared: set<string>, steps: seq<Step>) {
    && (forall i :: 0 <= i < |steps| ==> StepOk(rules, policy, declared, steps[i]))
    && (forall i, j :: 0 <= i < j < |steps| ==> steps[i].name != steps[j].name)
  }

  /** The variables a template refers to. */
  ghost function VarRefs(s: string): set<string> {
    if Parse(s).Ok? then VarsAmong(KeysOf(Parse(s).value)) else {}
  }

  ghost function VarsAmong(keys: seq<string>): set<string> {
    set k | k in keys && StripVar(k).Some? :: StripVar(k).value
  }

  lemma VarsAmongNext(keys: seq<string>, i: nat)
    requires i < |keys|
    ensures var name := StripVar(keys[i]);
      VarsAmong(keys[..i + 1]) == VarsAmong(keys[..i]) + if name.Some? then {name.value} else {}
  {
    assert keys[..i + 1] == keys[..i] + [keys[i]];
  }

  ghost predicate RefersTo(cwd: Option<string>, env: map<string, string>, command: seq<string>, n: string) {
    || (cwd.Some? && n in VarRefs(cwd.value))
    || (exists k :: k in env && n in VarRefs(env[k]))
    || (exists a :: a in command && n in VarRefs(a))
  }

  ghost predicate StepRefersTo(step: Step, n: string) {
    RefersTo(step.cwd, step.env, step.command, n)
  }

  function CommandOf<V>(shape: Shape<V>): seq<string> {
    if shape.command.Some? then shape.command.value else []
  }

  ghost predicate Referenced<V>(shape: Shape<V>, n: string) {
    RefersTo(shape.cwd, shape.env, CommandOf(shape), n)
    || exists i :: 0 <= i < |shape.steps| && StepRefersTo(shape.steps[i], n)
  }

  /** A variable that templates may rely on: declared, and required or with a default. */
  predicate Dependable<V>(vars: map<string, Variable<V>>, n: string) {
    n in vars && (vars[n].required || vars[n].default.Some?)
  }

  ghost predicate Valid<V>(rules: Rules, policy: Policy, shape: Shape<V>) {
    && TargetOk(rules, policy, shape.target)
    && (forall n :: n in shape.vars ==> rules.nameOk(n) && VariableOk(shape.vars[n]))
    && CwdOk(rules, TemplatesOf(policy), shape.vars.Keys, shape.cwd)
    && EnvOk(rules, TemplatesOf(policy), shape.vars.Keys, shape.env)
    && LaunchCommandOk(rules, policy, shape.vars.Keys, shape)
    && StepsOk(rules, TemplatesOf(policy), shape.vars.Keys, shape.steps)
    && (policy.Effective? ==> forall n :: Referenced(shape, n) ==> Dependable(shape.vars, n))
  }

  predicate StandsAt(s: string, part: string, i: nat) {
    i + |part| <= |s| && s[i..i + |part|] == part
  }

  /** A text contains a part exactly if the part stands somewhere in it. */
  lemma {:induction false} ContainsIff(s: string, part: string)
    ensures Contains(s, part) <==> exists i: nat :: StandsAt(s, part, i)
    decreases |s|
  {
    if part <= s {
      assert StandsAt(s, part, 0);
    } else if s != "" {
      ContainsIff(s[1..], part);
      forall i: nat | StandsAt(s[1..], part, i) ensures StandsAt(s, part, i + 1) {}
      forall i: nat | StandsAt(s, part, i) ensures i > 0 && StandsAt(s[1..], part, i - 1) {}
    }
  }

  lemma {:induction false} SentinelsAscend(command: seq<string>)
    ensures forall i, j :: 0 <= i < j < |Sentinels(command)| ==> Sentinels(command)[i] < Sentinels(command)[j]
  {
    if command != [] {
      var front := Sentinels(command[..|command| - 1]);
      SentinelsAscend(command[..|command| - 1]);
      assert forall i :: 0 <= i < |front| ==> front[i] in front;
    }
  }

  ghost predicate StandsOnce(command: seq<string>) {
    forall i, j :: 0 <= i < |command| && 0 <= j < |command| && command[i] == ARGS && command[j] == ARGS ==> i == j
  }

  lemma PlacesOfArgs(command: seq<string>)
    ensures forall k :: 0 <= k < |Sentinels(command)| ==>
      Sentinels(command)[k] < |command| && command[Sentinels(command)[k]] == ARGS
  {
    var p := Sentinels(command);
    forall k | 0 <= k < |p| ensures p[k] < |command| && command[p[k]] == ARGS { assert p[k] in p; }
  }

  lemma FirstPlace(command: seq<string>)
    ensures Sentinels(command) != [] && Sentinels(command)[0] == 0 <==> command != [] && command[0] == ARGS
  {
    var p := Sentinels(command);
    SentinelsAscend(command);
    PlacesOfArgs(command);
    if command != [] && command[0] == ARGS {
      var zero: nat := 0;
      assert zero in p;
      var k :| 0 <= k < |p| && p[k] == 0;
      assert k > 0 ==> p[0] < p[k];
    }
  }

  lemma OnePlace(command: seq<string>)
    ensures |Sentinels(command)| <= 1 <==> StandsOnce(command)
  {
    var p := Sentinels(command);
    SentinelsAscend(command);
    PlacesOfArgs(command);
    if |p| > 1 { assert p[0] < p[1]; }
    if |p| <= 1 {
      forall i, j | 0 <= i < |command| && 0 <= j < |command| && command[i] == ARGS && command[j] == ARGS
        ensures i == j
      {
        assert i in p && j in p;
      }
    }
  }

  lemma SomePlace(command: seq<string>)
    ensures Sentinels(command) != [] <==> ARGS in command
  {
    var p := Sentinels(command);
    PlacesOfArgs(command);
    forall i: nat | i < |command| && command[i] == ARGS ensures i in p {}
  }

  /** The rules for `{args}`, told from the command itself. */
  lemma SentinelRules(policy: Policy, allowArgs: Option<bool>, command: seq<string>)
    ensures SentinelOk(policy, allowArgs, Sentinels(command)) <==>
      && (command != [] ==> command[0] != ARGS) && StandsOnce(command)
      && (policy.Effective? ==> (ARGS in command <==> allowArgs == Some(true)))
      && (policy.Partial? && allowArgs == Some(false) ==> ARGS !in command)
  {
    FirstPlace(command);
    OnePlace(command);
    SomePlace(command);
  }

  // ---- The checks as the configuration's loader runs them ----

  /** `allowed` lists the built-in keys and those of the declared variables. */
  ghost predicate Lists(rules: Rules, declared: set<string>, allowed: seq<string>) {
    forall k :: k in allowed <==> k in rules.builtins || (StripVar(k).Some? && StripVar(k).value in declared)
  }

  method AllowedTemplateVars(rules: Rules, declared: set<string>) returns (allowed: seq<string>)
    ensures Lists(rules, declared, allowed)
  {
    allowed := rules.builtins;
    var names := declared;
    while names != {}
      invariant names <= declared && Lists(rules, declared - names, allowed)
      decreases names
    {
      var name :| name in names;
      ghost var before := allowed;
      allowed := allowed + [VarKey(name)];
      names := names - {name};
      forall k
        ensures k in allowed <==> k in rules.builtins || (StripVar(k).Some? && StripVar(k).value in declared - names)
      {
        assert k in allowed <==> k in before || k == VarKey(name);
      }
    }
    assert declared - names == declared;
  }

  method ValidateTemplateWithPolicy(
    value: string, allowed: seq<string>, rules: Rules, policy: TemplatePolicy, ghost declared: set<string>)
    returns (ok: bool)
    requires Lists(rules, declared, allowed)
    ensures ok <==> TemplateOk(rules, policy, declared, value)
  {
    var keys := ReferencedKeys(value);
    if keys.Err? { return false; }
    ok := KeysPermitted(keys.value, allowed, rules, policy, declared);
    assert forall k :: k in keys.value <==> Key(k) in Parse(value).value;
  }

  method KeysPermitted(
    keys: seq<string>, allowed: seq<string>, rules: Rules, policy: TemplatePolicy, ghost declared: set<string>)
    returns (ok: bool)
    requires Lists(rules, declared, allowed)
    ensures ok <==> forall k :: k in keys ==> Permits(rules, policy, declared, k)
  {
    for i := 0 to |keys|
      invariant forall j :: 0 <= j < i ==> Permits(rules, policy, declared, keys[j])
    {
      var key := keys[i];
      if key !in allowed {
        var name, context := StripVar(key), StripContext(key);
        var permitted := false;
        if policy.unboundVar && name.Some? {
          permitted := rules.nameOk(name.value);
        } else if policy.unboundContext && context.Some? {
          permitted := rules.contextOk(context.value);
        }
        if !permitted {
          assert key in keys;
          return false;
        }
      }
    }
    ok := true;
  }

  method ValidateCwd(
    cwd: Option<string>, allowed: seq<string>, rules: Rules, policy: TemplatePolicy, ghost declared: set<string>)
    returns (ok: bool)
    requires Lists(rules, declared, allowed)
    ensures ok <==> CwdOk(rules, policy, declared, cwd)
  {
    if cwd.None? { return true; }
    ok := ValidateTemplateWithPolicy(cwd.value, allowed, rules, policy, declared);
  }

  method ValidateEnv(
    env: map<string, string>, allowed: seq<string>, rules: Rules, policy: TemplatePolicy, ghost declared: set<string>)
    returns (ok: bool)
    requires Lists(rules, declared, allowed)
    ensures ok <==> EnvOk(rules, policy, declared, env)
  {
    var keys := env.Keys;
    while keys != {}
      invariant keys <= env.Keys
      invariant forall k :: k in env && k !in keys ==> rules.envKeyOk(k) && TemplateOk(rules, policy, declared, env[k])
      decreases keys
    {
      var key :| key in keys;
      if !rules.envKeyOk(key) { return false; }
      ok := ValidateTemplateWithPolicy(env[key], allowed, rules, policy, declared);
      if !ok { return; }
      keys := keys - {key};
    }
    ok := true;
  }

  method ValidateCommandTemplates(
    command: seq<string>, allowed: seq<string>, rules: Rules, policy: TemplatePolicy, ghost declared: set<string>)
    returns (ok: bool)
    requires Lists(rules, declared, allowed)
    ensures ok <==> forall a :: a in command ==> TemplateOk(rules, policy, declared, a)
  {
    for i := 0 to |command|
      invariant forall j :: 0 <= j < i ==> TemplateOk(rules, policy, declared, command[j])
    {
      ok := ValidateTemplateWithPolicy(command[i], allowed, rules, policy, declared);
      if !ok {
        assert command[i] in command;
        return;
      }
    }
    ok := true;
  }

  ghost predicate ArgsOk(rules: Rules, policy: TemplatePolicy, declared: set<string>, command: seq<string>) {
    forall a :: a in command ==> ArgOk(rules, policy, declared, a)
  }

  lemma ArgsNext(rules: Rules, policy: TemplatePolicy, declared: set<string>, command: seq<string>, i: nat)
    requires i < |command|
    ensures Sentinels(command[..i + 1]) == Sentinels(command[..i]) + if command[i] == ARGS then [i] else []
    ensures ArgsOk(rules, policy, declared, command[..i + 1]) <==>
      ArgsOk(rules, policy, declared, command[..i]) && ArgOk(rules, policy, declared, command[i])
    ensures ArgsOk(rules, policy, declared, command) ==> ArgOk(rules, policy, declared, command[i])
  {
    assert command[..i + 1][..i] == command[..i];
    assert command[..i + 1] == command[..i] + [command[i]];
    assert command[i] in command;
  }

  method ValidateLaunchCommandTemplates(
    command: seq<string>, allowArgs: Option<bool>, allowed: seq<string>, rules: Rules, policy: Policy,
    ghost declared: set<string>)
    returns (ok: bool)
    requires Lists(rules, declared, allowed)
    ensures ok <==>
      ArgsOk(rules, TemplatesOf(policy), declared, command) && SentinelOk(policy, allowArgs, Sentinels(command))
  {
    var positions: seq<nat> := [];
    for i := 0 to |command|
      invariant positions == Sentinels(command[..i])
      invariant ArgsOk(rules, TemplatesOf(policy), declared, command[..i])
    {
      ArgsNext(rules, TemplatesOf(policy), declared, command, i);
      var arg := command[i];
      if arg == ARGS {
        positions := positions + [i];
      } else {
        if Contains(arg, ARGS) { return false; }
        ok := ValidateTemplateWithPolicy(arg, allowed, rules, TemplatesOf(policy), declared);
        if !ok { return; }
      }
    }
    assert command[..|command|] == command;
    ok := ValidateLaunchArgsSentinel(policy, allowArgs, positions);
  }

  method ValidateLaunchArgsSentinel(policy: Policy, allowArgs: Option<bool>, positions: seq<nat>) returns (ok: bool)
    ensures ok <==> SentinelOk(policy, allowArgs, positions)
  {
    if positions != [] && positions[0] == 0 { return false; }
    if |positions| > 1 { return false; }
    var unwrapped := if allowArgs.Some? then allowArgs.value else false;
    if policy.Effective? && unwrapped && positions == [] { return false; }
    var refused := if policy.Effective? then !unwrapped else allowArgs == Some(false);
    ok := !(refused && positions != []);
  }

  method ValidateStep(
    step: Step, allowed: seq<string>, rules: Rules, policy: TemplatePolicy, ghost declared: set<string>)
    returns (ok: bool)
    requires Lists(rules, declared, allowed)
    ensures ok <==> StepOk(rules, policy, declared, step)
  {
    if !rules.nameOk(step.name) || !CommandOk(step.command) { return false; }
    ok := ValidateCommandTemplates(step.command, allowed, rules, policy, declared);
    if !ok { return; }
    ok := ValidateCwd(step.cwd, allowed, rules, policy, declared);
    if !ok { return; }
    ok := ValidateEnv(step.env, allowed, rules, policy, declared);
    if !ok { return; }
    ok := step.timeout.Some? ==> rules.durationOk(step.timeout.value);
  }

  method CollectVarReferences(input: string, refs0: set<string>) returns (r: Option<set<string>>)
    ensures r == if Parse(input).Ok? then Some(refs0 + VarRefs(input)) else None
  {
    var keys := ReferencedKeys(input);
    if keys.Err? { return None; }
    var refs := refs0;
    for i := 0 to |keys.value|
      invariant refs == refs0 + VarsAmong(keys.value[..i])
    {
      VarsAmongNext(keys.value, i);
      var name := StripVar(keys.value[i]);
      if name.Some? { refs := refs + {name.value}; }
    }
    assert keys.value[..|keys.value|] == keys.value;
    r := Some(refs);
  }

  /** Every template of a launch or of a step can be parsed. */
  ghost predicate AllParse(cwd: Option<string>, env: map<string, string>, command: seq<string>) {
    && (cwd.Some? ==> Parse(cwd.value).Ok?)
    && (forall k :: k in env ==> Parse(env[k]).Ok?)
    && (forall a :: a in command ==> Parse(a).Ok?)
  }

  method CollectFromMap(env: map<string, string>, refs0: set<string>) returns (r: Option<set<string>>)
    ensures r.Some? <==> forall k :: k in env ==> Parse(env[k]).Ok?
    ensures r.Some? ==> forall n :: n in r.value <==> n in refs0 || exists k :: k in env && n in VarRefs(env[k])
  {
    var refs, keys := refs0, env.Keys;
    while keys != {}
      invariant keys <= env.Keys && forall k :: k in env && k !in keys ==> Parse(env[k]).Ok?
      invariant forall n :: n in refs <==> n in refs0 || exists k :: k in env && k !in keys && n in VarRefs(env[k])
      decreases keys
    {
      var key :| key in keys;
      var more := CollectVarReferences(env[key], refs);
      if more.None? { return None; }
      ghost var before := refs;
      refs, keys := more.value, keys - {key};
      forall n ensures n in refs <==> n in refs0 || exists k :: k in env && k !in keys && n in VarRefs(env[k]) {
        assert n in refs <==> n in before || n in VarRefs(env[key]);
      }
    }
    r := Some(refs);
  }

  method CollectFromCommand(command: seq<string>, refs0: set<string>) returns (r: Option<set<string>>)
    ensures r.Some? <==> forall a :: a in command ==> Parse(a).Ok?
    ensures r.Some? ==> forall n :: n in r.value <==> n in refs0 || exists a :: a in command && n in VarRefs(a)
  {
    var refs := refs0;
    for i := 0 to |command|
      invariant forall a :: a in command[..i] ==> Parse(a).Ok?
      invariant forall n :: n in refs <==> n in refs0 || exists a :: a in command[..i] && n in VarRefs(a)
    {
      assert command[i] in command;
      var more := CollectVarReferences(command[i], refs);
      if more.None? { return None; }
      ghost var before := refs;
      refs := more.value;
      assert command[..i + 1] == command[..i] + [command[i]];
      forall n ensures n in refs <==> n in refs0 || exists a :: a in command[..i + 1] && n in VarRefs(a) {
        assert n in refs <==> n in before || n in VarRefs(command[i]);
      }
    }
    assert command[..|command|] == command;
    r := Some(refs);
  }

  method CollectReferences(cwd: Option<string>, env: map<string, string>, command: seq<string>, refs0: set<string>)
    returns (r: Option<set<string>>)
    ensures r.Some? <==> AllParse(cwd, env, command)
    ensures r.Some? ==> forall n :: n in r.value <==> n in refs0 || RefersTo(cwd, env, command, n)
  {
    var refs := refs0;
    if cwd.Some? {
      var more := CollectVarReferences(cwd.value, refs);
      if more.None? { return None; }
      refs := more.value;
    }
    r := CollectFromMap(env, refs);
    if r.None? { return; }
    r := CollectFromCommand(command, r.value);
  }

  lemma SentinelParses()
    ensures Parse(ARGS).Ok? && VarRefs(ARGS) == {}
  {
    assert ARGS == "{" + "args" + "}";
    ParseOneKey("args");
    assert StripVar("args").None?;
  }

  /** Collecting the references of what has been validated cannot fail. */
  lemma ValidatedParses(
    rules: Rules, policy: TemplatePolicy, declared: set<string>, cwd: Option<string>, env: map<string, string>,
    command: seq<string>)
    requires CwdOk(rules, policy, declared, cwd) && EnvOk(rules, policy, declared, env)
    requires forall a :: a in command ==> a == ARGS || TemplateOk(rules, policy, declared, a)
    ensures AllParse(cwd, env, command)
  {
    SentinelParses();
  }

  method ValidateVariables<V>(rules: Rules, vars: map<string, Variable<V>>) returns (ok: bool)
    ensures ok <==> forall n :: n in vars ==> rules.nameOk(n) && VariableOk(vars[n])
  {
    var names := vars.Keys;
    while names != {}
      invariant names <= vars.Keys
      invariant forall n :: n in vars && n !in names ==> rules.nameOk(n) && VariableOk(vars[n])
      decreases names
    {
      var name :| name in names;
      var v := vars[name];
      if !rules.nameOk(name) || !v.wellTyped || (v.required && v.default.Some?) {
        assert !(rules.nameOk(name) && VariableOk(vars[name]));
        return false;
      }
      names := names - {name};
    }
    ok := true;
  }

  /** Steps are checked in order; a step whose name was seen before is refused. */
  method ValidateSteps(
    steps: seq<Step>, allowed: seq<string>, rules: Rules, policy: Policy, ghost declared: set<string>,
    refs0: set<string>)
    returns (ok: bool, refs: set<string>)
    requires Lists(rules, declared, allowed)
    ensures ok <==> StepsOk(rules, TemplatesOf(policy), declared, steps)
    ensures ok && policy.Effective? ==>
      forall n :: n in refs <==> n in refs0 || exists i :: 0 <= i < |steps| && StepRefersTo(steps[i], n)
  {
    refs := refs0;
    var names := {};
    for i := 0 to |steps|
      invariant StepsOk(rules, TemplatesOf(policy), declared, steps[..i])
      invariant forall name :: name in names <==> exists j :: 0 <= j < i && steps[j].name == name
      invariant policy.Effective? ==>
        forall n :: n in refs <==> n in refs0 || exists j :: 0 <= j < i && StepRefersTo(steps[j], n)
    {
      var step := steps[i];
      ok := ValidateStep(step, allowed, rules, TemplatesOf(policy), declared);
      if !ok { return; }
      if step.name in names { return false, refs; }
      names := names + {step.name};
      assert steps[..i + 1] == steps[..i] + [step];
      if policy.Effective? {
        ValidatedParses(rules, TemplatesOf(policy), declared, step.cwd, step.env, step.command);
        var more := CollectReferences(step.cwd, step.env, step.command, refs);
        ghost var before := refs;
        refs := more.value;
        forall n ensures n in refs <==> n in refs0 || exists j :: 0 <= j < i + 1 && StepRefersTo(steps[j], n) {
          assert n in refs <==> n in before || StepRefersTo(step, n);
        }
      }
    }
    assert steps[..|steps|] == steps;
    ok := true;
  }

  method ReferencesDependable<V>(vars: map<string, Variable<V>>, refs: set<string>) returns (ok: bool)
    ensures ok <==> forall n :: n in refs ==> Dependable(vars, n)
  {
    var rest := refs;
    while rest != {}
      invariant rest <= refs && forall n :: n in refs && n !in rest ==> Dependable(vars, n)
      decreases rest
    {
      var name :| name in rest;
      if name !in vars { return false; }
      if !vars[name].required && vars[name].default.None? { return false; }
      rest := rest - {name};
    }
    ok := true;
  }

  method ValidateLaunchShape<V>(rules: Rules, policy: Policy, shape: Shape<V>) returns (ok: bool)
    ensures ok <==> Valid(rules, policy, shape)
  {
    if !TargetOk(rules, policy, shape.target) { return false; }
    if policy.Effective? && shape.command.Some? && !CommandOk(shape.command.value) { return false; }
    ok := ValidateVariables(rules, shape.vars);
    if !ok { return; }
    ghost var declared := shape.vars.Keys;
    var allowed := AllowedTemplateVars(rules, shape.vars.Keys);
    ok := ValidateCwd(shape.cwd, allowed, rules, TemplatesOf(policy), declared);
    if !ok { return; }
    ok := ValidateEnv(shape.env, allowed, rules, TemplatesOf(policy), declared);
    if !ok { return; }
    if shape.command.Some? {
      if !CommandOk(shape.command.value) { return false; }
      ok := ValidateLaunchCommandTemplates(shape.command.value, shape.allowArgs, allowed, rules, policy, declared);
      if !ok { return; }
    }
    var refs := {};
    if policy.Effective? {
      ValidatedParses(rules, TemplatesOf(policy), declared, shape.cwd, shape.env, CommandOf(shape));
      var own := CollectReferences(shape.cwd, shape.env, CommandOf(shape), refs);
      refs := own.value;
    }
    ok, refs := ValidateSteps(shape.steps, allowed, rules, policy, declared, refs);
    if !ok { return; }
    if policy.Effective? {
      assert forall n :: n in refs <==> Referenced(shape, n);
      ok := ReferencesDependable(shape.vars, refs);
    }
  }

  // ---- Resolving the variables and rendering ----

  /** The value a variable gets: the supplied one, or its default. */
  function Chosen<V>(vars: map<string, Variable<V>>, supplied: map<string, V>, n: string): Option<V>
    requires n in vars
  {
    if n in supplied then Some(supplied[n]) else vars[n].default
  }

  /** `coerce` checks a value against its variable and gives the text to render, if it fits. */
  ghost predicate Resolvable<V>(
    vars: map<string, Variable<V>>, supplied: map<string, V>, coerce: (Variable<V>, V) -> Option<string>, n: string)
    requires n in vars
  {
    var v := Chosen(vars, supplied, n);
    if v.Some? then coerce(vars[n], v.value).Some? else !vars[n].required
  }

  ghost predicate ResolvedAt<V>(
    vars: map<string, Variable<V>>, supplied: map<string, V>, coerce: (Variable<V>, V) -> Option<string>,
    resolved: map<string, string>, n: string)
    requires n in vars
  {
    var v := Chosen(vars, supplied, n);
    if v.Some? then n in resolved && coerce(vars[n], v.value) == Some(resolved[n]) else n !in resolved
  }

  method ResolveLaunchVars<V>(
    vars: map<string, Variable<V>>, supplied: map<string, V>, coerce: (Variable<V>, V) -> Option<string>)
    returns (r: Option<map<string, string>>)
    ensures r.Some? <==> supplied.Keys <= vars.Keys && forall n :: n in vars ==> Resolvable(vars, supplied, coerce, n)
    ensures r.Some? ==> r.value.Keys <= vars.Keys
    ensures r.Some? ==> forall n :: n in vars ==> ResolvedAt(vars, supplied, coerce, r.value, n)
    ensures r.Some? ==> forall n :: n in supplied ==>
      n in vars && n in r.value && coerce(vars[n], supplied[n]) == Some(r.value[n])
    ensures r.Some? ==> forall n :: n in vars && n !in supplied ==>
      if vars[n].default.Some? then n in r.value && coerce(vars[n], vars[n].default.value) == Some(r.value[n])
      else !vars[n].required && n !in r.value
  {
    var unknown := supplied.Keys;
    while unknown != {}
      invariant unknown <= supplied.Keys && supplied.Keys - unknown <= vars.Keys
      decreases unknown
    {
      var key :| key in unknown;
      if key !in vars { return None; }
      unknown := unknown - {key};
    }
    assert supplied.Keys - unknown == supplied.Keys;
    var resolved: map<string, string>, names := map[], vars.Keys;
    while names != {}
      invariant names <= vars.Keys && resolved.Keys <= vars.Keys - names
      invariant forall n :: n in vars && n !in names ==>
        Resolvable(vars, supplied, coerce, n) && ResolvedAt(vars, supplied, coerce, resolved, n)
      decreases names
    {
      var name :| name in names;
      names := names - {name};
      if name in supplied {
        var value := coerce(vars[name], supplied[name]);
        if value.None? { assert !Resolvable(vars, supplied, coerce, name); return None; }
        resolved := resolved[name := value.value];
      } else if vars[name].default.Some? {
        var value := coerce(vars[name], vars[name].default.value);
        if value.None? { assert !Resolvable(vars, supplied, coerce, name); return None; }
        resolved := resolved[name := value.value];
      } else if vars[name].required {
        assert !Resolvable(vars, supplied, coerce, name);
        return None;
      }
    }
    r := Some(resolved);
  }

  /** The variables that templates see: those of the runtime, and each resolved one under its key. */
  ghost predicate Combines(runtime: Vars, resolved: map<string, string>, vars: Vars) {
    forall k ::
      && (k in vars <==> k in runtime || (StripVar(k).Some? && StripVar(k).value in resolved))
      && (k in vars ==>
            vars[k] ==
              if StripVar(k).Some? && StripVar(k).value in resolved then resolved[StripVar(k).value] else runtime[k])
  }

  /** No launch variable hides or replaces a built-in one. */
  lemma BuiltinsKept(runtime: Vars, resolved: map<string, string>, vars: Vars, k: string)
    requires Combines(runtime, resolved, vars) && k in BUILTINS
    ensures (k in vars <==> k in runtime) && (k in vars ==> vars[k] == runtime[k])
  {
    assert k[0] != 'v';
    assert StripVar(k).None?;
  }

  method LaunchTemplateVars(runtime: Vars, resolved: map<string, string>) returns (vars: Vars)
    ensures Combines(runtime, resolved, vars)
  {
    vars := runtime;
    var names := resolved.Keys;
    while names != {}
      invariant names <= resolved.Keys
      invariant Combines(runtime, map n | n in resolved && n !in names :: resolved[n], vars)
      decreases names
    {
      var name :| name in names;
      vars := vars[VarKey(name) := resolved[name]];
      names := names - {name};
    }
    assert (map n | n in resolved && n !in names :: resolved[n]) == resolved;
  }

  method RenderTemplateMap(values: map<string, string>, vars: Vars) returns (r: Option<map<string, string>>)
    ensures r.Some? <==> forall k :: k in values ==> Bound(values[k], vars.Keys)
    ensures r.Some? ==> r.value.Keys == values.Keys
    ensures r.Some? ==> forall k :: k in values ==> RenderedTo(values[k], vars, r.value[k])
  {
    var out: map<string, string>, keys := map[], values.Keys;
    while keys != {}
      invariant keys <= values.Keys && out.Keys == values.Keys - keys
      invariant forall k :: k in out ==> RenderedTo(values[k], vars, out[k])
      decreases keys
    {
      var key :| key in keys;
      var value := Render(values[key], vars);
      if value.Err? { return None; }
      out := out[key := value.value];
      keys := keys - {key};
    }
    r := Some(out);
  }

  /** What one argument becomes: the passthrough arguments, or its rendering. */
  ghost function Piece(arg: string, vars: Vars, args: seq<string>): seq<string> {
    if arg == ARGS then args else if Bound(arg, vars.Keys) then [Substitute(Parse(arg).value, vars)] else []
  }

  /** Each argument rendered on its own, with the passthrough arguments in place of `{args}`. */
  ghost function Expanded(command: seq<string>, vars: Vars, args: seq<string>): seq<string> {
    if command == [] then []
    else Expanded(command[..|command| - 1], vars, args) + Piece(command[|command| - 1], vars, args)
  }

  ghost predicate Renderable(arg: string, vars: Vars) {
    arg == ARGS || Bound(arg, vars.Keys)
  }

  ghost predicate AllRenderable(command: seq<string>, vars: Vars) {
    forall a :: a in command ==> Renderable(a, vars)
  }

  lemma ExpandedNext(command: seq<string>, vars: Vars, args: seq<string>, i: nat)
    requires i < |command|
    ensures Expanded(command[..i + 1], vars, args) == Expanded(command[..i], vars, args) + Piece(command[i], vars, args)
    ensures AllRenderable(command[..i + 1], vars) <==> AllRenderable(command[..i], vars) && Renderable(command[i], vars)
    ensures AllRenderable(command, vars) ==> Renderable(command[i], vars)
  {
    assert command[..i + 1][..i] == command[..i];
    assert command[..i + 1] == command[..i] + [command[i]];
    assert command[i] in command;
  }

  method RenderPiece(arg: string, vars: Vars, args: seq<string>) returns (r: Option<seq<string>>)
    ensures r == if Renderable(arg, vars) then Some(Piece(arg, vars, args)) else None
  {
    if arg == ARGS { return Some(args); }
    var text := Render(arg, vars);
    r := if text.Err? then None else Some([text.value]);
  }

  method RenderLaunchCommand(command: seq<string>, vars: Vars, args: seq<string>) returns (r: Option<seq<string>>)
    ensures r.Some? <==> AllRenderable(command, vars)
    ensures r.Some? ==> r.value == Expanded(command, vars, args)
  {
    var rendered := [];
    for i := 0 to |command|
      invariant AllRenderable(command[..i], vars)
      invariant rendered == Expanded(command[..i], vars, args)
    {
      ExpandedNext(command, vars, args, i);
      var piece := RenderPiece(command[i], vars, args);
      if piece.None? { return None; }
      rendered := rendered + piece.value;
    }
    assert command[..|command|] == command;
    r := Some(rendered);
  }

  // ---- Validation implies rendering ----

  /** All built-in keys that the template refers to are bound. */
  ghost predicate BuiltinsBound(rules: Rules, keys: set<string>, s: string) {
    Parse(s).Ok? ==> forall k :: Key(k) in Parse(s).value && k in rules.builtins ==> k in keys
  }

  /** A validated template can only lack a built-in key, once the variables are resolved. */
  lemma TemplateRenders<V>(
    rules: Rules, targets: set<string>, vars: map<string, Variable<V>>, supplied: map<string, V>,
    coerce: (Variable<V>, V) -> Option<string>, resolved: map<string, string>, runtime: Vars, all: Vars, s: string)
    requires TemplateOk(rules, STRICT, vars.Keys, s)
    requires forall n :: n in VarRefs(s) ==> Dependable(vars, n)
    requires forall n :: n in vars ==>
      Resolvable(vars, supplied, coerce, n) && ResolvedAt(vars, supplied, coerce, resolved, n)
    requires Combines(runtime, resolved, all)
    ensures Bound(s, all.Keys) <==> BuiltinsBound(rules, all.Keys, s)
  {
    var segments := Parse(s).value;
    forall k | Key(k) in segments && k !in rules.builtins ensures k in all {
      assert Permits(rules, STRICT, vars.Keys, k);
      assert k in KeysOf(segments);
      var n := StripVar(k).value;
      assert n in VarRefs(s);
      assert Resolvable(vars, supplied, coerce, n) && ResolvedAt(vars, supplied, coerce, resolved, n);
    }
  }

  /** A template that rendering a launch or one of its steps goes through. */
  ghost predicate Rendered(cwd: Option<string>, env: map<string, string>, command: seq<string>, s: string) {
    || (cwd.Some? && s == cwd.value)
    || (exists k :: k in env && s == env[k])
    || (s in command)
  }

  ghost predicate LaunchRenders<V>(shape: Shape<V>, s: string) {
    || (Rendered(shape.cwd, shape.env, CommandOf(shape), s) && s != ARGS)
    || exists i :: 0 <= i < |shape.steps| && Rendered(shape.steps[i].cwd, shape.steps[i].env, shape.steps[i].command, s)
  }

  /**
   An effective launch that validates, with variables that resolve, renders every template unless
   the template refers to a built-in variable that the runtime has not bound.
   */
  lemma ValidationImpliesRendering<V>(
    rules: Rules, targets: set<string>, shape: Shape<V>, supplied: map<string, V>,
    coerce: (Variable<V>, V) -> Option<string>, resolved: map<string, string>, runtime: Vars, all: Vars)
    requires Valid(rules, Effective(targets), shape)
    requires forall n :: n in shape.vars ==>
      Resolvable(shape.vars, supplied, coerce, n) && ResolvedAt(shape.vars, supplied, coerce, resolved, n)
    requires Combines(runtime, resolved, all)
    ensures forall s :: LaunchRenders(shape, s) ==> (Bound(s, all.Keys) <==> BuiltinsBound(rules, all.Keys, s))
  {
    forall s | LaunchRenders(shape, s) ensures Bound(s, all.Keys) <==> BuiltinsBound(rules, all.Keys, s) {
      ValidatedTemplate(rules, targets, shape, s);
      TemplateRenders(rules, targets, shape.vars, supplied, coerce, resolved, runtime, all, s);
    }
  }

  lemma ValidatedTemplate<V>(rules: Rules, targets: set<string>, shape: Shape<V>, s: string)
    requires Valid(rules, Effective(targets), shape) && LaunchRenders(shape, s)
    ensures TemplateOk(rules, STRICT, shape.vars.Keys, s)
    ensures forall n :: n in VarRefs(s) ==> Dependable(shape.vars, n)
  {
    if Rendered(shape.cwd, shape.env, CommandOf(shape), s) && s != ARGS {
      assert s in CommandOf(shape) ==> ArgOk(rules, STRICT, shape.vars.Keys, s);
      forall n | n in VarRefs(s) ensures Referenced(shape, n) {}
    } else {
      var i :| 0 <= i < |shape.steps| && Rendered(shape.steps[i].cwd, shape.steps[i].env, shape.steps[i].command, s);
      assert StepOk(rules, STRICT, shape.vars.Keys, shape.steps[i]);
      forall n | n in VarRefs(s) ensures Referenced(shape, n) { assert StepRefersTo(shape.steps[i], n); }
    }
  }

  /** A launch with a working directory and the command `x`. */
  function BareLaunch<V>(target: string, cwd: string): Shape<V> {
    Shape(Some(target), None, Some(cwd), map[], Some(["x"]), map[], [])
  }

  lemma BareLaunchValid<V>(rules: Rules, target: string, cwd: string)
    requires TemplateOk(rules, STRICT, {}, cwd) && VarRefs(cwd) == {}
    ensures Valid<V>(rules, Effective({target}), BareLaunch<V>(target, cwd))
  {
    var shape := BareLaunch<V>(target, cwd);
    PlainArgument(rules, STRICT, {});
    assert forall a :: a in CommandOf(shape) ==> a == "x";
    NoReferences(shape);
  }

  /**
   A valid launch that does not render: its working directory is the session's identifier, which
   the runtime binds only when there is a session.
   */
  lemma SessionLaunchFails<V>(rules: Rules, target: string, runtime: Vars)
    requires rules.builtins == BUILTINS && "session_id" !in runtime
    ensures Valid<V>(rules, Effective({target}), BareLaunch<V>(target, "{session_id}"))
    ensures LaunchRenders(BareLaunch<V>(target, "{session_id}"), "{session_id}") && !Bound("{session_id}", runtime.Keys)
  {
    BuiltinSession();
    SessionTemplate(rules, STRICT, {}, runtime.Keys);
    BareLaunchValid<V>(rules, target, "{session_id}");
    CwdRendered<V>(target, "{session_id}");
  }

  lemma CwdRendered<V>(target: string, cwd: string)
    requires cwd != ARGS
    ensures LaunchRenders(BareLaunch<V>(target, cwd), cwd)
  {
  }

  lemma BuiltinSession()
    ensures "session_id" in BUILTINS
  {
    assert BUILTINS[|BUILTINS| - 1] == "session_id";
  }

  lemma SessionTemplate(rules: Rules, policy: TemplatePolicy, declared: set<string>, keys: set<string>)
    requires "session_id" in rules.builtins && "session_id" !in keys
    ensures TemplateOk(rules, policy, declared, "{session_id}") && VarRefs("{session_id}") == {}
    ensures !Bound("{session_id}", keys)
  {
    assert "{session_id}" == "{" + "session_id" + "}";
    OneKey(rules, policy, declared, keys, "session_id");
  }

  lemma OneKey(rules: Rules, policy: TemplatePolicy, declared: set<string>, keys: set<string>, key: string)
    requires '}' !in key && key != "" && StripVar(key).None? && key in rules.builtins
    ensures TemplateOk(rules, policy, declared, "{" + key + "}") && VarRefs("{" + key + "}") == {}
    ensures Bound("{" + key + "}", keys) <==> key in keys
  {
    ParseOneKey(key);
  }

  lemma PlainArgument(rules: Rules, policy: TemplatePolicy, declared: set<string>)
    ensures ArgsOk(rules, policy, declared, ["x"]) && VarRefs("x") == {} && Sentinels(["x"]) == []
  {
    assert Next("x").Plain?;
    assert Parse("x") == Ok([Literal("x")]);
    assert !Contains("x", ARGS);
    assert ["x"][..0] == [];
  }

  lemma NoReferences<V>(shape: Shape<V>)
    requires shape.env == map[] && shape.steps == []
    requires shape.cwd.Some? ==> VarRefs(shape.cwd.value) == {}
    requires forall a :: a in CommandOf(shape) ==> VarRefs(a) == {}
    ensures forall n :: !Referenced(shape, n)
  {
  }

  // ---- Passthrough arguments are never dropped, and never become the program ----

  predicate PassthroughAccepted<V>(shape: Shape<V>, args: seq<string>) {
    args == [] || shape.allowArgs == Some(true)
  }

  lemma {:induction false} ExpandedConcat(a: seq<string>, b: seq<string>, vars: Vars, args: seq<string>)
    ensures Expanded(a + b, vars, args) == Expanded(a, vars, args) + Expanded(b, vars, args)
  {
    if b == [] {
      assert a + b == a;
    } else {
      var last := |b| - 1;
      assert (a + b)[..|a + b| - 1] == a + b[..last] && (a + b)[|a + b| - 1] == b[last];
      ExpandedConcat(a, b[..last], vars, args);
      Regroup(Expanded(a, vars, args), Expanded(b[..last], vars, args), Piece(b[last], vars, args));
    }
  }

  lemma Regroup<T>(a: seq<T>, b: seq<T>, c: seq<T>)
    ensures a + b + c == a + (b + c)
  {
  }

  /** The passthrough arguments stand where the sentinel stood. */
  lemma ExpandedAround(before: seq<string>, after: seq<string>, vars: Vars, args: seq<string>)
    ensures Expanded(before + [ARGS] + after, vars, args) ==
      Expanded(before, vars, args) + args + Expanded(after, vars, args)
  {
    ExpandedConcat(before + [ARGS], after, vars, args);
    ExpandedConcat(before, [ARGS], vars, args);
    assert Expanded([ARGS], vars, args) == Expanded([], vars, args) + Piece(ARGS, vars, args);
  }

  /** Argument by argument, `out` is the rendering of the command. */
  ghost predicate RendersEach(command: seq<string>, vars: Vars, out: seq<string>) {
    |out| == |command| && forall i :: 0 <= i < |command| ==> RenderedTo(command[i], vars, out[i])
  }

  lemma {:induction false} ExpandedRenders(command: seq<string>, vars: Vars, args: seq<string>)
    requires ARGS !in command && AllRenderable(command, vars)
    ensures RendersEach(command, vars, Expanded(command, vars, args))
  {
    if command != [] {
      var last := |command| - 1;
      assert command[last] in command;
      ExpandedRenders(command[..last], vars, args);
      RendersNext(command, vars, Expanded(command[..last], vars, args));
    }
  }

  lemma RendersNext(command: seq<string>, vars: Vars, out: seq<string>)
    requires command != [] && RendersEach(command[..|command| - 1], vars, out)
    requires Bound(command[|command| - 1], vars.Keys)
    ensures RendersEach(command, vars, out + [Substitute(Parse(command[|command| - 1]).value, vars)])
  {
    assert forall i :: 0 <= i < |command| - 1 ==> command[..|command| - 1][i] == command[i];
  }

  /** An allowed sentinel is the only one, and not the program; without permission there is none. */
  lemma SentinelPlace(targets: set<string>, allowArgs: Option<bool>, command: seq<string>) returns (p: nat)
    requires SentinelOk(Effective(targets), allowArgs, Sentinels(command))
    ensures if allowArgs == Some(true) then
        0 < p < |command| && command[p] == ARGS && ARGS !in command[..p] && ARGS !in command[p + 1..]
      else ARGS !in command
  {
    var positions := Sentinels(command);
    p := 0;
    forall i: nat | i < |command| && command[i] == ARGS ensures i in positions {}
    if allowArgs == Some(true) {
      p := positions[0];
      assert p in positions && positions == [p];
    }
  }

  lemma RenderableParts(command: seq<string>, p: nat, vars: Vars)
    requires p < |command| && AllRenderable(command, vars)
    ensures AllRenderable(command[..p], vars) && AllRenderable(command[p + 1..], vars)
    ensures command == command[..p] + [command[p]] + command[p + 1..]
  {
  }

  /**
   For a valid launch the accepted passthrough arguments appear once, in order and uninterpreted,
   between the renderings of the arguments before and after them, and never at the front; without
   them the command is rendered argument by argument.
   */
  lemma PassthroughPlacement<V>(rules: Rules, targets: set<string>, shape: Shape<V>, vars: Vars, args: seq<string>)
    returns (p: nat, before: seq<string>, after: seq<string>)
    requires Valid(rules, Effective(targets), shape) && shape.command.Some? && PassthroughAccepted(shape, args)
    requires AllRenderable(shape.command.value, vars)
    ensures var command, out := shape.command.value, Expanded(shape.command.value, vars, args);
      if shape.allowArgs == Some(true) then
        && 0 < p < |command| && command[p] == ARGS && out == before + args + after
        && RendersEach(command[..p], vars, before) && RendersEach(command[p + 1..], vars, after)
      else args == [] && RendersEach(command, vars, out)
  {
    var command := shape.command.value;
    p := SentinelPlace(targets, shape.allowArgs, command);
    before, after := [], [];
    if shape.allowArgs == Some(true) {
      before, after := Expanded(command[..p], vars, args), Expanded(command[p + 1..], vars, args);
      RenderableParts(command, p, vars);
      ExpandedAround(command[..p], command[p + 1..], vars, args);
      ExpandedRenders(command[..p], vars, args);
      ExpandedRenders(command[p + 1..], vars, args);
    } else {
      ExpandedRenders(command, vars, args);
    }
  }

  /** What passes as an effective launch also passes the partial check that templates get. */
  lemma EffectiveIsPartial<V>(rules: Rules, targets: set<string>, shape: Shape<V>)
    requires Valid(rules, Effective(targets), shape) && forall t :: t in targets ==> rules.nameOk(t)
    ensures Valid(rules, Partial, shape)
  {
    forall s | TemplateOk(rules, STRICT, shape.vars.Keys, s)
      ensures TemplateOk(rules, UNBOUND_VAR_PREFIX, shape.vars.Keys, s) {}
    forall i | 0 <= i < |shape.steps| ensures StepOk(rules, UNBOUND_VAR_PREFIX, shape.vars.Keys, shape.steps[i]) {
      assert StepOk(rules, STRICT, shape.vars.Keys, shape.steps[i]);
    }
    if shape.command.Some? {
      forall a | a in shape.command.value ensures ArgOk(rules, UNBOUND_VAR_PREFIX, shape.vars.Keys, a) {
        assert ArgOk(rules, STRICT, shape.vars.Keys, a);
      }
    }
  }
}
