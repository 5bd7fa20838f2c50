/**
 The launches of a gateway configuration: the checks made once when it is loaded, the layering of
 defaults, templates and launch, and why only few of the later checks can still fail.
 */
module LaunchConfigs {
  import opened Launches
  import opened Options
  import opened Overlays
  import opened Sequences
  import opened TemplateChains
  import opened Templates

  /** A launch step without its name; `placement` stands for its phase, its location and `required`. */
  datatype StepBody = StepBody(
    placement: string,
    cwd: Option<string>,
    env: map<string, string>,
    command: seq<string>,
    timeout: Option<string>)

  type LaunchInput<V> = Input<StepBody, Variable<V>>

  datatype LaunchConfig<V> = LaunchConfig(
    defaults: LaunchInput<V>,
    templates: map<string, LaunchInput<V>>,
    launches: map<string, LaunchInput<V>>)

  function StepOf(item: Item<StepBody>): Launches.Step {
    Step(item.name, item.body.cwd, item.body.env, item.body.command, item.body.timeout)
  }

  function StepsOf(items: seq<Item<StepBody>>): (r: seq<Launches.Step>)
    ensures |r| == |items| && forall i :: 0 <= i < |r| ==> r[i] == StepOf(items[i])
  {
    seq(|items|, i requires 0 <= i < |items| => StepOf(items[i]))
  }

  function ShapeOf<V>(i: LaunchInput<V>): Shape<V> {
    Shape(i.target, i.allowArgs, i.cwd, i.env, i.command, i.vars, StepsOf(i.steps))
  }

  function ResolverOf<V>(cfg: LaunchConfig<V>): Resolver<LaunchInput<V>> {
    Resolver(cfg.templates, (i: LaunchInput<V>) => i.uses, (a: LaunchInput<V>, b: LaunchInput<V>) => Overlay(a, b))
  }

  /** Defaults, the templates that the launch uses, and the launch itself, one over the other. */
  function Layered<V>(cfg: LaunchConfig<V>, launch: LaunchInput<V>): Option<LaunchInput<V>> {
    match ApplyAll(ResolverOf(cfg), cfg.defaults, launch.uses, [])
    case Err(_) => None
    case Ok(base) => Overlay(base, launch)
  }

  /** The launch with its defaults filled in: without a word on arguments they are refused. */
  function Settled<V>(i: LaunchInput<V>): LaunchInput<V> {
    i.(allowArgs := Some(i.allowArgs == Some(true)))
  }

  ghost predicate Resolves<V>(rules: Rules, cfg: LaunchConfig<V>, launch: LaunchInput<V>, targets: set<string>) {
    && Layered(cfg, launch).Some?
    && Layered(cfg, launch).value.target.Some? && Layered(cfg, launch).value.command.Some?
    && Valid(rules, Effective(targets), ShapeOf(Settled(Layered(cfg, launch).value)))
  }

  ghost predicate PartiallyValid<V>(rules: Rules, i: LaunchInput<V>) {
    (forall n :: n in i.uses ==> rules.nameOk(n)) && Valid(rules, Partial, ShapeOf(i))
  }

  /** What loading checks of each input on its own, and of the references between templates. */
  ghost predicate Checked<V>(rules: Rules, cfg: LaunchConfig<V>) {
    && cfg.defaults.uses == [] && PartiallyValid(rules, cfg.defaults)
    && (forall n :: n in cfg.templates ==> rules.nameOk(n) && PartiallyValid(rules, cfg.templates[n]))
    && Sound(References(ResolverOf(cfg)))
  }

  ghost predicate Accepted<V>(rules: Rules, cfg: LaunchConfig<V>, targets: set<string>) {
    && Checked(rules, cfg)
    && forall n :: n in cfg.launches ==> LaunchAccepted(rules, cfg, targets, n)
  }

  ghost predicate LaunchAccepted<V>(rules: Rules, cfg: LaunchConfig<V>, targets: set<string>, n: string)
    requires n in cfg.launches
  {
    && rules.nameOk(n) && n != "show" && PartiallyValid(rules, cfg.launches[n])
    && Resolves(rules, cfg, cfg.launches[n], targets)
  }

  // ---- The checks at load time ----

  method ResolveEffectiveLaunch<V>(rules: Rules, cfg: LaunchConfig<V>, launch: LaunchInput<V>, targets: set<string>)
    returns (ok: bool)
    ensures ok <==> Resolves(rules, cfg, launch, targets)
  {
    var base := OverlayTemplates(ResolverOf(cfg), cfg.defaults, launch.uses);
    if base.Err? { return false; }
    var layered := OverlayLaunch(base.value, launch);
    if layered.None? || layered.value.target.None? || layered.value.command.None? { return false; }
    ok := ValidateLaunchShape(rules, Effective(targets), ShapeOf(Settled(layered.value)));
  }

  method ValidatePartial<V>(rules: Rules, i: LaunchInput<V>) returns (ok: bool)
    ensures ok <==> PartiallyValid(rules, i)
  {
    for k := 0 to |i.uses|
      invariant forall j :: 0 <= j < k ==> rules.nameOk(i.uses[j])
    {
      if !rules.nameOk(i.uses[k]) {
        assert i.uses[k] in i.uses;
        return false;
      }
    }
    ok := ValidateLaunchShape(rules, Partial, ShapeOf(i));
  }

  /** `order` is the order in which the configuration lists its templates. */
  method ValidateTemplates<V>(rules: Rules, cfg: LaunchConfig<V>, order: seq<string>) returns (ok: bool)
    requires Elems(order) == cfg.templates.Keys
    ensures ok <==> Checked(rules, cfg)
  {
    if cfg.defaults.uses != [] { return false; }
    ok := ValidatePartial(rules, cfg.defaults);
    if !ok { return; }
    for k := 0 to |order|
      invariant forall j :: 0 <= j < k ==>
        order[j] in Elems(order) && rules.nameOk(order[j]) && PartiallyValid(rules, cfg.templates[order[j]])
    {
      assert order[k] in Elems(order);
      if !rules.nameOk(order[k]) { return false; }
      ok := ValidatePartial(rules, cfg.templates[order[k]]);
      if !ok { return; }
    }
    forall n | n in cfg.templates ensures rules.nameOk(n) && PartiallyValid(rules, cfg.templates[n]) {
      assert n in Elems(order);
    }
    var problem := ValidateReferences(ResolverOf(cfg), order);
    ok := problem.None?;
  }

  method ValidateLaunches<V>(rules: Rules, cfg: LaunchConfig<V>, targets: set<string>, order: seq<string>)
    returns (ok: bool)
    requires Elems(order) == cfg.templates.Keys
    ensures ok <==> Accepted(rules, cfg, targets)
  {
    ok := ValidateTemplates(rules, cfg, order);
    if !ok { return; }
    var names := cfg.launches.Keys;
    while names != {}
      invariant names <= cfg.launches.Keys
      invariant forall n :: n in cfg.launches && n !in names ==> LaunchAccepted(rules, cfg, targets, n)
      decreases names
    {
      var name :| name in names;
      if !rules.nameOk(name) || name == "show" { return false; }
      ok := ValidatePartial(rules, cfg.launches[name]);
      if !ok { return; }
      ok := ResolveEffectiveLaunch(rules, cfg, cfg.launches[name], targets);
      if !ok { return; }
      names := names - {name};
    }
    ok := true;
  }

  // ---- What the early checks leave to the late ones ----

  /** All that the partial check asks for, except where `{args}` may stand; it does not depend on other inputs. */
  ghost predicate PartsOk<V>(rules: Rules, i: LaunchInput<V>) {
    && (i.target.Some? ==> rules.nameOk(i.target.value))
    && VarsOk(rules, i.vars)
    && CwdOk(rules, UNBOUND_VAR_PREFIX, {}, i.cwd) && EnvOk(rules, UNBOUND_VAR_PREFIX, {}, i.env)
    && (i.command.Some? ==> OwnCommandOk(rules, i.command.value))
    && ItemsOk(rules, i.steps)
  }

  ghost predicate VarsOk<V>(rules: Rules, vars: map<string, Variable<V>>) {
    forall n :: n in vars ==> rules.nameOk(n) && VariableOk(vars[n])
  }

  ghost predicate OwnCommandOk(rules: Rules, command: seq<string>) {
    CommandOk(command) && ArgsOk(rules, UNBOUND_VAR_PREFIX, {}, command)
  }

  ghost predicate ItemOk(rules: Rules, item: Item<StepBody>) {
    StepOk(rules, UNBOUND_VAR_PREFIX, {}, StepOf(item))
  }

  ghost predicate ItemsOk(rules: Rules, items: seq<Item<StepBody>>) {
    Unique(items) && forall x :: x in items ==> ItemOk(rules, x)
  }

  predicate SentinelFits<V>(policy: Policy, i: LaunchInput<V>) {
    i.command.Some? ==> SentinelOk(policy, i.allowArgs, Sentinels(i.command.value))
  }

  /** Whether declared variables are well named makes no difference to what the partial policy permits. */
  lemma DeclaredIrrelevant(rules: Rules, declared: set<string>, s: string)
    requires forall n :: n in declared ==> rules.nameOk(n)
    ensures TemplateOk(rules, UNBOUND_VAR_PREFIX, declared, s) <==> TemplateOk(rules, UNBOUND_VAR_PREFIX, {}, s)
  {
    assert forall k :: Permits(rules, UNBOUND_VAR_PREFIX, declared, k) <==> Permits(rules, UNBOUND_VAR_PREFIX, {}, k);
  }

  /** Strictly checked templates are those of the partial policy that refer to declared variables only. */
  lemma StrictIff(rules: Rules, declared: set<string>, s: string)
    requires forall n :: n in declared ==> rules.nameOk(n)
    ensures TemplateOk(rules, STRICT, declared, s) ==> TemplateOk(rules, UNBOUND_VAR_PREFIX, {}, s)
    ensures TemplateOk(rules, UNBOUND_VAR_PREFIX, {}, s) && VarRefs(s) <= declared ==>
      TemplateOk(rules, STRICT, declared, s)
  {
    if TemplateOk(rules, UNBOUND_VAR_PREFIX, {}, s) && VarRefs(s) <= declared {
      forall k | Key(k) in Parse(s).value ensures Permits(rules, STRICT, declared, k) {
        assert Permits(rules, UNBOUND_VAR_PREFIX, {}, k);
        assert k in KeysOf(Parse(s).value);
        assert StripVar(k).Some? ==> StripVar(k).value in VarRefs(s);
      }
    }
    assert forall k :: Permits(rules, STRICT, declared, k) ==> Permits(rules, UNBOUND_VAR_PREFIX, {}, k);
  }

  /** A launch or step is fine under the strict policy if it is under the partial one and declares what it refers to. */
  lemma StrictParts(
    rules: Rules, declared: set<string>, cwd: Option<string>, env: map<string, string>, command: seq<string>)
    requires forall n :: n in declared ==> rules.nameOk(n)
    requires CwdOk(rules, UNBOUND_VAR_PREFIX, {}, cwd) && EnvOk(rules, UNBOUND_VAR_PREFIX, {}, env)
    requires forall n :: RefersTo(cwd, env, command, n) ==> n in declared
    ensures CwdOk(rules, STRICT, declared, cwd) && EnvOk(rules, STRICT, declared, env)
    ensures forall a :: a in command && TemplateOk(rules, UNBOUND_VAR_PREFIX, {}, a) ==>
      TemplateOk(rules, STRICT, declared, a)
  {
    forall s | TemplateOk(rules, UNBOUND_VAR_PREFIX, {}, s) && VarRefs(s) <= declared
      ensures TemplateOk(rules, STRICT, declared, s)
    {
      StrictIff(rules, declared, s);
    }
    forall a | a in command ensures VarRefs(a) <= declared {
      forall n | n in VarRefs(a) ensures n in declared { assert RefersTo(cwd, env, command, n); }
    }
    if cwd.Some? {
      forall n | n in VarRefs(cwd.value) ensures n in declared { assert RefersTo(cwd, env, command, n); }
    }
    forall k | k in env ensures VarRefs(env[k]) <= declared {
      forall n | n in VarRefs(env[k]) ensures n in declared { assert RefersTo(cwd, env, command, n); }
    }
  }

  lemma StrictItem(rules: Rules, declared: set<string>, item: Item<StepBody>)
    requires forall n :: n in declared ==> rules.nameOk(n)
    requires ItemOk(rules, item) && forall n :: StepRefersTo(StepOf(item), n) ==> n in declared
    ensures StepOk(rules, STRICT, declared, StepOf(item))
  {
    var step := StepOf(item);
    StrictParts(rules, declared, step.cwd, step.env, step.command);
  }

  lemma PartialCwdEnv(rules: Rules, declared: set<string>, cwd: Option<string>, env: map<string, string>)
    requires forall n :: n in declared ==> rules.nameOk(n)
    ensures CwdOk(rules, UNBOUND_VAR_PREFIX, declared, cwd) <==> CwdOk(rules, UNBOUND_VAR_PREFIX, {}, cwd)
    ensures EnvOk(rules, UNBOUND_VAR_PREFIX, declared, env) <==> EnvOk(rules, UNBOUND_VAR_PREFIX, {}, env)
  {
    forall s
      ensures TemplateOk(rules, UNBOUND_VAR_PREFIX, declared, s) <==> TemplateOk(rules, UNBOUND_VAR_PREFIX, {}, s)
    {
      DeclaredIrrelevant(rules, declared, s);
    }
  }

  lemma PartialStep(rules: Rules, declared: set<string>, step: Launches.Step)
    requires forall n :: n in declared ==> rules.nameOk(n)
    ensures StepOk(rules, UNBOUND_VAR_PREFIX, declared, step) <==> StepOk(rules, UNBOUND_VAR_PREFIX, {}, step)
  {
    forall s
      ensures TemplateOk(rules, UNBOUND_VAR_PREFIX, declared, s) <==> TemplateOk(rules, UNBOUND_VAR_PREFIX, {}, s)
    {
      DeclaredIrrelevant(rules, declared, s);
    }
  }

  lemma PartialSteps(rules: Rules, declared: set<string>, items: seq<Item<StepBody>>)
    requires forall n :: n in declared ==> rules.nameOk(n)
    ensures StepsOk(rules, UNBOUND_VAR_PREFIX, declared, StepsOf(items)) <==> ItemsOk(rules, items)
  {
    forall i | 0 <= i < |items|
      ensures items[i] in items
      ensures StepOk(rules, UNBOUND_VAR_PREFIX, declared, StepsOf(items)[i]) <==> ItemOk(rules, items[i])
    {
      PartialStep(rules, declared, StepOf(items[i]));
    }
  }

  lemma PartialArgs(rules: Rules, declared: set<string>, command: seq<string>)
    requires forall n :: n in declared ==> rules.nameOk(n)
    ensures ArgsOk(rules, UNBOUND_VAR_PREFIX, declared, command) <==> ArgsOk(rules, UNBOUND_VAR_PREFIX, {}, command)
  {
    forall a ensures ArgOk(rules, UNBOUND_VAR_PREFIX, declared, a) <==> ArgOk(rules, UNBOUND_VAR_PREFIX, {}, a) {
      DeclaredIrrelevant(rules, declared, a);
    }
  }

  lemma PartialIff<V>(rules: Rules, i: LaunchInput<V>)
    ensures Valid(rules, Partial, ShapeOf(i)) <==> PartsOk(rules, i) && SentinelFits(Partial, i)
  {
    if forall n :: n in i.vars ==> rules.nameOk(n) {
      var declared := i.vars.Keys;
      PartialCwdEnv(rules, declared, i.cwd, i.env);
      PartialSteps(rules, declared, i.steps);
      PartialArgs(rules, declared, CommandOf(ShapeOf(i)));
    }
  }

  ghost predicate ReferencesOk<V>(i: LaunchInput<V>) {
    forall n :: Referenced(ShapeOf(i), n) ==> Dependable(i.vars, n)
  }

  predicate TargetKnown<V>(i: LaunchInput<V>, targets: set<string>) {
    i.target.Some? && i.target.value in targets
  }

  lemma StrictSteps<V>(rules: Rules, i: LaunchInput<V>)
    requires PartsOk(rules, i) && ReferencesOk(i)
    ensures StepsOk(rules, STRICT, i.vars.Keys, StepsOf(i.steps))
  {
    forall k | 0 <= k < |i.steps| ensures StepOk(rules, STRICT, i.vars.Keys, StepsOf(i.steps)[k]) {
      assert i.steps[k] in i.steps;
      forall n | StepRefersTo(StepOf(i.steps[k]), n) ensures n in i.vars.Keys {
        assert StepRefersTo(ShapeOf(i).steps[k], n);
        assert Referenced(ShapeOf(i), n);
      }
      StrictItem(rules, i.vars.Keys, i.steps[k]);
    }
  }

  lemma StrictOwn<V>(rules: Rules, i: LaunchInput<V>)
    requires PartsOk(rules, i) && ReferencesOk(i)
    ensures CwdOk(rules, STRICT, i.vars.Keys, i.cwd) && EnvOk(rules, STRICT, i.vars.Keys, i.env)
    ensures i.command.Some? ==> ArgsOk(rules, STRICT, i.vars.Keys, i.command.value)
  {
    var command := CommandOf(ShapeOf(i));
    forall n | RefersTo(i.cwd, i.env, command, n) ensures n in i.vars.Keys { assert Referenced(ShapeOf(i), n); }
    StrictParts(rules, i.vars.Keys, i.cwd, i.env, command);
    if i.command.Some? {
      forall a | a in command ensures ArgOk(rules, STRICT, i.vars.Keys, a) {
        assert ArgOk(rules, UNBOUND_VAR_PREFIX, {}, a);
      }
    }
  }

  /** After the partial checks, an effective launch can fail only for its target, its `{args}` or its variables. */
  lemma EffectiveIff<V>(rules: Rules, targets: set<string>, i: LaunchInput<V>)
    requires PartsOk(rules, i)
    ensures Valid(rules, Effective(targets), ShapeOf(i)) <==>
      TargetKnown(i, targets) && SentinelFits(Effective(targets), i) && ReferencesOk(i)
  {
    if ReferencesOk(i) {
      StrictOwn(rules, i);
      StrictSteps(rules, i);
    }
  }

  lemma {:induction false} PutAllElements<B>(items: seq<Item<B>>, later: seq<Item<B>>)
    ensures forall x :: x in PutAll(items, later) ==> x in items || x in later
  {
    if later != [] { PutAllElements(items, later[..|later| - 1]); }
  }

  lemma CombinedItems(rules: Rules, a: seq<Item<StepBody>>, b: seq<Item<StepBody>>)
    requires ItemsOk(rules, a) && ItemsOk(rules, b)
    ensures ItemsOk(rules, PutAll(a, b))
  {
    PutAllUnique(a, b);
    PutAllElements(a, b);
  }

  lemma CombinedMaps<V>(
    rules: Rules, vars: map<string, Variable<V>>, more: map<string, Variable<V>>, env: map<string, string>,
    extra: map<string, string>)
    ensures VarsOk(rules, vars) && VarsOk(rules, more) ==> VarsOk(rules, vars + more)
    ensures EnvOk(rules, UNBOUND_VAR_PREFIX, {}, env) && EnvOk(rules, UNBOUND_VAR_PREFIX, {}, extra) ==>
      EnvOk(rules, UNBOUND_VAR_PREFIX, {}, env + extra)
  {
  }

  lemma CombinedPartsOk<V>(rules: Rules, a: LaunchInput<V>, b: LaunchInput<V>)
    requires PartsOk(rules, a) && PartsOk(rules, b)
    ensures PartsOk(rules, Combined(a, b))
  {
    CombinedItems(rules, a.steps, b.steps);
    CombinedMaps(rules, a.vars, b.vars, a.env, b.env);
  }

  /**
   Overlaying one input that passed the partial check over another gives an input that passes it,
   unless arguments are now refused by one and `{args}` stands in the command of the other.
   */
  lemma OverlayKeepsValidity<V>(rules: Rules, a: LaunchInput<V>, b: LaunchInput<V>)
    requires PartiallyValid(rules, a) && PartiallyValid(rules, b)
    ensures Overlay(a, b) == Some(Combined(a, b))
    ensures PartiallyValid(rules, Combined(a, b)) <==>
      !(Later(a.allowArgs, b.allowArgs) == Some(false) && ARGS in CommandOf(ShapeOf(Combined(a, b))))
  {
    PartialIff(rules, a);
    PartialIff(rules, b);
    PartialIff(rules, Combined(a, b));
    CombinedPartsOk(rules, a, b);
    var i := Combined(a, b);
    if i.command.Some? { SomePlace(i.command.value); }
  }

  /** The order in which inputs that passed the partial check are combined makes no difference. */
  lemma ValidatedOverlaysAssociative<V>(rules: Rules, a: LaunchInput<V>, b: LaunchInput<V>, c: LaunchInput<V>)
    requires PartiallyValid(rules, a) && PartiallyValid(rules, b) && PartiallyValid(rules, c)
    ensures OverlayOpt(Overlay(a, b), Some(c)).Some?
    ensures OverlayOpt(Overlay(a, b), Some(c)) == OverlayOpt(Some(a), Overlay(b, c))
  {
    PartialIff(rules, a);
    PartialIff(rules, b);
    OverlayAssociative(a, b, c);
  }

  lemma CheckedResolver<V(!new)>(rules: Rules, cfg: LaunchConfig<V>)
    requires Checked(rules, cfg)
    ensures LaunchResolver(ResolverOf(cfg)) && Unique(cfg.defaults.steps)
    ensures forall n :: n in cfg.templates ==> PartsOk(rules, cfg.templates[n])
    ensures PartsOk(rules, cfg.defaults)
  {
    PartialIff(rules, cfg.defaults);
    forall n | n in cfg.templates ensures PartsOk(rules, cfg.templates[n]) { PartialIff(rules, cfg.templates[n]); }
  }

  /** The templates a launch uses, overlaid in turn, keep what the partial check asks of each. */
  lemma {:induction false} ChainPartsOk<V>(rules: Rules, cfg: LaunchConfig<V>, base: LaunchInput<V>, names: seq<string>)
    requires PartsOk(rules, base) && forall n :: n in names ==> n in cfg.templates
    requires forall n :: n in cfg.templates ==> PartsOk(rules, cfg.templates[n])
    ensures var r := Fold(ResolverOf(cfg), base, names); r.Ok? ==> PartsOk(rules, r.value)
    decreases |names|
  {
    if names != [] {
      var next := Combined(base, cfg.templates[names[0]]);
      CombinedPartsOk(rules, base, cfg.templates[names[0]]);
      ChainPartsOk(rules, cfg, next, names[1..]);
    }
  }

  lemma {:induction false} AppliedTemplatesExist<I>(r: Resolver<I>, base: I, work: seq<string>, stack: seq<string>)
    requires ApplyAll(r, base, work, stack).Ok?
    ensures forall n :: n in work ==> n in r.templates
    decreases |work|
  {
    if work != [] { AppliedTemplatesExist(r, Apply(r, base, work[0], stack).value, work[1..], stack); }
  }

  lemma EmptyPartsOk<V>(rules: Rules)
    ensures PartsOk<V>(rules, DefaultInput())
  {
  }

  lemma OneChain<V(!new)>(rules: Rules, cfg: LaunchConfig<V>, names: seq<string>) returns (chain: LaunchInput<V>)
    requires Checked(rules, cfg) && forall n :: n in names ==> n in cfg.templates
    ensures Fold(ResolverOf(cfg), DefaultInput(), names) == TemplateChains.Ok(chain) && PartsOk(rules, chain)
    ensures Fold(ResolverOf(cfg), cfg.defaults, names) == TemplateChains.Ok(Combined(cfg.defaults, chain))
  {
    CheckedResolver(rules, cfg);
    ChainIsOneOverlay(ResolverOf(cfg), cfg.defaults, names);
    EmptyPartsOk<V>(rules);
    ChainPartsOk(rules, cfg, DefaultInput(), names);
    chain := Fold(ResolverOf(cfg), DefaultInput(), names).value;
  }

  lemma ThreeLayers<V>(rules: Rules, a: LaunchInput<V>, b: LaunchInput<V>, c: LaunchInput<V>)
    requires PartsOk(rules, a) && PartsOk(rules, b) && PartsOk(rules, c)
    ensures Overlay(Combined(a, b), c) == Some(Combined(Combined(a, b), c))
    ensures Combined(Combined(a, b), c) == Combined(a, Combined(b, c)) && PartsOk(rules, Combined(Combined(a, b), c))
  {
    CombinedPartsOk(rules, a, b);
    CombinedPartsOk(rules, Combined(a, b), c);
    CombinedAssociative(a, b, c);
  }

  /**
   With checked inputs the layers of a launch are found exactly if the templates it uses exist: no
   overlay fails, and defaults, template chain and launch may be combined in either order. The
   chain is the overlay of the used templates, flattened by `f`, on the empty input.
   */
  lemma LayersOfCheckedLaunch<V(!new)>(rules: Rules, cfg: LaunchConfig<V>, launch: LaunchInput<V>)
    returns (f: map<string, seq<string>>, chain: LaunchInput<V>)
    requires Checked(rules, cfg) && PartiallyValid(rules, launch)
    ensures Layered(cfg, launch).Some? <==> forall n :: n in launch.uses ==> n in cfg.templates
    ensures IsFlattening(References(ResolverOf(cfg)), f)
    ensures Layered(cfg, launch).Some? ==>
      && (forall n :: n in Splice(f, launch.uses) ==> n in cfg.templates)
      && Fold(ResolverOf(cfg), DefaultInput(), Splice(f, launch.uses)) == TemplateChains.Ok(chain)
      && Layered(cfg, launch) == Some(Combined(Combined(cfg.defaults, chain), launch))
      && Layered(cfg, launch) == Some(Combined(cfg.defaults, Combined(chain, launch)))
      && PartsOk(rules, Layered(cfg, launch).value)
  {
    var r := ResolverOf(cfg);
    CheckedResolver(rules, cfg);
    PartialIff(rules, launch);
    chain := DefaultInput();
    if forall n :: n in launch.uses ==> n in cfg.templates {
      f := ValidatedTemplatesResolve(r, cfg.defaults, launch.uses);
      chain := OneChain(rules, cfg, Splice(f, launch.uses));
      ThreeLayers(rules, cfg.defaults, chain, launch);
    } else {
      f := FlatteningOf(References(r));
      if ApplyAll(r, cfg.defaults, launch.uses, []).Ok? {
        AppliedTemplatesExist(r, cfg.defaults, launch.uses, []);
      }
    }
  }

  /** The checks that are left for the layers: target, command, the place of `{args}` and the variables. */
  ghost predicate LateChecksPass<V>(i: LaunchInput<V>, targets: set<string>) {
    i.command.Some? && TargetKnown(i, targets) && SentinelFits(Effective(targets), i) && ReferencesOk(i)
  }

  /**
   After the checks of the single inputs a launch resolves exactly if the templates it uses exist
   and, in the layers, there is a command and a known target, `{args}` stands where it may, and
   every variable that a template refers to is required or has a default. Nothing else can fail.
   */
  lemma CheckedLaunchResolvesIff<V(!new)>(
    rules: Rules, cfg: LaunchConfig<V>, launch: LaunchInput<V>, targets: set<string>)
    requires Checked(rules, cfg) && PartiallyValid(rules, launch)
    ensures Layered(cfg, launch).Some? <==> forall n :: n in launch.uses ==> n in cfg.templates
    ensures Resolves(rules, cfg, launch, targets) <==>
      Layered(cfg, launch).Some? && LateChecksPass(Settled(Layered(cfg, launch).value), targets)
  {
    var f, chain := LayersOfCheckedLaunch(rules, cfg, launch);
    if Layered(cfg, launch).Some? { EffectiveIff(rules, targets, Settled(Layered(cfg, launch).value)); }
  }

  /**
   In a launch that resolves, `{args}` stands in the command exactly if the layers allow arguments:
   silence refuses them.
   */
  lemma ArgumentsAsAllowed<V>(rules: Rules, cfg: LaunchConfig<V>, launch: LaunchInput<V>, targets: set<string>)
    requires Resolves(rules, cfg, launch, targets)
    ensures var i := Layered(cfg, launch).value; ARGS in i.command.value <==> i.allowArgs == Some(true)
  {
    SomePlace(Layered(cfg, launch).value.command.value);
  }

  /**
   From loading to running: in a configuration that was accepted, every template of every launch
   renders with the variables that were resolved, unless it names a built-in that is not bound.
   */
  lemma AcceptedLaunchRenders<V>(
    rules: Rules, cfg: LaunchConfig<V>, targets: set<string>, name: string, supplied: map<string, V>,
    coerce: (Variable<V>, V) -> Option<string>, resolved: map<string, string>, runtime: Vars, all: Vars)
    requires Accepted(rules, cfg, targets) && name in cfg.launches
    requires
      var i := Layered(cfg, cfg.launches[name]);
      i.Some? ==> forall n :: n in i.value.vars ==>
        Resolvable(i.value.vars, supplied, coerce, n) && ResolvedAt(i.value.vars, supplied, coerce, resolved, n)
    requires Combines(runtime, resolved, all)
    ensures Layered(cfg, cfg.launches[name]).Some?
    ensures forall s :: LaunchRenders(ShapeOf(Layered(cfg, cfg.launches[name]).value), s) ==>
      (Bound(s, all.Keys) <==> BuiltinsBound(rules, all.Keys, s))
  {
    assert LaunchAccepted(rules, cfg, targets, name);
    var i := Settled(Layered(cfg, cfg.launches[name]).value);
    ValidationImpliesRendering(rules, targets, ShapeOf(i), supplied, coerce, resolved, runtime, all);
    forall s | LaunchRenders(ShapeOf(Layered(cfg, cfg.launches[name]).value), s) ensures LaunchRenders(ShapeOf(i), s) {}
  }
}
