/**
 Chains of templates that use other templates: the reference check run once per configuration,
 and the overlaying of a list of templates onto a base.
 */
module TemplateChains {
  import opened Graphs
  import opened Options
  import opened Sequences

  datatype Failure = UnknownTemplate(name: string) | TemplateCycle(cycle: seq<string>) | OverlayFailed(name: string)

  datatype Result<+T> = Ok(value: T) | Err(failure: Failure)

  /** What a template lists, and how it changes the settings below it, depend on its kind. */
  datatype Resolver<!Input> = Resolver(
    templates: map<string, Input>,
    dependencies: Input -> seq<string>,
    overlay: (Input, Input) -> Option<Input>)

  function References<Input>(r: Resolver<Input>): Graph<string> {
    map n | n in r.templates :: r.dependencies(r.templates[n])
  }

  /** The part of `stack` from the first `n` on, closed by `n` again. */
  function CycleAt(stack: seq<string>, n: string): (c: seq<string>)
    requires n in stack
    ensures |c| >= 2 && c[0] == n == c[|c| - 1]
    ensures exists k :: 0 <= k < |stack| && c == stack[k..] + [n]
  {
    stack[IndexOf(stack, n)..] + [n]
  }

  /** The problem with putting `name` on the stack, if there is one. */
  function Refusal(known: set<string>, name: string, stack: seq<string>): Option<Failure> {
    if name in stack then Some(TemplateCycle(CycleAt(stack, name)))
    else if name !in known then Some(UnknownTemplate(name))
    else None
  }

  function Check(g: Graph<string>, name: string, stack: seq<string>): Option<Failure>
    decreases g.Keys - Elems(stack), 0
  {
    var refusal := Refusal(g.Keys, name, stack);
    if refusal.Some? then refusal
    else
      assert Elems(stack + [name]) == Elems(stack) + {name};
      CheckAll(g, g[name], stack + [name])
  }

  function CheckAll(g: Graph<string>, work: seq<string>, stack: seq<string>): Option<Failure>
    decreases g.Keys - Elems(stack), 1 + |work|
  {
    if work == [] then None
    else
      var first := Check(g, work[0], stack);
      if first.Some? then first else CheckAll(g, work[1..], stack)
  }

  function Apply<Input>(r: Resolver<Input>, base: Input, name: string, stack: seq<string>): Result<Input>
    decreases r.templates.Keys - Elems(stack), 0
  {
    var refusal := Refusal(r.templates.Keys, name, stack);
    if refusal.Some? then Err(refusal.value)
    else
      assert Elems(stack + [name]) == Elems(stack) + {name};
      match ApplyAll(r, base, r.dependencies(r.templates[name]), stack + [name])
      case Err(e) => Err(e)
      case Ok(b) => ApplyOne(r, b, name)
  }

  function ApplyAll<Input>(r: Resolver<Input>, base: Input, work: seq<string>, stack: seq<string>): Result<Input>
    decreases r.templates.Keys - Elems(stack), 1 + |work|
  {
    if work == [] then Ok(base)
    else
      match Apply(r, base, work[0], stack)
      case Err(e) => Err(e)
      case Ok(b) => ApplyAll(r, b, work[1..], stack)
  }

  function ApplyOne<Input>(r: Resolver<Input>, base: Input, name: string): Result<Input>
    requires name in r.templates
  {
    match r.overlay(base, r.templates[name])
    case None => Err(OverlayFailed(name))
    case Some(v) => Ok(v)
  }

  // ---- The resolver's walks, on one shared stack ----

  method CheckTemplateReferences(g: Graph<string>, name: string, stack0: seq<string>)
    returns (problem: Option<Failure>, stack: seq<string>)
    ensures problem == Check(g, name, stack0)
    ensures problem.None? ==> stack == stack0
    decreases g.Keys - Elems(stack0)
  {
    stack := stack0;
    problem := Refusal(g.Keys, name, stack);
    if problem.Some? { return; }
    stack := stack + [name];
    assert Elems(stack) == Elems(stack0) + {name};
    var deps := g[name];
    for i := 0 to |deps|
      invariant stack == stack0 + [name]
      invariant CheckAll(g, deps, stack) == CheckAll(g, deps[i..], stack)
    {
      assert deps[i..][1..] == deps[i + 1..];
      problem, stack := CheckTemplateReferences(g, deps[i], stack);
      if problem.Some? { return; }
    }
    stack := stack[..|stack| - 1];
    problem := None;
  }

  /** Every template is checked, in the order in which the template map lists its names. */
  method ValidateReferences<Input>(r: Resolver<Input>, names: seq<string>) returns (problem: Option<Failure>)
    requires Elems(names) == r.templates.Keys
    ensures problem.None? <==> Sound(References(r))
    ensures problem.Some? ==> Genuine(References(r), problem.value)
  {
    var g := References(r);
    for i := 0 to |names|
      invariant forall n :: n in names[..i] ==> Check(g, n, []).None?
    {
      assert names[..i + 1] == names[..i] + [names[i]];
      var stack;
      problem, stack := CheckTemplateReferences(g, names[i], []);
      if problem.Some? {
        assert names[i] in Elems(names);
        CheckFindsFault(g, names[i], []);
        return;
      }
    }
    assert names[..|names|] == names;
    forall n | n in g ensures Check(g, n, []).None? { assert n in Elems(names); }
    AllCheckedIsSound(g);
    problem := None;
  }

  method ApplyTemplate<Input>(r: Resolver<Input>, base0: Input, name: string, stack0: seq<string>)
    returns (result: Result<Input>, stack: seq<string>)
    ensures result == Apply(r, base0, name, stack0)
    ensures result.Ok? ==> stack == stack0
    decreases r.templates.Keys - Elems(stack0)
  {
    stack := stack0;
    var refusal := Refusal(r.templates.Keys, name, stack);
    if refusal.Some? { return Err(refusal.value), stack; }
    stack := stack + [name];
    assert Elems(stack) == Elems(stack0) + {name};
    var base, deps := base0, r.dependencies(r.templates[name]);
    for i := 0 to |deps|
      invariant stack == stack0 + [name]
      invariant ApplyAll(r, base0, deps, stack) == ApplyAll(r, base, deps[i..], stack)
    {
      assert deps[i..][1..] == deps[i + 1..];
      result, stack := ApplyTemplate(r, base, deps[i], stack);
      if result.Err? { return; }
      base := result.value;
    }
    stack := stack[..|stack| - 1];
    result := ApplyOne(r, base, name);
  }

  method OverlayTemplates<Input>(
    r: Resolver<Input>, base0: Input, templates: seq<string>) returns (result: Result<Input>)
    ensures result == ApplyAll(r, base0, templates, [])
  {
    var base := base0;
    for i := 0 to |templates|
      invariant ApplyAll(r, base0, templates, []) == ApplyAll(r, base, templates[i..], [])
    {
      assert templates[i..][1..] == templates[i + 1..];
      var stack;
      result, stack := ApplyTemplate(r, base, templates[i], []);
      if result.Err? { return; }
      base := result.value;
    }
    result := Ok(base);
  }

  // ---- The check accepts exactly the closed acyclic graphs ----

  /** Every template that is used exists, and no template uses itself through others. */
  ghost predicate Sound(g: Graph<string>) {
    Closed(g, g.Keys) && Acyclic(g)
  }

  /** A reported problem is really there. */
  ghost predicate Genuine(g: Graph<string>, f: Failure) {
    match f
    case UnknownTemplate(n) => n !in g && exists m :: m in g && n in g[m]
    case TemplateCycle(c) => IsCycle(g, c)
    case OverlayFailed(_) => false
  }

  lemma {:induction false} CheckFindsFault(g: Graph<string>, name: string, stack: seq<string>)
    requires IsPath(g, stack + [name]) && (stack == [] ==> name in g)
    ensures Check(g, name, stack).Some? ==> Genuine(g, Check(g, name, stack).value)
    decreases g.Keys - Elems(stack), 0
  {
    if name in stack {
      var k :| 0 <= k < |stack| && CycleAt(stack, name) == stack[k..] + [name];
      PathSuffix(g, stack + [name], k);
      assert (stack + [name])[k..] == stack[k..] + [name];
    } else if name !in g {
      assert Step(g, stack + [name], |stack| - 1);
    } else {
      assert Elems(stack + [name]) == Elems(stack) + {name};
      forall d | d in g[name] ensures IsPath(g, stack + [name] + [d]) { PathSnoc(g, stack + [name], d); }
      CheckAllFindsFault(g, g[name], stack + [name]);
    }
  }

  lemma {:induction false} CheckAllFindsFault(g: Graph<string>, work: seq<string>, stack: seq<string>)
    requires stack != [] && forall d :: d in work ==> IsPath(g, stack + [d])
    ensures CheckAll(g, work, stack).Some? ==> Genuine(g, CheckAll(g, work, stack).value)
    decreases g.Keys - Elems(stack), 1 + |work|
  {
    if work != [] {
      CheckFindsFault(g, work[0], stack);
      CheckAllFindsFault(g, work[1..], stack);
    }
  }

  lemma {:induction false} CheckedAll(g: Graph<string>, work: seq<string>, stack: seq<string>, d: string)
    requires CheckAll(g, work, stack).None? && d in work
    ensures Check(g, d, stack).None?
  {
    if work[0] != d { CheckedAll(g, work[1..], stack, d); }
  }

  /** A successful check has walked every path that starts at the checked template. */
  lemma {:induction false} CheckWalksPath(g: Graph<string>, path: seq<string>, k: nat)
    requires IsPath(g, path) && Check(g, path[0], []).None? && k < |path|
    ensures Check(g, path[k], path[..k]).None?
  {
    if k == 0 {
      assert path[..0] == [];
    } else {
      CheckWalksPath(g, path, k - 1);
      assert Step(g, path, k - 1);
      assert path[..k] == path[..k - 1] + [path[k - 1]];
      CheckedAll(g, g[path[k - 1]], path[..k], path[k]);
    }
  }

  lemma AllCheckedIsSound(g: Graph<string>)
    requires forall n :: n in g ==> Check(g, n, []).None?
    ensures Sound(g)
  {
    forall c ensures !IsCycle(g, c) {
      if IsPath(g, c) && |c| >= 2 {
        assert Step(g, c, 0);
        CheckWalksPath(g, c, |c| - 1);
        assert c[0] in c[..|c| - 1];
      }
    }
    forall n, m | n in g && m in Succ(g, n) ensures m in g {
      assert Step(g, [n, m], 0);
      CheckWalksPath(g, [n, m], 1);
    }
  }

  // ---- What overlaying computes: a left fold over the flattened templates ----

  /** Overlaying the named templates one after the other. */
  function Fold<Input>(r: Resolver<Input>, base: Input, names: seq<string>): (result: Result<Input>)
    requires forall n :: n in names ==> n in r.templates
    ensures result.Err? ==> result.failure.OverlayFailed? && result.failure.name in names
  {
    if names == [] then Ok(base)
    else
      match ApplyOne(r, base, names[0])
      case Err(e) => Err(e)
      case Ok(b) => Fold(r, b, names[1..])
  }

  lemma {:induction false} FoldConcat<Input>(r: Resolver<Input>, base: Input, a: seq<string>, b: seq<string>)
    requires forall n :: n in a || n in b ==> n in r.templates
    ensures Fold(r, base, a + b) ==
      match Fold(r, base, a) case Err(e) => Err(e) case Ok(v) => Fold(r, v, b)
  {
    if a == [] {
      assert a + b == b;
    } else {
      assert (a + b)[1..] == a[1..] + b;
      assert forall n :: n in a[1..] ==> n in a;
      var first := ApplyOne(r, base, a[0]);
      if first.Ok? { FoldConcat(r, first.value, a[1..], b); }
    }
  }

  /** The given templates, each replaced by its flattening. */
  function Splice(f: map<string, seq<string>>, names: seq<string>): seq<string>
    requires forall n :: n in names ==> n in f
  {
    if names == [] then [] else f[names[0]] + Splice(f, names[1..])
  }

  /** `f` lists for each template what it uses, depth first, and then the template itself; repeats stay. */
  ghost predicate IsFlattening(g: Graph<string>, f: map<string, seq<string>>) {
    && f.Keys == g.Keys && Closed(g, g.Keys)
    && forall n :: n in g ==> FlatAt(g, f, n)
  }

  ghost predicate FlatAt(g: Graph<string>, f: map<string, seq<string>>, n: string)
    requires n in g && f.Keys == g.Keys && Closed(g, g.Keys)
  {
    assert forall d :: d in g[n] ==> d in Succ(g, n);
    f[n] == Splice(f, g[n]) + [n]
  }

  lemma {:induction false} SpliceHolds(f: map<string, seq<string>>, names: seq<string>, d: string)
    requires (forall n :: n in names ==> n in f) && d in names
    ensures |f[d]| <= |Splice(f, names)|
  {
    if names[0] != d { SpliceHolds(f, names[1..], d); }
  }

  /** A template is listed more briefly than those that use it, so it is never on their stack. */
  lemma Shorter(g: Graph<string>, f: map<string, seq<string>>, n: string, d: string)
    requires IsFlattening(g, f) && n in g && d in g[n]
    ensures d in g && |f[d]| < |f[n]|
  {
    assert d in Succ(g, n) && FlatAt(g, f, n);
    SpliceHolds(f, g[n], d);
  }

  lemma {:induction false} SpliceNames(g: Graph<string>, f: map<string, seq<string>>, names: seq<string>)
    requires IsFlattening(g, f) && forall n :: n in names ==> n in g
    requires forall n, x :: n in names && x in f[n] ==> x in g
    ensures forall x :: x in Splice(f, names) ==> x in g
  {
    if names != [] {
      assert names[0] in names && forall n :: n in names[1..] ==> n in names;
      SpliceNames(g, f, names[1..]);
    }
  }

  lemma {:induction false} FlatNames(g: Graph<string>, f: map<string, seq<string>>, n: string)
    requires IsFlattening(g, f) && n in g
    ensures forall x :: x in f[n] ==> x in g
    decreases |f[n]|
  {
    assert FlatAt(g, f, n);
    forall d | d in g[n] ensures d in g && forall x :: x in f[d] ==> x in g {
      Shorter(g, f, n, d);
      FlatNames(g, f, d);
    }
    SpliceNames(g, f, g[n]);
  }

  /** Nothing on `stack` is listed as briefly as `n`. */
  ghost predicate Above(f: map<string, seq<string>>, stack: seq<string>, n: string)
    requires n in f
  {
    forall s :: s in stack ==> s in f && |f[n]| < |f[s]|
  }

  lemma {:induction false} ApplyIsFold<Input>(
    r: Resolver<Input>, f: map<string, seq<string>>, base: Input, name: string, stack: seq<string>)
    requires IsFlattening(References(r), f) && name in f && Above(f, stack, name)
    ensures forall x :: x in f[name] ==> x in r.templates
    ensures Apply(r, base, name, stack) == Fold(r, base, f[name])
    decreases r.templates.Keys - Elems(stack), 0
  {
    var g := References(r);
    FlatNames(g, f, name);
    assert FlatAt(g, f, name);
    assert Elems(stack + [name]) == Elems(stack) + {name};
    forall d | d in g[name] ensures d in f && Above(f, stack + [name], d) { Shorter(g, f, name, d); }
    ApplyAllIsFold(r, f, base, g[name], stack + [name]);
    FoldConcat(r, base, Splice(f, g[name]), [name]);
  }

  lemma {:induction false} ApplyAllIsFold<Input>(
    r: Resolver<Input>, f: map<string, seq<string>>, base: Input, work: seq<string>, stack: seq<string>)
    requires IsFlattening(References(r), f) && forall n :: n in work ==> n in f && Above(f, stack, n)
    ensures forall x :: x in Splice(f, work) ==> x in r.templates
    ensures ApplyAll(r, base, work, stack) == Fold(r, base, Splice(f, work))
    decreases r.templates.Keys - Elems(stack), 1 + |work|
  {
    if work != [] {
      assert work[0] in work && forall n :: n in work[1..] ==> n in work;
      ApplyIsFold(r, f, base, work[0], stack);
      var first := Apply(r, base, work[0], stack);
      ApplyAllIsFold(r, f, if first.Ok? then first.value else base, work[1..], stack);
      FoldConcat(r, base, f[work[0]], Splice(f, work[1..]));
    }
  }

  // ---- A checked graph has exactly one flattening ----

  ghost function Flatten(g: Graph<string>, name: string, stack: seq<string>): seq<string>
    decreases g.Keys - Elems(stack), 0
  {
    if name in stack || name !in g then []
    else
      assert Elems(stack + [name]) == Elems(stack) + {name};
      FlattenAll(g, g[name], stack + [name]) + [name]
  }

  ghost function FlattenAll(g: Graph<string>, work: seq<string>, stack: seq<string>): seq<string>
    decreases g.Keys - Elems(stack), 1 + |work|
  {
    if work == [] then [] else Flatten(g, work[0], stack) + FlattenAll(g, work[1..], stack)
  }

  lemma {:induction false} StackIrrelevant(g: Graph<string>, name: string, a: seq<string>, b: seq<string>)
    requires Sound(g) && IsPath(g, a + [name]) && IsPath(g, b + [name])
    ensures Flatten(g, name, a) == Flatten(g, name, b)
    decreases g.Keys - Elems(a), 0
  {
    AcyclicPathDistinct(g, a + [name]);
    AcyclicPathDistinct(g, b + [name]);
    NotOnStack(a, name);
    NotOnStack(b, name);
    if name in g {
      assert Elems(a + [name]) == Elems(a) + {name};
      forall d | d in g[name] ensures IsPath(g, a + [name] + [d]) && IsPath(g, b + [name] + [d]) {
        PathSnoc(g, a + [name], d);
        PathSnoc(g, b + [name], d);
      }
      StackIrrelevantAll(g, g[name], a + [name], b + [name]);
    }
  }

  lemma NotOnStack(stack: seq<string>, n: string)
    requires Distinct(stack + [n])
    ensures n !in stack
  {
    forall i | 0 <= i < |stack| ensures stack[i] != n {
      assert (stack + [n])[i] != (stack + [n])[|stack|];
    }
  }

  lemma {:induction false} StackIrrelevantAll(g: Graph<string>, work: seq<string>, a: seq<string>, b: seq<string>)
    requires Sound(g) && forall d :: d in work ==> IsPath(g, a + [d]) && IsPath(g, b + [d])
    ensures FlattenAll(g, work, a) == FlattenAll(g, work, b)
    decreases g.Keys - Elems(a), 1 + |work|
  {
    if work != [] {
      StackIrrelevant(g, work[0], a, b);
      StackIrrelevantAll(g, work[1..], a, b);
    }
  }

  lemma {:induction false} FlattenAllIsSplice(
    g: Graph<string>, f: map<string, seq<string>>, work: seq<string>, stack: seq<string>)
    requires Sound(g) && f.Keys == g.Keys && forall n :: n in g ==> f[n] == Flatten(g, n, [])
    requires forall d :: d in work ==> d in g && IsPath(g, stack + [d])
    ensures FlattenAll(g, work, stack) == Splice(f, work)
  {
    if work != [] {
      assert work[0] in work && forall n :: n in work[1..] ==> n in work;
      assert [] + [work[0]] == [work[0]];
      StackIrrelevant(g, work[0], stack, []);
      FlattenAllIsSplice(g, f, work[1..], stack);
    }
  }

  lemma FlatteningOf(g: Graph<string>) returns (f: map<string, seq<string>>)
    requires Sound(g)
    ensures IsFlattening(g, f)
  {
    f := map n | n in g :: Flatten(g, n, []);
    forall n | n in g ensures FlatAt(g, f, n) {
      forall d | d in g[n] ensures d in g && IsPath(g, [n] + [d]) {
        assert d in Succ(g, n) && Step(g, [n] + [d], 0);
      }
      assert [] + [n] == [n];
      FlattenAllIsSplice(g, f, g[n], [n]);
    }
  }

  /**
   Once the reference check has accepted the templates, overlaying any of them can fail only
   in an overlay, and gives the left fold over the flattening of the list.
   */
  lemma ValidatedTemplatesResolve<Input>(r: Resolver<Input>, base: Input, templates: seq<string>)
    returns (f: map<string, seq<string>>)
    requires Sound(References(r)) && forall t :: t in templates ==> t in r.templates
    ensures IsFlattening(References(r), f)
    ensures forall x :: x in Splice(f, templates) ==> x in r.templates
    ensures ApplyAll(r, base, templates, []) == Fold(r, base, Splice(f, templates))
  {
    f := FlatteningOf(References(r));
    ApplyAllIsFold(r, f, base, templates, []);
  }

  lemma {:induction false} FlatteningUnique(
    g: Graph<string>, f: map<string, seq<string>>, h: map<string, seq<string>>, n: string)
    requires IsFlattening(g, f) && IsFlattening(g, h) && n in g
    ensures f[n] == h[n]
    decreases |f[n]|
  {
    assert FlatAt(g, f, n) && FlatAt(g, h, n);
    forall d | d in g[n] ensures d in g && f[d] == h[d] {
      Shorter(g, f, n, d);
      FlatteningUnique(g, f, h, d);
    }
    SpliceAgrees(f, h, g[n]);
  }

  lemma {:induction false} SpliceAgrees(f: map<string, seq<string>>, h: map<string, seq<string>>, names: seq<string>)
    requires forall n :: n in names ==> n in f && n in h && f[n] == h[n]
    ensures Splice(f, names) == Splice(h, names)
  {
    if names != [] {
      assert names[0] in names && forall n :: n in names[1..] ==> n in names;
      SpliceAgrees(f, h, names[1..]);
    }
  }

  /** Each entry of `s` is preceded by everything it uses. */
  ghost predicate DependenciesFirst(g: Graph<string>, s: seq<string>) {
    forall i, d :: 0 <= i < |s| && d in Succ(g, s[i]) ==> d in s[..i]
  }

  lemma DependenciesFirstConcat(g: Graph<string>, a: seq<string>, b: seq<string>)
    requires DependenciesFirst(g, a) && DependenciesFirst(g, b)
    ensures DependenciesFirst(g, a + b)
  {
    forall i, d | 0 <= i < |a + b| && d in Succ(g, (a + b)[i]) ensures d in (a + b)[..i] {
      if i < |a| {
        assert d in a[..i] && (a + b)[..i] == a[..i];
      } else {
        assert d in b[..i - |a|] && (a + b)[..i] == a + b[..i - |a|];
      }
    }
  }

  /** Whatever a template uses, directly or through others, is overlaid before it. */
  lemma {:induction false} FlatteningOrder(g: Graph<string>, f: map<string, seq<string>>, n: string)
    requires IsFlattening(g, f) && n in g
    ensures DependenciesFirst(g, f[n]) && n in f[n]
    decreases |f[n]|, 1
  {
    assert FlatAt(g, f, n);
    forall d | d in g[n] ensures d in g && |f[d]| < |f[n]| { Shorter(g, f, n, d); }
    SpliceOrder(g, f, g[n], |f[n]|);
    assert f[n][..|f[n]| - 1] == Splice(f, g[n]);
    forall i, d | 0 <= i < |f[n]| && d in Succ(g, f[n][i]) ensures d in f[n][..i] {
      if i < |f[n]| - 1 {
        assert d in Splice(f, g[n])[..i] && f[n][..i] == Splice(f, g[n])[..i];
      }
    }
  }

  lemma {:induction false} SpliceOrder(g: Graph<string>, f: map<string, seq<string>>, names: seq<string>, bound: nat)
    requires IsFlattening(g, f) && forall n :: n in names ==> n in g && |f[n]| < bound
    ensures DependenciesFirst(g, Splice(f, names)) && forall n :: n in names ==> n in Splice(f, names)
    decreases bound, 0, |names|
  {
    if names != [] {
      assert names[0] in names && forall n :: n in names[1..] ==> n in names;
      FlatteningOrder(g, f, names[0]);
      SpliceOrder(g, f, names[1..], bound);
      DependenciesFirstConcat(g, f[names[0]], Splice(f, names[1..]));
    }
  }

  // ---- The check predicts the outcome for each template, valid configuration or not ----

  /** Resolving meets exactly the problem that checking meets, unless an overlay fails first. */
  lemma {:induction false} CheckPredictsApply<Input>(r: Resolver<Input>, base: Input, name: string, stack: seq<string>)
    ensures var problem, result := Check(References(r), name, stack), Apply(r, base, name, stack);
      (result.Err? && result.failure.OverlayFailed?)
      || (if problem.Some? then result == Err(problem.value) else result.Ok?)
    decreases r.templates.Keys - Elems(stack), 0
  {
    if name !in stack && name in r.templates {
      assert Elems(stack + [name]) == Elems(stack) + {name};
      CheckPredictsApplyAll(r, base, References(r)[name], stack + [name]);
    }
  }

  lemma {:induction false} CheckPredictsApplyAll<Input>(
    r: Resolver<Input>, base: Input, work: seq<string>, stack: seq<string>)
    ensures var problem, result := CheckAll(References(r), work, stack), ApplyAll(r, base, work, stack);
      (result.Err? && result.failure.OverlayFailed?)
      || (if problem.Some? then result == Err(problem.value) else result.Ok?)
    decreases r.templates.Keys - Elems(stack), 1 + |work|
  {
    if work != [] {
      CheckPredictsApply(r, base, work[0], stack);
      var first := Apply(r, base, work[0], stack);
      if first.Ok? { CheckPredictsApplyAll(r, first.value, work[1..], stack); }
    }
  }
}
