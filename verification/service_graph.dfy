/** The dependency-cycle check on container-agent services and the startup it protects. */
module ServiceGraph {
  import opened Graphs
  import opened Services
  import opened Options
  import opened Sequences

  datatype Walk = Finished(visited: set<string>) | Cyclic(cycle: seq<string>)

  /**
   One call of the recursive walk. The walk's `visiting` set is the set of names on `stack`;
   a name that is on the stack is never finished by a deeper call.
   */
  function Visit(g: Graph<string>, n: string, visited: set<string>, stack: seq<string>): (r: Walk)
    requires n in Nodes(g)
    ensures r.Finished? ==> visited <= r.visited && n in r.visited && (r.visited - visited) !! Elems(stack)
    decreases Nodes(g) - visited - Elems(stack), 0
  {
    if n in visited then Finished(visited)
    else if n in stack then Cyclic(stack[IndexOf(stack, n)..] + [n])
    else
      assert Elems(stack + [n]) == Elems(stack) + {n};
      match VisitAll(g, Succ(g, n), visited, stack + [n])
      case Cyclic(c) => Cyclic(c)
      case Finished(v) => Finished(v + {n})
  }

  function VisitAll(g: Graph<string>, work: seq<string>, visited: set<string>, stack: seq<string>): (r: Walk)
    requires forall n :: n in work ==> n in Nodes(g)
    ensures r.Finished? ==>
      visited <= r.visited && (forall n :: n in work ==> n in r.visited) && (r.visited - visited) !! Elems(stack)
    decreases Nodes(g) - visited - Elems(stack), 1 + |work|
  {
    if work == [] then Finished(visited)
    else
      match Visit(g, work[0], visited, stack)
      case Cyclic(c) => Cyclic(c)
      case Finished(v) =>
        assert Nodes(g) - v - Elems(stack) <= Nodes(g) - visited - Elems(stack);
        VisitAll(g, work[1..], v, stack)
  }

  /** No edge leaves the finished set and no cycle starts in it. */
  ghost predicate Settled(g: Graph<string>, visited: set<string>) {
    Closed(g, visited) && forall c :: IsCycle(g, c) ==> c[0] !in visited
  }

  lemma {:induction false} VisitSound(g: Graph<string>, n: string, visited: set<string>, stack: seq<string>)
    requires n in Nodes(g) && Settled(g, visited) && IsPath(g, stack + [n])
    ensures var r := Visit(g, n, visited, stack);
      if r.Finished? then Settled(g, r.visited) else IsCycle(g, r.cycle)
    decreases Nodes(g) - visited - Elems(stack), 0
  {
    if n in visited {
    } else if n in stack {
      var k := IndexOf(stack, n);
      PathSuffix(g, stack + [n], k);
      assert (stack + [n])[k..] == stack[k..] + [n];
    } else {
      assert Elems(stack + [n]) == Elems(stack) + {n};
      forall m | m in Succ(g, n) ensures IsPath(g, stack + [n] + [m]) { PathSnoc(g, stack + [n], m); }
      VisitAllSound(g, Succ(g, n), visited, stack + [n]);
      var r := VisitAll(g, Succ(g, n), visited, stack + [n]);
      if r.Finished? {
        assert n in Elems(stack + [n]);
        AddFinishedNode(g, r.visited, n);
      }
    }
  }

  lemma {:induction false} VisitAllSound(g: Graph<string>, work: seq<string>, visited: set<string>, stack: seq<string>)
    requires forall n :: n in work ==> n in Nodes(g) && IsPath(g, stack + [n])
    requires Settled(g, visited)
    ensures var r := VisitAll(g, work, visited, stack);
      if r.Finished? then Settled(g, r.visited) else IsCycle(g, r.cycle)
    decreases Nodes(g) - visited - Elems(stack), 1 + |work|
  {
    if work != [] {
      VisitSound(g, work[0], visited, stack);
      var r := Visit(g, work[0], visited, stack);
      if r.Finished? {
        assert Nodes(g) - r.visited - Elems(stack) <= Nodes(g) - visited - Elems(stack);
        VisitAllSound(g, work[1..], r.visited, stack);
      }
    }
  }

  lemma SettledEverywhere(g: Graph<string>, visited: set<string>)
    requires Settled(g, visited) && g.Keys <= visited
    ensures Acyclic(g)
  {
    forall c | IsPath(g, c) && |c| >= 2 ensures c[0] in visited {
      assert Step(g, c, 0);
    }
  }

  /** The configuration check's recursive walk, with the sets and the stack it updates in place. */
  method VisitServiceDependency(
    n: string, g: Graph<string>, visiting0: set<string>, visited0: set<string>, stack0: seq<string>)
    returns (r: Option<seq<string>>, visiting: set<string>, visited: set<string>, stack: seq<string>)
    requires n in Nodes(g) && visiting0 == Elems(stack0)
    ensures r == if Visit(g, n, visited0, stack0).Cyclic? then Some(Visit(g, n, visited0, stack0).cycle) else None
    ensures r.None? ==>
      visited == Visit(g, n, visited0, stack0).visited && stack == stack0 && visiting == Elems(stack)
    decreases Nodes(g) - visited0 - Elems(stack0)
  {
    visiting, visited, stack := visiting0, visited0, stack0;
    if n in visited { return None, visiting, visited, stack; }
    if n in visiting {
      var start := IndexOf(stack, n);
      return Some(stack[start..] + [n]), visiting, visited, stack;
    }
    visiting := visiting + {n};
    stack := stack + [n];
    assert Elems(stack) == Elems(stack0) + {n};
    var deps := Succ(g, n);
    assert forall d :: d in deps ==> d in Nodes(g);
    for i := 0 to |deps|
      invariant stack == stack0 + [n] && visiting == Elems(stack) && visited0 <= visited
      invariant VisitAll(g, deps, visited0, stack) == VisitAll(g, deps[i..], visited, stack)
    {
      assert Nodes(g) - visited - Elems(stack) < Nodes(g) - visited0 - Elems(stack0) by {
        assert n in Nodes(g) - visited0 - Elems(stack0);
      }
      r, visiting, visited, stack := VisitServiceDependency(deps[i], g, visiting, visited, stack);
      if r.Some? { return; }
      assert deps[i..][1..] == deps[i + 1..];
    }
    stack := stack[..|stack| - 1];
    visiting := visiting - {n};
    visited := visited + {n};
    r := None;
  }

  /** The whole check: `None` when the services are accepted, the reported cycle otherwise. */
  method ValidateServiceDependencyGraph(services: seq<Service>) returns (r: Option<seq<string>>)
    ensures r.None? <==> Acyclic(ByName(services))
    ensures r.Some? ==> IsCycle(ByName(services), r.value)
  {
    var g := ByName(services);
    var roots := NamesOf(services);
    var visiting, visited, stack := {}, {}, [];
    for i := 0 to |roots|
      invariant stack == [] && visiting == Elems(stack)
      invariant Settled(g, visited) && forall k :: 0 <= k < i ==> roots[k] in visited
    {
      assert IsPath(g, [] + [roots[i]]);
      assert services[i] in services && services[i].name == roots[i];
      VisitSound(g, roots[i], visited, stack);
      r, visiting, visited, stack := VisitServiceDependency(roots[i], g, visiting, visited, stack);
      if r.Some? { return; }
    }
    assert g.Keys <= visited by {
      forall k | k in g ensures k in visited {
        var i :| 0 <= i < |services| && services[i].name == k;
        assert roots[i] in visited;
      }
    }
    SettledEverywhere(g, visited);
    r := None;
  }

  datatype Verdict =
    | Valid
    | IllFormed(name: string)
    | Duplicate(name: string)
    | UnknownDependency(name: string, dependency: string)
    | DependencyCycle(cycle: seq<string>)

  /** The services before position `i` are well formed and have different names. */
  ghost predicate SoundBefore(services: seq<Service>, i: nat)
    requires i <= |services|
  {
    (forall k :: 0 <= k < i ==> services[k].wellFormed) && UniqueNames(services[..i])
  }

  ghost predicate IsFirstIllFormed(services: seq<Service>, i: nat) {
    i < |services| && SoundBefore(services, i) && !services[i].wellFormed
  }

  ghost predicate IsFirstRepeated(services: seq<Service>, i: nat) {
    i < |services| && SoundBefore(services, i) && services[i].wellFormed && services[i].name in NameSet(services[..i])
  }

  /** The service part of the configuration check, in its order: fields, names, dependencies, cycles. */
  method ValidateServices(services: seq<Service>) returns (v: Verdict)
    ensures v.Valid? <==> Validated(services)
    ensures v.IllFormed? ==> exists i: nat :: IsFirstIllFormed(services, i) && services[i].name == v.name
    ensures v.Duplicate? ==> exists i: nat :: IsFirstRepeated(services, i) && services[i].name == v.name
    ensures v.UnknownDependency? || v.DependencyCycle? ==>
      UniqueNames(services) && forall s :: s in services ==> s.wellFormed
    ensures v.UnknownDependency? ==>
      v.dependency !in NameSet(services) && exists s :: s in services && s.name == v.name && v.dependency in s.dependsOn
    ensures v.DependencyCycle? ==> IsCycle(ByName(services), v.cycle) && KnownDependencies(services)
  {
    var names: set<string> := {};
    for i := 0 to |services|
      invariant names == NameSet(services[..i])
      invariant forall k :: 0 <= k < i ==> services[k].wellFormed
      invariant forall j, k :: 0 <= j < k < i ==> services[j].name != services[k].name
    {
      var s := services[i];
      if !s.wellFormed { return IllFormed(s.name); }
      if s.name in names {
        var t :| t in services[..i] && t.name == s.name;
        var j :| 0 <= j < i && services[..i][j] == t;
        assert NamesOf(services)[j] == NamesOf(services)[i];
        return Duplicate(s.name);
      }
      assert services[..i + 1] == services[..i] + [s];
      names := names + {s.name};
    }
    assert services[..|services|] == services;
    for i := 0 to |services|
      invariant forall k, d :: 0 <= k < i && d in services[k].dependsOn ==> d in names
    {
      var s := services[i];
      for j := 0 to |s.dependsOn|
        invariant forall d :: d in s.dependsOn[..j] ==> d in names
      {
        if s.dependsOn[j] !in names { return UnknownDependency(s.name, s.dependsOn[j]); }
        assert s.dependsOn[..j + 1] == s.dependsOn[..j] + [s.dependsOn[j]];
      }
      assert s.dependsOn[..|s.dependsOn|] == s.dependsOn;
    }
    var r := ValidateServiceDependencyGraph(services);
    if r.Some? { return DependencyCycle(r.value); }
    v := Valid;
  }

  /** The dependencies whose health probe fails: what `wait_for_dependencies` waits on. */
  function Missing(deps: seq<string>, healthy: set<string>): (r: seq<string>)
    ensures forall d :: d in r <==> d in deps && d !in healthy
  {
    if deps == [] then []
    else (if deps[0] in healthy then [] else [deps[0]]) + Missing(deps[1..], healthy)
  }

  /**
   Startup cannot deadlock: whatever subset of a validated list is up and healthy, as long as
   some service is not, one of those has no missing dependency and may start.
   */
  lemma StartupProgress(services: seq<Service>, healthy: set<string>) returns (s: Service)
    requires Validated(services)
    requires exists t :: t in services && t.name !in healthy
    ensures s in services && s.name !in healthy && Missing(s.dependsOn, healthy) == []
  {
    var g := ByName(services);
    var t :| t in services && t.name !in healthy;
    assert t.name in NameSet(services) - healthy;
    var x := MinimalMember(g, NameSet(services) - healthy);
    s :| s in services && s.name == x;
    UniqueByName(services);
    assert Succ(g, x) == s.dependsOn;
    if Missing(s.dependsOn, healthy) != [] {
      assert Missing(s.dependsOn, healthy)[0] in Missing(s.dependsOn, healthy);
    }
  }
}
