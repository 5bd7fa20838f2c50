/** The order in which services are stopped, and the forced-exit delay that must outlast it. */
module StopOrder {
  import opened Graphs
  import opened Services
  import opened Options
  import opened Sequences

  datatype Walk = Walk(visited: set<string>, ordered: seq<Service>)

  /** Names of the services that list `n` among their dependencies, in configuration order. */
  function Dependents(services: seq<Service>, n: string): (r: seq<string>)
    ensures forall d :: d in r <==> exists s :: s in services && s.name == d && n in s.dependsOn
  {
    if services == [] then []
    else
      assert forall s :: s in services <==> s == services[0] || s in services[1..];
      (if n in services[0].dependsOn then [services[0].name] else []) + Dependents(services[1..], n)
  }

  /** The first configured service of a name. */
  function Lookup(services: seq<Service>, n: string): (s: Service)
    requires n in NameSet(services)
    ensures s in services && s.name == n
  {
    if services[0].name == n then services[0] else Lookup(services[1..], n)
  }

  function Visit(services: seq<Service>, n: string, w: Walk): (r: Walk)
    requires n in NameSet(services)
    ensures w.visited <= r.visited && n in r.visited
    decreases NameSet(services) - w.visited, 0
  {
    if n in w.visited then w
    else
      var inner := VisitAll(services, Dependents(services, n), w.(visited := w.visited + {n}));
      inner.(ordered := inner.ordered + [Lookup(services, n)])
  }

  function VisitAll(services: seq<Service>, work: seq<string>, w: Walk): (r: Walk)
    requires forall n :: n in work ==> n in NameSet(services)
    ensures w.visited <= r.visited && forall n :: n in work ==> n in r.visited
    decreases NameSet(services) - w.visited, 1 + |work|
  {
    if work == [] then w
    else
      var w1 := Visit(services, work[0], w);
      assert NameSet(services) - w1.visited <= NameSet(services) - w.visited;
      VisitAll(services, work[1..], w1)
  }

  function Order(services: seq<Service>): seq<Service> {
    assert forall n :: n in NamesOf(services) ==> n in NameSet(services);
    VisitAll(services, NamesOf(services), Walk({}, [])).ordered
  }

  /** The stop order's recursive helper, updating the visited set and the output list. */
  method VisitInPlace(n: string, services: seq<Service>, visited0: set<string>, ordered0: seq<Service>)
    returns (visited: set<string>, ordered: seq<Service>)
    requires n in NameSet(services)
    ensures Walk(visited, ordered) == Visit(services, n, Walk(visited0, ordered0))
    decreases NameSet(services) - visited0
  {
    visited, ordered := visited0, ordered0;
    if n in visited { return; }
    visited := visited + {n};
    ghost var start := Walk(visited, ordered);
    var dependents := Dependents(services, n);
    assert forall d :: d in dependents ==> d in NameSet(services);
    for i := 0 to |dependents|
      invariant visited0 + {n} <= visited
      invariant VisitAll(services, dependents, start) == VisitAll(services, dependents[i..], Walk(visited, ordered))
    {
      assert NameSet(services) - visited < NameSet(services) - visited0 by {
        assert n in NameSet(services) - visited0;
      }
      visited, ordered := VisitInPlace(dependents[i], services, visited, ordered);
      assert dependents[i..][1..] == dependents[i + 1..];
    }
    ordered := ordered + [Lookup(services, n)];
  }

  method ServiceStopOrder(services: seq<Service>) returns (ordered: seq<Service>)
    ensures ordered == Order(services)
  {
    var visited: set<string> := {};
    ordered := [];
    var roots := NamesOf(services);
    for i := 0 to |roots|
      invariant forall n :: n in roots ==> n in NameSet(services)
      invariant VisitAll(services, roots, Walk({}, [])) == VisitAll(services, roots[i..], Walk(visited, ordered))
    {
      visited, ordered := VisitInPlace(roots[i], services, visited, ordered);
      assert roots[i..][1..] == roots[i + 1..];
    }
  }

  // ---- Every configured name exactly once ----

  /** Entered but not yet emitted: the names of the calls in progress. */
  function Open(w: Walk): set<string> {
    w.visited - NameSet(w.ordered)
  }

  ghost predicate Sound(services: seq<Service>, w: Walk) {
    && Distinct(NamesOf(w.ordered))
    && NameSet(w.ordered) <= w.visited <= NameSet(services)
    && forall s :: s in w.ordered ==> s == Lookup(services, s.name)
  }

  lemma NamesOfAppend(a: seq<Service>, s: Service)
    ensures NamesOf(a + [s]) == NamesOf(a) + [s.name]
    ensures NameSet(a + [s]) == NameSet(a) + {s.name}
  {
  }

  lemma {:induction false} VisitSound(services: seq<Service>, n: string, w: Walk)
    requires n in NameSet(services) && Sound(services, w)
    ensures var r := Visit(services, n, w); Sound(services, r) && Open(r) == Open(w)
    decreases NameSet(services) - w.visited, 0
  {
    if n !in w.visited {
      var w1 := w.(visited := w.visited + {n});
      VisitAllSound(services, Dependents(services, n), w1);
      var inner := VisitAll(services, Dependents(services, n), w1);
      NamesOfAppend(inner.ordered, Lookup(services, n));
      assert Open(inner) == Open(w1) == Open(w) + {n};
      assert n in Open(inner);
      forall i | 0 <= i < |inner.ordered| ensures NamesOf(inner.ordered)[i] != n {
        assert inner.ordered[i] in inner.ordered;
      }
    }
  }

  lemma {:induction false} VisitAllSound(services: seq<Service>, work: seq<string>, w: Walk)
    requires (forall n :: n in work ==> n in NameSet(services)) && Sound(services, w)
    ensures var r := VisitAll(services, work, w); Sound(services, r) && Open(r) == Open(w)
    decreases NameSet(services) - w.visited, 1 + |work|
  {
    if work != [] {
      VisitSound(services, work[0], w);
      var w1 := Visit(services, work[0], w);
      assert NameSet(services) - w1.visited <= NameSet(services) - w.visited;
      VisitAllSound(services, work[1..], w1);
    }
  }

  /** For any list, cyclic or with repeated names, each configured name is emitted exactly once. */
  lemma OrderEmitsEachNameOnce(services: seq<Service>)
    ensures Distinct(NamesOf(Order(services)))
    ensures NameSet(Order(services)) == NameSet(services)
    ensures forall s :: s in Order(services) ==> s == Lookup(services, s.name)
  {
    var start := Walk({}, []);
    assert forall n :: n in NamesOf(services) ==> n in NameSet(services);
    VisitAllSound(services, NamesOf(services), start);
    var r := VisitAll(services, NamesOf(services), start);
    forall n | n in NameSet(services) ensures n in r.visited {
      var i :| 0 <= i < |services| && services[i].name == n;
      assert NamesOf(services)[i] == n;
    }
    assert Open(r) == Open(start) == {};
    forall n | n in r.visited ensures n in NameSet(r.ordered) { assert n !in Open(r); }
    assert r.ordered == Order(services);
  }

  lemma DistinctMultiset<T>(a: seq<T>)
    requires Distinct(a)
    ensures forall x :: multiset(a)[x] == if x in a then 1 else 0
  {
    if a != [] {
      var b := a[..|a| - 1];
      assert a == b + [a[|a| - 1]];
      DistinctMultiset(b);
    }
  }

  /** With unique names the order is a permutation of the services. */
  lemma OrderIsPermutation(services: seq<Service>)
    requires UniqueNames(services)
    ensures multiset(Order(services)) == multiset(services)
  {
    var o := Order(services);
    OrderEmitsEachNameOnce(services);
    DistinctMultiset(services);
    DistinctMultiset(o);
    forall s | s in services ensures s in o {
      assert s.name in NameSet(o);
      var t :| t in o && t.name == s.name;
      var i :| 0 <= i < |services| && services[i] == s;
      var j :| 0 <= j < |services| && services[j] == t;
      assert NamesOf(services)[i] == NamesOf(services)[j];
    }
  }

  // ---- Dependents first ----

  /** Edges run from a service to the services that depend on it. */
  function DependentsGraph(services: seq<Service>): (g: Graph<string>)
    ensures forall n :: n in NameSet(services) ==> Succ(g, n) == Dependents(services, n)
  {
    map n | n in NameSet(services) :: Dependents(services, n)
  }

  /** Whatever is emitted comes after everything that depends on it. */
  ghost predicate DependentsFirst(services: seq<Service>, o: seq<Service>) {
    forall i, d :: 0 <= i < |o| && d in Dependents(services, o[i].name) ==> d in NameSet(o[..i])
  }

  lemma {:induction false} VisitDependentsFirst(services: seq<Service>, n: string, w: Walk)
    requires n in NameSet(services) && Sound(services, w) && DependentsFirst(services, w.ordered)
    requires Acyclic(DependentsGraph(services))
    requires forall x :: x in Open(w) ==> Reaches(DependentsGraph(services), x, n)
    ensures DependentsFirst(services, Visit(services, n, w).ordered)
    decreases NameSet(services) - w.visited, 0
  {
    if n !in w.visited {
      var g := DependentsGraph(services);
      var deps := Dependents(services, n);
      var w1 := w.(visited := w.visited + {n});
      forall d, x | d in deps && x in Open(w1) ensures Reaches(g, x, d) {
        if x == n { ReachesEdge(g, n, d); } else { ReachesSnoc(g, x, n, d); }
      }
      VisitAllDependentsFirst(services, deps, w1);
      VisitAllSound(services, deps, w1);
      var inner := VisitAll(services, deps, w1);
      forall d | d in deps ensures d in NameSet(inner.ordered) {
        if d in Open(w1) { ReachesSelfIsCycle(g, d); }
      }
      var last := Lookup(services, n);
      var o := inner.ordered + [last];
      forall i, d | 0 <= i < |o| && d in Dependents(services, o[i].name) ensures d in NameSet(o[..i]) {
        assert o[..i] == inner.ordered[..i];
        assert inner.ordered[..|inner.ordered|] == inner.ordered;
      }
    }
  }

  lemma {:induction false} VisitAllDependentsFirst(services: seq<Service>, work: seq<string>, w: Walk)
    requires forall n :: n in work ==> n in NameSet(services)
    requires Sound(services, w) && DependentsFirst(services, w.ordered) && Acyclic(DependentsGraph(services))
    requires forall n, x :: n in work && x in Open(w) ==> Reaches(DependentsGraph(services), x, n)
    ensures DependentsFirst(services, VisitAll(services, work, w).ordered)
    decreases NameSet(services) - w.visited, 1 + |work|
  {
    if work != [] {
      VisitDependentsFirst(services, work[0], w);
      VisitSound(services, work[0], w);
      var w1 := Visit(services, work[0], w);
      assert NameSet(services) - w1.visited <= NameSet(services) - w.visited;
      VisitAllDependentsFirst(services, work[1..], w1);
    }
  }

  lemma OrderDependentsFirst(services: seq<Service>)
    requires UniqueNames(services) && Acyclic(ByName(services))
    ensures DependentsFirst(services, Order(services))
  {
    UniqueByName(services);
    ReverseAcyclic(DependentsGraph(services), ByName(services));
    assert forall n :: n in NamesOf(services) ==> n in NameSet(services);
    VisitAllDependentsFirst(services, NamesOf(services), Walk({}, []));
  }

  /** In the stop order of a validated list every dependent precedes each service it depends on. */
  lemma StopsDependentsFirst(services: seq<Service>, i: nat, j: nat)
    requires Validated(services)
    requires i < |Order(services)| && j < |Order(services)|
    requires Order(services)[j].name in Order(services)[i].dependsOn
    ensures i < j
  {
    var o := Order(services);
    OrderDependentsFirst(services);
    OrderEmitsEachNameOnce(services);
    assert o[i] in o;
    assert o[i].name in Dependents(services, o[j].name);
    assert o[i].name in NameSet(o[..j]);
    var s :| s in o[..j] && s.name == o[i].name;
    var k :| 0 <= k < j && o[k] == s;
    assert NamesOf(o)[k] == NamesOf(o)[i];
  }

  /** Every dependent already stands before what it depends on. */
  ghost predicate InStopOrder(services: seq<Service>) {
    forall i, j :: 0 <= i < |services| && 0 <= j < |services| && services[j].name in services[i].dependsOn ==> i < j
  }

  lemma {:induction false} NothingToVisit(services: seq<Service>, work: seq<string>, w: Walk)
    requires forall n :: n in work ==> n in NameSet(services) && n in w.visited
    ensures VisitAll(services, work, w) == w
    decreases |work|
  {
    if work != [] {
      assert work[0] in work && forall n :: n in work[1..] ==> n in work;
      NothingToVisit(services, work[1..], w);
    }
  }

  lemma OneMore(services: seq<Service>, i: nat)
    requires i < |services|
    ensures services[..i + 1] == services[..i] + [services[i]]
  {
  }

  lemma NamesSoFar(services: seq<Service>, i: nat)
    requires UniqueNames(services) && i < |services|
    ensures services[i].name in NameSet(services) && services[i].name !in NameSet(services[..i])
    ensures NameSet(services[..i + 1]) == NameSet(services[..i]) + {services[i].name}
  {
    assert services[i] in services;
    OneMore(services, i);
    forall s | s in services[..i] ensures s.name != services[i].name {
      var j :| 0 <= j < i && services[j] == s;
      assert NamesOf(services)[j] != NamesOf(services)[i];
    }
  }

  lemma DependentsSoFar(services: seq<Service>, i: nat)
    requires UniqueNames(services) && InStopOrder(services) && i < |services|
    ensures forall d :: d in Dependents(services, services[i].name) ==>
      d in NameSet(services) && d in NameSet(services[..i])
  {
    forall d | d in Dependents(services, services[i].name)
      ensures d in NameSet(services) && d in NameSet(services[..i])
    {
      var s :| s in services && s.name == d && services[i].name in s.dependsOn;
      var j :| 0 <= j < |services| && services[j] == s;
      assert services[..i][j] == s;
    }
  }

  lemma VisitInOrder(services: seq<Service>, i: nat)
    requires UniqueNames(services) && InStopOrder(services) && i < |services|
    ensures services[i].name in NameSet(services)
    ensures Visit(services, services[i].name, Walk(NameSet(services[..i]), services[..i])) ==
      Walk(NameSet(services[..i + 1]), services[..i + 1])
  {
    var n, w := services[i].name, Walk(NameSet(services[..i]), services[..i]);
    NamesSoFar(services, i);
    DependentsSoFar(services, i);
    NothingToVisit(services, Dependents(services, n), w.(visited := w.visited + {n}));
    SameName(services, Lookup(services, n), services[i]);
    OneMore(services, i);
  }

  lemma {:induction false} VisitRest(services: seq<Service>, i: nat)
    requires UniqueNames(services) && InStopOrder(services) && i <= |services|
    ensures forall n :: n in NamesOf(services)[i..] ==> n in NameSet(services)
    ensures VisitAll(services, NamesOf(services)[i..], Walk(NameSet(services[..i]), services[..i])).ordered == services
    decreases |services| - i
  {
    forall n | n in NamesOf(services)[i..] ensures n in NameSet(services) {
      var j :| i <= j < |services| && NamesOf(services)[j] == n;
    }
    if i == |services| {
      assert services[..i] == services;
    } else {
      VisitInOrder(services, i);
      assert NamesOf(services)[i..][1..] == NamesOf(services)[i + 1..];
      VisitRest(services, i + 1);
    }
  }

  /** A list that already stands in a stop order is left as it is: services without ties keep their places. */
  lemma OrderedListUnchanged(services: seq<Service>)
    requires UniqueNames(services) && InStopOrder(services)
    ensures Order(services) == services
  {
    VisitRest(services, 0);
    assert NameSet(services[..0]) == {};
    assert NamesOf(services)[0..] == NamesOf(services);
  }

  /** Ordering twice is ordering once. */
  lemma OrderIsIdempotent(services: seq<Service>)
    requires Validated(services)
    ensures Order(Order(services)) == Order(services)
  {
    var o := Order(services);
    OrderEmitsEachNameOnce(services);
    forall i, j | 0 <= i < |o| && 0 <= j < |o| && o[j].name in o[i].dependsOn ensures i < j {
      StopsDependentsFirst(services, i, j);
    }
    OrderedListUnchanged(o);
  }

  // ---- The forced-exit delay ----

  /** Durations in nanoseconds: 64-bit seconds and a nanosecond part. */
  const MAX_DURATION: nat := 0xFFFF_FFFF_FFFF_FFFF * 1_000_000_000 + 999_999_999
  const SHUTDOWN_WATCHDOG_MARGIN: nat := 5 * 1_000_000_000
  const DEFAULT_SERVICE_SHUTDOWN_TIMEOUT: nat := 10 * 1_000_000_000

  function SaturatingAdd(a: nat, b: nat): nat {
    if a + b > MAX_DURATION then MAX_DURATION else a + b
  }

  function Max(a: nat, b: nat): nat {
    if a < b then b else a
  }

  /** What the watchdog allows for stopping a service. */
  function Timeout(s: Service): nat {
    if s.shutdownTimeout.Some? then s.shutdownTimeout.value else DEFAULT_SERVICE_SHUTDOWN_TIMEOUT
  }

  function Total(services: seq<Service>): nat {
    if services == [] then 0 else Timeout(services[0]) + Total(services[1..])
  }

  function WatchdogDelay(services: seq<Service>, minimum: nat): nat {
    Max(minimum, SaturatingAdd(Total(Order(services)), SHUTDOWN_WATCHDOG_MARGIN))
  }

  method ShutdownWatchdogDelay(services: seq<Service>, minimum: nat) returns (delay: nat)
    ensures delay == WatchdogDelay(services, minimum)
  {
    var ordered := ServiceStopOrder(services);
    var total: nat := 0;
    for i := 0 to |ordered|
      invariant total <= MAX_DURATION
      invariant SaturatingAdd(Total(ordered), 0) == SaturatingAdd(total, Total(ordered[i..]))
    {
      assert ordered[i..][1..] == ordered[i + 1..];
      total := SaturatingAdd(total, Timeout(ordered[i]));
    }
    delay := Max(minimum, SaturatingAdd(total, SHUTDOWN_WATCHDOG_MARGIN));
  }

  /** How long the stop of a service waits after SIGTERM before it sends SIGKILL, with its own default. */
  function StopTimeout(s: Service): nat {
    match s.shutdownTimeout
    case Some(t) => t
    case None => 10_000_000_000
  }

  /** The wait for a process that would exit after `exit`, or never by itself. */
  function StopWait(s: Service, exit: Option<nat>): nat {
    if exit.Some? && exit.value <= StopTimeout(s) then exit.value else StopTimeout(s)
  }

  /** The waits of the whole shutdown, one service after the other. */
  function StopWaits(order: seq<Service>, exits: seq<Option<nat>>): nat
    requires |order| == |exits|
  {
    if order == [] then 0 else StopWait(order[0], exits[0]) + StopWaits(order[1..], exits[1..])
  }

  lemma {:induction false} WaitsBounded(order: seq<Service>, exits: seq<Option<nat>>)
    requires |order| == |exits|
    ensures StopWaits(order, exits) <= Total(order)
    ensures (forall e :: e in exits ==> e == None) ==> StopWaits(order, exits) == Total(order)
  {
    if order != [] {
      assert exits[0] in exits && forall e :: e in exits[1..] ==> e in exits;
      WaitsBounded(order[1..], exits[1..]);
    }
  }

  /**
   The watchdog never undercuts a graceful shutdown: short of saturation, the delay covers the
   waits of all stops, however long each process takes to exit, and leaves five seconds.
   */
  lemma WatchdogOutlastsShutdown(services: seq<Service>, minimum: nat, exits: seq<Option<nat>>)
    requires |exits| == |Order(services)|
    ensures WatchdogDelay(services, minimum) < MAX_DURATION ==>
      StopWaits(Order(services), exits) + SHUTDOWN_WATCHDOG_MARGIN <= WatchdogDelay(services, minimum)
  {
    WaitsBounded(Order(services), exits);
  }

  /** How long the stops wait if no process exits by itself. */
  function LongestWaits(order: seq<Service>): nat {
    StopWaits(order, seq(|order|, _ => None))
  }

  /** The delay is no longer than it has to be: the minimum, or the longest waits and five seconds. */
  lemma WatchdogIsTight(services: seq<Service>, minimum: nat)
    ensures var delay, budget := WatchdogDelay(services, minimum), LongestWaits(Order(services)) + 5_000_000_000;
      && minimum <= delay && (budget <= delay || delay >= MAX_DURATION)
      && (delay == minimum || delay == budget || (delay == MAX_DURATION && budget > MAX_DURATION))
  {
    WaitsBounded(Order(services), seq(|Order(services)|, _ => None));
  }

  lemma {:induction false} TotalSplit(a: seq<Service>, b: seq<Service>)
    ensures Total(a + b) == Total(a) + Total(b)
  {
    if a == [] { assert a + b == b; }
    else {
      assert (a + b)[1..] == a[1..] + b;
      TotalSplit(a[1..], b);
    }
  }

  lemma {:induction false} TotalWithout(b: seq<Service>, i: nat)
    requires i < |b|
    ensures Total(b) == Timeout(b[i]) + Total(b[..i] + b[i + 1..])
    ensures multiset(b[..i] + b[i + 1..]) == multiset(b) - multiset{b[i]}
  {
    assert b == b[..i] + ([b[i]] + b[i + 1..]);
    assert ([b[i]] + b[i + 1..])[1..] == b[i + 1..];
    TotalSplit(b[..i], [b[i]] + b[i + 1..]);
    TotalSplit(b[..i], b[i + 1..]);
  }

  lemma {:induction false} TotalOfPermutation(a: seq<Service>, b: seq<Service>)
    requires multiset(a) == multiset(b)
    ensures Total(a) == Total(b)
    decreases |a|
  {
    assert |multiset(a)| == |multiset(b)|;
    if a != [] {
      var x := a[0];
      assert x in multiset(b);
      var i :| 0 <= i < |b| && b[i] == x;
      TotalWithout(b, i);
      assert a == [x] + a[1..];
      assert multiset(a[1..]) == multiset(a) - multiset{x};
      TotalOfPermutation(a[1..], b[..i] + b[i + 1..]);
    }
  }

  /** For unique names the budget is the sum over the configured services, in any order. */
  lemma BudgetCoversEveryService(services: seq<Service>)
    requires UniqueNames(services)
    ensures Total(Order(services)) == Total(services)
  {
    OrderIsPermutation(services);
    TotalOfPermutation(Order(services), services);
  }
}
