/**
 The supervisors of all services of one agent together, as they start: each waits until a probe
 of every service it depends on has answered, one dependency after the other.
 */
module Startup {
  import opened Graphs
  import opened Options
  import opened Sequences
  import opened Services
  import opened SupervisorProtocol
  import Supervisor

  /** How a service is probed: whether its child exists, or whether its port answers. */
  datatype Check = ProcessCheck | NetworkCheck

  datatype Agent = Agent(services: seq<Service>, policy: Service -> RestartPolicy, check: Service -> Check)

  /** One pass of a supervisor over its dependencies: how many were probed, and whether one was missing. */
  datatype Cursor = Cursor(next: nat, missing: bool)

  /** `answering` holds the services whose port answers. */
  datatype Joint = Joint(machines: seq<State>, cursors: seq<Cursor>, answering: set<nat>)

  datatype Act = Own(who: nat, event: Event) | Probe(who: nat, healthy: bool) | Port(who: nat, answers: bool)

  function Start(a: Agent): Joint {
    Joint(
      seq(|a.services|, i requires 0 <= i < |a.services| => Init(a.policy(a.services[i]))),
      seq(|a.services|, _ => Cursor(0, false)),
      {})
  }

  predicate Fits(a: Agent, j: Joint) {
    |j.machines| == |j.cursors| == |a.services|
  }

  /** Where the `k`-th dependency of a service stands in the list, or -1. */
  function Dependency(a: Agent, i: nat, k: nat): (d: int)
    requires i < |a.services| && k < |a.services[i].dependsOn|
    ensures -1 <= d < |a.services|
  {
    IndexOf(NamesOf(a.services), a.services[i].dependsOn[k])
  }

  predicate Running(s: State) {
    s.slot.Some?
  }

  /** What a probe that answers yes has seen. */
  predicate Up(a: Agent, j: Joint, d: nat)
    requires Fits(a, j) && d < |a.services|
  {
    match a.check(a.services[d])
    case ProcessCheck => Running(j.machines[d])
    case NetworkCheck => d in j.answering
  }

  /** The probe of a process waits for the slot; a child that has exited unnoticed may still seem to exist. */
  predicate Answers(a: Agent, j: Joint, d: nat, healthy: bool)
    requires Fits(a, j) && d < |a.services|
  {
    && (healthy ==> Up(a, j, d))
    && match a.check(a.services[d])
       case ProcessCheck =>
         && !j.machines[d].locked
         && (Running(j.machines[d]) && j.machines[d].slot.value in j.machines[d].alive ==> healthy)
       case NetworkCheck => Up(a, j, d) ==> healthy
  }

  predicate Found(a: Agent, j: Joint, i: nat, deps: Dependencies)
    requires Fits(a, j) && i < |a.services|
  {
    var c, n := j.cursors[i], |a.services[i].dependsOn|;
    match deps
    case Ready => c.next == n && !c.missing
    case NotYet => c.next == n && c.missing
    case Misconfigured => c.next < n && Dependency(a, i, c.next) < 0
  }

  predicate MayAct(a: Agent, j: Joint, act: Act) {
    && Fits(a, j) && act.who < |a.services|
    && var i, deps := act.who, a.services[act.who].dependsOn;
    match act
    case Own(_, e) =>
      && Enabled(j.machines[i], e)
      && (e.NoDependencies? ==> deps == []) && (e.WaitHead? ==> deps != [])
      && (e.ProbeDependencies? ==> Found(a, j, i, e.deps))
    case Probe(_, healthy) =>
      && j.machines[i].sup.ProbingDependencies? && j.cursors[i].next < |deps|
      && Dependency(a, i, j.cursors[i].next) >= 0 && Answers(a, j, Dependency(a, i, j.cursors[i].next), healthy)
    case Port(_, _) => true
  }

  function Perform(a: Agent, j: Joint, act: Act): (r: Joint)
    requires MayAct(a, j, act)
    ensures Fits(a, r)
  {
    var i := act.who;
    match act
    case Own(_, e) =>
      j.(machines := j.machines[i := Apply(j.machines[i], e)],
         cursors := if e.WaitHead? then j.cursors[i := Cursor(0, false)] else j.cursors)
    case Probe(_, healthy) =>
      j.(cursors := j.cursors[i := Cursor(j.cursors[i].next + 1, j.cursors[i].missing || !healthy)])
    case Port(_, answers) => j.(answering := if answers then j.answering + {i} else j.answering - {i})
  }

  /** The states of a run, one more than it has acts. */
  ghost predicate Runs(a: Agent, js: seq<Joint>, acts: seq<Act>) {
    && |js| == |acts| + 1 && js[0] == Start(a)
    && forall n :: 0 <= n < |acts| ==> Steps(a, js, acts, n)
  }

  ghost predicate Steps(a: Agent, js: seq<Joint>, acts: seq<Act>, n: nat)
    requires |js| == |acts| + 1 && n < |acts|
  {
    MayAct(a, js[n], acts[n]) && js[n + 1] == Perform(a, js[n], acts[n])
  }

  lemma {:induction false} RunFits(a: Agent, js: seq<Joint>, acts: seq<Act>, n: nat)
    requires Runs(a, js, acts) && n < |js|
    ensures Fits(a, js[n])
  {
    if n > 0 { assert Steps(a, js, acts, n - 1); }
  }

  // ---- No service starts before what it depends on ----

  /** At some moment up to `n`, and since the last start of service `i`, its `k`-th dependency was up. */
  ghost predicate Seen(a: Agent, js: seq<Joint>, n: nat, i: nat, k: nat)
    requires n < |js| && i < |a.services| && k < |a.services[i].dependsOn|
  {
    Dependency(a, i, k) >= 0 && exists m :: 0 <= m <= n && SeenAt(a, js, m, n, i, Dependency(a, i, k))
  }

  ghost predicate SeenAt(a: Agent, js: seq<Joint>, m: nat, n: nat, i: nat, d: nat)
    requires m <= n < |js| && i < |a.services| && d < |a.services|
  {
    && Fits(a, js[m]) && Fits(a, js[n]) && Up(a, js[m], d)
    && js[m].machines[i].spawned == js[n].machines[i].spawned
  }

  predicate PastWait(s: State) {
    s.sup.Preparing? || s.sup.WantLock? || s.sup.Locked? || s.sup.Spawning?
  }

  /** What service `i` has seen so far of its dependencies. */
  ghost predicate Gated(a: Agent, js: seq<Joint>, n: nat, i: nat)
    requires n < |js| && Fits(a, js[n]) && i < |a.services|
  {
    var s, c, deps := js[n].machines[i], js[n].cursors[i], a.services[i].dependsOn;
    && c.next <= |deps|
    && (PastWait(s) ==> AllSeen(a, js, n, i, |deps|))
    && (s.sup.ProbingDependencies? && !c.missing ==> AllSeen(a, js, n, i, c.next))
  }

  ghost predicate AllSeen(a: Agent, js: seq<Joint>, n: nat, i: nat, count: nat)
    requires n < |js| && i < |a.services| && count <= |a.services[i].dependsOn|
  {
    forall k :: 0 <= k < count ==> Seen(a, js, n, i, k)
  }

  lemma SeenStays(a: Agent, js: seq<Joint>, n: nat, i: nat, k: nat)
    requires n + 1 < |js| && Fits(a, js[n + 1]) && i < |a.services| && k < |a.services[i].dependsOn|
    requires Seen(a, js, n, i, k)
    requires js[n + 1].machines[i].spawned == js[n].machines[i].spawned
    ensures Seen(a, js, n + 1, i, k)
  {
    var d := Dependency(a, i, k);
    var m :| 0 <= m <= n && SeenAt(a, js, m, n, i, d);
    assert SeenAt(a, js, m, n + 1, i, d);
  }

  lemma AllSeenStay(a: Agent, js: seq<Joint>, n: nat, i: nat, count: nat)
    requires n + 1 < |js| && Fits(a, js[n]) && Fits(a, js[n + 1])
    requires i < |a.services| && count <= |a.services[i].dependsOn|
    requires js[n + 1].machines[i].spawned == js[n].machines[i].spawned
    ensures AllSeen(a, js, n, i, count) ==> AllSeen(a, js, n + 1, i, count)
  {
    if AllSeen(a, js, n, i, count) {
      var next := n + 1;
      forall k: nat | k < count ensures Seen(a, js, next, i, k) { SeenStays(a, js, n, i, k); }
    }
  }

  lemma GatedStays(a: Agent, js: seq<Joint>, n: nat, i: nat)
    requires n + 1 < |js| && Fits(a, js[n]) && Fits(a, js[n + 1]) && i < |a.services| && Gated(a, js, n, i)
    requires js[n + 1].machines[i].spawned == js[n].machines[i].spawned
    ensures PastWait(js[n].machines[i]) ==> AllSeen(a, js, n + 1, i, |a.services[i].dependsOn|)
    ensures js[n].machines[i].sup.ProbingDependencies? && !js[n].cursors[i].missing ==>
      AllSeen(a, js, n + 1, i, js[n].cursors[i].next)
  {
    AllSeenStay(a, js, n, i, |a.services[i].dependsOn|);
    AllSeenStay(a, js, n, i, js[n].cursors[i].next);
  }

  lemma GatedProbe(a: Agent, js: seq<Joint>, n: nat, i: nat, healthy: bool)
    requires n + 1 < |js| && i < |a.services| && MayAct(a, js[n], Probe(i, healthy))
    requires js[n + 1] == Perform(a, js[n], Probe(i, healthy)) && Gated(a, js, n, i)
    ensures Gated(a, js, n + 1, i)
  {
    GatedStays(a, js, n, i);
    var c := js[n].cursors[i];
    if healthy && !c.missing { assert SeenAt(a, js, n + 1, n + 1, i, Dependency(a, i, c.next)); }
  }

  lemma GatedOwn(a: Agent, js: seq<Joint>, n: nat, i: nat, e: Event)
    requires n + 1 < |js| && i < |a.services| && MayAct(a, js[n], Own(i, e))
    requires js[n + 1] == Perform(a, js[n], Own(i, e)) && Gated(a, js, n, i)
    ensures Gated(a, js, n + 1, i)
  {
    if js[n + 1].machines[i].spawned == js[n].machines[i].spawned { GatedStays(a, js, n, i); }
  }

  lemma GatedStep(a: Agent, js: seq<Joint>, acts: seq<Act>, n: nat, i: nat)
    requires Runs(a, js, acts) && n < |acts| && i < |a.services|
    requires Fits(a, js[n]) && Gated(a, js, n, i)
    ensures Fits(a, js[n + 1]) && Gated(a, js, n + 1, i)
  {
    assert Steps(a, js, acts, n);
    if acts[n].who == i && acts[n].Own? {
      GatedOwn(a, js, n, i, acts[n].event);
    } else if acts[n].who == i && acts[n].Probe? {
      GatedProbe(a, js, n, i, acts[n].healthy);
    } else {
      GatedStays(a, js, n, i);
    }
  }

  lemma {:induction false} AlwaysGated(a: Agent, js: seq<Joint>, acts: seq<Act>, n: nat, i: nat)
    requires Runs(a, js, acts) && n < |js| && i < |a.services|
    ensures Fits(a, js[n]) && Gated(a, js, n, i)
    decreases n
  {
    if n > 0 {
      AlwaysGated(a, js, acts, n - 1, i);
      GatedStep(a, js, acts, n - 1, i);
    }
  }

  /**
   Whenever a service is started, for the first time or again, each of its dependencies was up at
   some moment since its previous start.
   */
  lemma StartsAfterDependencies(a: Agent, js: seq<Joint>, acts: seq<Act>, n: nat, i: nat, k: nat)
    requires Runs(a, js, acts) && n < |acts| && acts[n] == Own(i, Spawn(true))
    requires i < |a.services| && k < |a.services[i].dependsOn|
    ensures Seen(a, js, n, i, k)
  {
    AlwaysGated(a, js, acts, n, i);
    assert Steps(a, js, acts, n);
  }

  // ---- Startup never gets stuck ----

  lemma {:induction false} AlwaysInv(a: Agent, js: seq<Joint>, acts: seq<Act>, n: nat, i: nat)
    requires Runs(a, js, acts) && n < |js| && i < |a.services|
    ensures Fits(a, js[n]) && Inv(js[n].machines[i]) && Watched(js[n].machines[i])
    decreases n
  {
    if n > 0 {
      AlwaysInv(a, js, acts, n - 1, i);
      assert Steps(a, js, acts, n - 1);
      if acts[n - 1].Own? && acts[n - 1].who == i {
        Supervisor.InvStep(js[n - 1].machines[i], acts[n - 1].event);
        Supervisor.WatchedStep(js[n - 1].machines[i], acts[n - 1].event);
      }
    }
  }

  /** The supervisor has ended, or is about to because its policy asks for no restart. */
  predicate Leaving(s: State) {
    match s.sup
    case Done => true
    case Deciding(success) => !ShouldRestart(s.policy, success)
    case Ending(_, _) => !ShouldRestart(s.policy, false)
    case _ => false
  }

  /** A supervisor that is leaving never starts its service again. */
  lemma {:induction false} LeavingForGood(s: State, es: seq<Event>, t: State)
    requires Inv(s) && Leaving(s) && Run(s, es, t)
    ensures Leaving(t) && t.slot.None? && t.spawned == s.spawned
    decreases |es|
  {
    if es != [] {
      LeavingStep(s, es[0]);
      LeavingForGood(Apply(s, es[0]), es[1..], t);
    }
  }

  lemma LeavingStep(s: State, e: Event)
    requires Inv(s) && Leaving(s) && Enabled(s, e)
    ensures Inv(Apply(s, e)) && Leaving(Apply(s, e)) && Apply(s, e).spawned == s.spawned
  {
    Supervisor.InvStep(s, e);
  }

  // ---- What keeps services down ----

  /** The supervisor has not got past its `k`-th dependency. */
  predicate Before(j: Joint, y: nat, k: nat)
    requires y < |j.machines| == |j.cursors|
  {
    match j.machines[y].sup
    case ProbingDependencies => j.cursors[y].next <= k || j.cursors[y].missing
    case Top => true
    case Waiting => true
    case DependencyBackoff => true
    case BackingOff => true
    case Deciding(_) => true
    case Ending(_, _) => true
    case _ => false
  }

  predicate WaitsOn(a: Agent, j: Joint, down: set<nat>, y: nat, k: nat)
    requires Fits(a, j) && y < |a.services| && k < |a.services[y].dependsOn|
  {
    var d := Dependency(a, y, k);
    d >= 0 && d in down && a.check(a.services[d]).ProcessCheck? && Before(j, y, k)
  }

  /** No service of `down` runs: each was left by its supervisor or waits for the process of another of them. */
  ghost predicate Down(a: Agent, j: Joint, down: set<nat>) {
    Fits(a, j) && forall y :: y in down ==> IsDown(a, j, down, y)
  }

  ghost predicate IsDown(a: Agent, j: Joint, down: set<nat>, y: nat)
    requires Fits(a, j)
  {
    && y < |a.services| && !Running(j.machines[y])
    && (Leaving(j.machines[y]) || exists k: nat :: k < |a.services[y].dependsOn| && WaitsOn(a, j, down, y, k))
  }

  lemma StillWaits(a: Agent, j: Joint, act: Act, down: set<nat>, y: nat, k: nat)
    requires MayAct(a, j, act) && Down(a, j, down) && y < |a.services| && k < |a.services[y].dependsOn|
    requires Inv(j.machines[y]) && !Running(j.machines[y]) && WaitsOn(a, j, down, y, k)
    ensures var l := Perform(a, j, act);
      !Running(l.machines[y]) && (Leaving(l.machines[y]) || WaitsOn(a, l, down, y, k))
  {
    assert IsDown(a, j, down, Dependency(a, y, k));
  }

  lemma DownStep(a: Agent, j: Joint, act: Act, down: set<nat>)
    requires MayAct(a, j, act) && Down(a, j, down) && forall y :: y in down ==> Inv(j.machines[y])
    ensures Down(a, Perform(a, j, act), down)
  {
    var l := Perform(a, j, act);
    forall y | y in down ensures IsDown(a, l, down, y) {
      assert IsDown(a, j, down, y);
      if Leaving(j.machines[y]) {
        if act.Own? && act.who == y { LeavingStep(j.machines[y], act.event); }
      } else {
        var k: nat :| k < |a.services[y].dependsOn| && WaitsOn(a, j, down, y, k);
        StillWaits(a, j, act, down, y, k);
      }
    }
  }

  /** Such services stay down in every continuation. */
  lemma {:induction false} DownForGood(a: Agent, js: seq<Joint>, acts: seq<Act>, n: nat, m: nat, down: set<nat>)
    requires Runs(a, js, acts) && n <= m < |js| && Down(a, js[n], down)
    ensures Down(a, js[m], down)
    decreases m
  {
    if n < m {
      DownForGood(a, js, acts, n, m - 1, down);
      assert Steps(a, js, acts, m - 1);
      forall y | y in down ensures Inv(js[m - 1].machines[y]) {
        assert IsDown(a, js[m - 1], down, y);
        AlwaysInv(a, js, acts, m - 1, y);
      }
      DownStep(a, js[m - 1], acts[m - 1], down);
    }
  }

  // ---- What brings them up ----

  /** The process is alive, and the port answers where that is what probes ask for. */
  predicate Healthy(a: Agent, j: Joint, d: nat)
    requires Fits(a, j) && d < |a.services|
  {
    && Running(j.machines[d]) && j.machines[d].slot.value in j.machines[d].alive
    && (a.check(a.services[d]).NetworkCheck? ==> d in j.answering)
  }

  predicate Sane(a: Agent, j: Joint, i: nat)
    requires Fits(a, j) && i < |a.services|
  {
    var s := j.machines[i];
    Control(s) && Watched(s) && s.stop.NotCalled? && j.cursors[i].next <= |a.services[i].dependsOn|
  }

  /** Service `m` is not running, its supervisor goes on, and all it depends on is healthy. */
  ghost predicate Startable(a: Agent, j: Joint, m: nat) {
    && Fits(a, j) && m < |a.services| && Sane(a, j, m) && !Running(j.machines[m]) && !Leaving(j.machines[m])
    && forall k :: 0 <= k < |a.services[m].dependsOn| ==> DependencyUp(a, j, m, k)
  }

  ghost predicate DependencyUp(a: Agent, j: Joint, m: nat, k: nat)
    requires Fits(a, j) && m < |a.services| && k < |a.services[m].dependsOn|
  {
    var d := Dependency(a, m, k);
    d >= 0 && d != m && Healthy(a, j, d) && Control(j.machines[d])
  }

  /** The next step of the supervisor of `m` towards a running process. */
  function NextAct(a: Agent, j: Joint, m: nat): Act
    requires Fits(a, j) && m < |a.services|
  {
    var c, n := j.cursors[m], |a.services[m].dependsOn|;
    match j.machines[m].sup
    case Waiting => Own(m, if n == 0 then NoDependencies else WaitHead)
    case ProbingDependencies =>
      if c.next < n then Probe(m, true) else Own(m, ProbeDependencies(if c.missing then NotYet else Ready))
    case Spawning => Own(m, Spawn(true))
    case _ => Own(m, NextSupervisorEvent(j.machines[m]))
  }

  /** How many such steps are left at most. */
  function StepsToStart(a: Agent, j: Joint, m: nat): nat
    requires Fits(a, j) && m < |a.services|
    requires Sane(a, j, m)
  {
    var c, n := j.cursors[m], |a.services[m].dependsOn|;
    match j.machines[m].sup
    case Placing(_) => 1
    case Spawning => 2
    case Locked => 3
    case WantLock => 4
    case Preparing => 5
    case ProbingDependencies => if c.missing then 8 + n + n - c.next else 6 + n - c.next
    case Waiting => 7 + n
    case Top => 8 + n
    case DependencyBackoff => 9 + n
    case BackingOff => 9 + n
    case Deciding(_) => 10 + n
    case Ending(_, signalled) => if signalled then 11 + n else 12 + n
    case _ => 0
  }

  lemma NextPossible(a: Agent, j: Joint, m: nat)
    requires Startable(a, j, m)
    ensures MayAct(a, j, NextAct(a, j, m))
  {
    var c := j.cursors[m];
    if j.machines[m].sup.ProbingDependencies? && c.next < |a.services[m].dependsOn| {
      assert DependencyUp(a, j, m, c.next);
    }
  }

  lemma StartableStep(a: Agent, j: Joint, m: nat)
    requires Startable(a, j, m) && MayAct(a, j, NextAct(a, j, m))
    ensures var k := Perform(a, j, NextAct(a, j, m));
      && Sane(a, k, m)
      && (!Running(k.machines[m]) ==> !Leaving(k.machines[m]) && StepsToStart(a, k, m) < StepsToStart(a, j, m))
      && (Running(k.machines[m]) ==> j.machines[m].sup.Placing?)
  {
  }

  /** `acts` lead from `j` to `k`, and all of them are steps of the supervisor of service `m`. */
  ghost predicate Path(a: Agent, j: Joint, m: nat, acts: seq<Act>, k: Joint)
    decreases |acts|
  {
    if acts == [] then j == k
    else MayAct(a, j, acts[0]) && BySupervisor(acts[0], m) && Path(a, Perform(a, j, acts[0]), m, acts[1..], k)
  }

  predicate BySupervisor(act: Act, m: nat) {
    act.who == m && !act.Port? && (act.Own? ==> OfSupervisor(act.event))
  }

  /** Apart from service `m` nothing has changed. */
  predicate OnlyMoved(a: Agent, j: Joint, m: nat, k: Joint) {
    && Fits(a, j) && Fits(a, k) && k.answering == j.answering
    && forall d :: 0 <= d < |a.services| && d != m ==> k.machines[d] == j.machines[d] && k.cursors[d] == j.cursors[d]
  }

  lemma StillUp(a: Agent, j: Joint, m: nat, k: Joint)
    requires Startable(a, j, m) && OnlyMoved(a, j, m, k) && Sane(a, k, m)
    requires !Running(k.machines[m]) && !Leaving(k.machines[m])
    ensures Startable(a, k, m)
  {
    forall i | 0 <= i < |a.services[m].dependsOn| ensures DependencyUp(a, k, m, i) {
      assert DependencyUp(a, j, m, i);
    }
  }

  predicate PlacingAlive(s: State) {
    s.sup.Placing? ==> s.sup.pid in s.alive
  }

  /** The supervisor of a startable service can bring it up by its own steps. */
  lemma {:induction false} StartPath(a: Agent, j: Joint, m: nat) returns (acts: seq<Act>, k: Joint)
    requires Startable(a, j, m)
    ensures Path(a, j, m, acts, k) && OnlyMoved(a, j, m, k) && Sane(a, k, m) && Running(k.machines[m])
    ensures PlacingAlive(j.machines[m]) ==> k.machines[m].slot.value in k.machines[m].alive
    decreases StepsToStart(a, j, m)
  {
    NextPossible(a, j, m);
    StartableStep(a, j, m);
    var act := NextAct(a, j, m);
    var next := Perform(a, j, act);
    if Running(next.machines[m]) {
      acts, k := [], next;
    } else {
      StillUp(a, j, m, next);
      acts, k := StartPath(a, next, m);
    }
    PathCons(a, j, m, act, acts, k);
    acts := [act] + acts;
  }

  lemma PathCons(a: Agent, j: Joint, m: nat, act: Act, acts: seq<Act>, k: Joint)
    requires MayAct(a, j, act) && BySupervisor(act, m) && Path(a, Perform(a, j, act), m, acts, k)
    ensures Path(a, j, m, [act] + acts, k)
  {
    assert ([act] + acts)[1..] == acts;
  }

  /** No `stop()` was called, and every process started and not yet noticed to be gone is healthy. */
  ghost predicate AllWell(a: Agent, j: Joint) {
    Fits(a, j) && forall i: nat :: i < |a.services| ==> ServiceWell(a, j, i)
  }

  ghost predicate ServiceWell(a: Agent, j: Joint, i: nat)
    requires Fits(a, j) && i < |a.services|
  {
    Sane(a, j, i) && (Running(j.machines[i]) ==> Healthy(a, j, i)) && PlacingAlive(j.machines[i])
  }

  /** Service `y` is `x` or one that `x` depends on, directly or through others. */
  ghost predicate Needs(a: Agent, x: nat, y: nat)
    requires x < |a.services| && y < |a.services|
  {
    x == y || Reaches(ByName(a.services), a.services[x].name, a.services[y].name)
  }

  ghost predicate GoesOn(a: Agent, j: Joint, i: nat)
    requires Fits(a, j) && i < |a.services|
  {
    Running(j.machines[i]) || !Leaving(j.machines[i])
  }

  lemma DependencyPlace(a: Agent, m: nat, k: nat)
    requires Validated(a.services) && m < |a.services| && k < |a.services[m].dependsOn|
    ensures var d := Dependency(a, m, k);
      && d >= 0 && d != m && a.services[d].name == a.services[m].dependsOn[k]
      && a.services[d].name in Succ(ByName(a.services), a.services[m].name)
  {
    var s, g := a.services[m], ByName(a.services);
    UniqueByName(a.services);
    assert s in a.services && s.dependsOn[k] in s.dependsOn;
    assert s.dependsOn[k] in NameSet(a.services);
    var t :| t in a.services && t.name == s.dependsOn[k];
    var i :| 0 <= i < |a.services| && a.services[i] == t;
    assert NamesOf(a.services)[i] == t.name;
    if t.name == s.name {
      ReachesEdge(g, s.name, s.name);
      ReachesSelfIsCycle(g, s.name);
    }
  }

  /** The first service that is missing below `x` has all its dependencies and can start. */
  lemma FirstMissing(a: Agent, j: Joint, x: nat) returns (m: nat)
    requires Validated(a.services) && AllWell(a, j) && x < |a.services| && !Running(j.machines[x])
    requires forall y: nat :: y < |a.services| && Needs(a, x, y) ==> GoesOn(a, j, y)
    ensures m < |a.services| && Needs(a, x, m) && !Running(j.machines[m]) && Startable(a, j, m)
  {
    var g := ByName(a.services);
    var missing := set i: nat | i < |a.services| && Needs(a, x, i) && !Running(j.machines[i]) :: a.services[i].name;
    assert Needs(a, x, x);
    assert a.services[x].name in missing;
    var name := MinimalMember(g, missing);
    m :| 0 <= m < |a.services| && Needs(a, x, m) && !Running(j.machines[m]) && a.services[m].name == name;
    forall k | 0 <= k < |a.services[m].dependsOn| ensures DependencyUp(a, j, m, k) {
      var d := Dependency(a, m, k);
      DependencyPlace(a, m, k);
      NeedsMore(a, x, m, d);
      assert ServiceWell(a, j, d);
    }
    assert ServiceWell(a, j, m) && GoesOn(a, j, m);
  }

  lemma NeedsMore(a: Agent, x: nat, m: nat, d: nat)
    requires x < |a.services| && m < |a.services| && d < |a.services| && Needs(a, x, m)
    requires a.services[d].name in Succ(ByName(a.services), a.services[m].name)
    ensures Needs(a, x, d)
  {
    var g := ByName(a.services);
    if x == m {
      ReachesEdge(g, a.services[m].name, a.services[d].name);
    } else {
      ReachesSnoc(g, a.services[x].name, a.services[m].name, a.services[d].name);
    }
  }

  lemma ReachedIsWell(a: Agent, js: seq<Joint>, acts: seq<Act>, n: nat)
    requires Runs(a, js, acts) && n < |js| && Fits(a, js[n])
    requires forall i: nat :: i < |a.services| ==>
      js[n].machines[i].stop.NotCalled? && (Running(js[n].machines[i]) ==> Healthy(a, js[n], i))
      && PlacingAlive(js[n].machines[i])
    ensures AllWell(a, js[n])
  {
    forall i: nat | i < |a.services| ensures ServiceWell(a, js[n], i) {
      AlwaysInv(a, js, acts, n, i);
      AlwaysGated(a, js, acts, n, i);
    }
  }

  /**
   Startup cannot deadlock: in every reachable state without `stop()` whose running services are
   healthy, if service `x` is not running and no supervisor among `x` and what it needs has left,
   then one of those that are not running can be brought up by its own supervisor alone.
   */
  lemma StartupNeverStuck(a: Agent, js: seq<Joint>, acts: seq<Act>, n: nat, x: nat)
    returns (m: nat, path: seq<Act>, k: Joint)
    requires Validated(a.services) && Runs(a, js, acts) && n < |js| && AllWell(a, js[n])
    requires x < |a.services| && !Running(js[n].machines[x])
    requires forall y: nat :: y < |a.services| && Needs(a, x, y) ==> GoesOn(a, js[n], y)
    ensures m < |a.services| && Needs(a, x, m) && !Running(js[n].machines[m])
    ensures Path(a, js[n], m, path, k) && Fits(a, k) && Running(k.machines[m])
  {
    m := FirstMissing(a, js[n], x);
    path, k := StartPath(a, js[n], m);
  }

  /** `acts` lead from `j` to `k` by steps of supervisors and by ports that begin to answer. */
  ghost predicate Leads(a: Agent, j: Joint, acts: seq<Act>, k: Joint)
    decreases |acts|
  {
    if acts == [] then j == k
    else
      && MayAct(a, j, acts[0]) && (if acts[0].Port? then acts[0].answers else BySupervisor(acts[0], acts[0].who))
      && Leads(a, Perform(a, j, acts[0]), acts[1..], k)
  }

  lemma {:induction false} PathLeads(a: Agent, j: Joint, m: nat, acts: seq<Act>, k: Joint, more: seq<Act>, l: Joint)
    requires Path(a, j, m, acts, k) && Leads(a, k, more, l)
    ensures Leads(a, j, acts + more, l)
    decreases |acts|
  {
    if acts == [] {
      assert acts + more == more;
    } else {
      var next := Perform(a, j, acts[0]);
      PathLeads(a, next, m, acts[1..], k, more, l);
      LeadsCons(a, j, acts[0], acts[1..] + more, l);
      FirstOf(acts, more);
    }
  }

  lemma FirstOf<T>(a: seq<T>, b: seq<T>)
    requires a != []
    ensures a + b == [a[0]] + (a[1..] + b)
  {
  }

  lemma LeadsCons(a: Agent, j: Joint, act: Act, acts: seq<Act>, k: Joint)
    requires MayAct(a, j, act) && (if act.Port? then act.answers else BySupervisor(act, act.who))
    requires Leads(a, Perform(a, j, act), acts, k)
    ensures Leads(a, j, [act] + acts, k)
  {
    assert ([act] + acts)[1..] == acts;
  }

  ghost predicate AllGoOn(a: Agent, j: Joint)
    requires Fits(a, j)
  {
    forall y: nat :: y < |a.services| ==> GoesOn(a, j, y)
  }

  lemma WellAfterStart(a: Agent, j: Joint, m: nat, k: Joint)
    requires AllWell(a, j) && AllGoOn(a, j) && m < |a.services| && OnlyMoved(a, j, m, k) && Sane(a, k, m)
    requires Running(k.machines[m]) && k.machines[m].slot.value in k.machines[m].alive
    ensures var l := k.(answering := k.answering + {m});
      AllWell(a, l) && AllGoOn(a, l) && forall i: nat :: i < |a.services| && i != m ==> l.machines[i] == j.machines[i]
  {
    var l := k.(answering := k.answering + {m});
    forall i: nat | i < |a.services| ensures ServiceWell(a, l, i) && GoesOn(a, l, i) {
      assert ServiceWell(a, j, i) && GoesOn(a, j, i);
    }
  }

  function Missing(a: Agent, j: Joint): set<nat>
    requires Fits(a, j)
  {
    set i: nat | i < |a.services| && !Running(j.machines[i])
  }

  /** From such a state, if no supervisor has left, all services can come up, each after what it needs. */
  lemma {:induction false} StartupCompletes(a: Agent, j: Joint) returns (acts: seq<Act>, k: Joint)
    requires Validated(a.services) && AllWell(a, j) && AllGoOn(a, j)
    ensures Leads(a, j, acts, k) && Fits(a, k) && forall i: nat :: i < |a.services| ==> Healthy(a, k, i)
    decreases |Missing(a, j)|
  {
    if x: nat :| x < |a.services| && !Running(j.machines[x]) {
      var m := FirstMissing(a, j, x);
      var path, next := StartPath(a, j, m);
      assert ServiceWell(a, j, m);
      WellAfterStart(a, j, m, next);
      var up := next.(answering := next.answering + {m});
      assert Missing(a, up) == Missing(a, j) - {m};
      assert m in Missing(a, j);
      acts, k := StartupCompletes(a, up);
      LeadsCons(a, next, Port(m, true), acts, k);
      PathLeads(a, j, m, path, next, [Port(m, true)] + acts, k);
      acts := path + ([Port(m, true)] + acts);
    } else {
      acts, k := [], j;
      forall i: nat | i < |a.services| ensures Healthy(a, j, i) { assert ServiceWell(a, j, i); }
    }
  }
}
