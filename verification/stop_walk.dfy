/**
 The shutdown walk over real services: one supervisor machine per service of the stop order, all
 of them running, while the walk calls `stop()` on one after the other and waits for each.
 */
module StopWalk {
  import opened Services
  import opened StopOrder
  import opened SupervisorProtocol
  import Supervisor

  /** An event of the machine at one position of the stop order. */
  datatype Move = Move(who: nat, event: Event)

  /** A service's `stop()` begins only when those of all earlier services have returned. */
  predicate MayMove(ms: seq<State>, m: Move) {
    && m.who < |ms| && Enabled(ms[m.who], m.event)
    && (m.event.StopFlag? ==> forall j :: 0 <= j < m.who ==> ms[j].stop.Returned?)
  }

  function After(ms: seq<State>, m: Move): seq<State>
    requires MayMove(ms, m)
  {
    ms[m.who := Apply(ms[m.who], m.event)]
  }

  function Start(services: seq<Service>, policy: Service -> RestartPolicy): seq<State> {
    var order := Order(services);
    seq(|order|, i requires 0 <= i < |order| => Init(policy(order[i])))
  }

  ghost predicate Walks(ms: seq<State>, moves: seq<Move>, ns: seq<State>)
    decreases |moves|
  {
    if moves == [] then ms == ns
    else MayMove(ms, moves[0]) && Walks(After(ms, moves[0]), moves[1..], ns)
  }

  /** What the machine at position `i` does in the run. */
  function Local(moves: seq<Move>, i: nat): seq<Event> {
    if moves == [] then []
    else (if moves[0].who == i then [moves[0].event] else []) + Local(moves[1..], i)
  }

  lemma {:induction false} LocalRun(ms: seq<State>, moves: seq<Move>, ns: seq<State>, i: nat)
    requires Walks(ms, moves, ns) && i < |ms|
    ensures |ns| == |ms| && Run(ms[i], Local(moves, i), ns[i])
    decreases |moves|
  {
    if moves != [] {
      LocalRun(After(ms, moves[0]), moves[1..], ns, i);
      if moves[0].who == i {
        Supervisor.RunCons(ms[i], moves[0].event, Local(moves[1..], i), ns[i]);
      } else {
        assert Local(moves, i) == Local(moves[1..], i);
      }
    }
  }

  /** Where a `stop()` has begun, all those before it have returned. */
  predicate InTurn(ms: seq<State>) {
    forall i, j :: 0 <= j < i < |ms| && !ms[i].stop.NotCalled? ==> ms[j].stop.Returned?
  }

  lemma StopAdvances(s: State, e: Event)
    requires Enabled(s, e)
    ensures s.stop.Returned? ==> Apply(s, e).stop.Returned?
    ensures s.stop.NotCalled? && !e.StopFlag? ==> Apply(s, e).stop.NotCalled?
  {
  }

  lemma {:induction false} WalkStaysInTurn(ms: seq<State>, moves: seq<Move>, ns: seq<State>)
    requires Walks(ms, moves, ns) && InTurn(ms)
    ensures InTurn(ns)
    decreases |moves|
  {
    if moves != [] {
      StopAdvances(ms[moves[0].who], moves[0].event);
      WalkStaysInTurn(After(ms, moves[0]), moves[1..], ns);
    }
  }

  /**
   Whenever the `stop()` of a service has begun, those of its dependents have returned: no
   dependent starts a process any more, and a process of a dependent is still alive only if the
   dependent's unhealthy path is ending it, or a poll, wait or kill on it failed.
   */
  lemma DependentsAreDown(
    services: seq<Service>, policy: Service -> RestartPolicy, moves: seq<Move>, ns: seq<State>, i: nat, j: nat)
    requires Validated(services) && Walks(Start(services, policy), moves, ns)
    requires i < |Order(services)| && j < |Order(services)| && Order(services)[j].name in Order(services)[i].dependsOn
    requires j < |ns| && !ns[j].stop.NotCalled?
    ensures |ns| == |Order(services)|
    ensures ns[i].stop.Returned? && ns[i].slot.None? && !ns[i].sup.Spawning? && !ns[i].sup.Placing?
    ensures forall p :: p in ns[i].alive ==>
      ((ns[i].sup.Ending? && ns[i].sup.pid == p)
        <==> p !in FailedInRun(Init(policy(Order(services)[i])), Local(moves, i)))
  {
    var start := Start(services, policy);
    LocalRun(start, moves, ns, i);
    StopsDependentsFirst(services, i, j);
    WalkStaysInTurn(start, moves, ns);
    assert Reachable(ns[i]);
    Supervisor.InvReachable(ns[i]);
    forall p | p in ns[i].alive
      ensures (ns[i].sup.Ending? && ns[i].sup.pid == p)
        <==> p !in FailedInRun(Init(policy(Order(services)[i])), Local(moves, i))
    {
      Supervisor.AliveAfterStop(policy(Order(services)[i]), Local(moves, i), ns[i], p);
    }
  }

  /** The moves of the machine at position `i`. */
  function By(i: nat, es: seq<Event>): (r: seq<Move>)
    ensures |r| == |es| && forall k :: 0 <= k < |r| ==> r[k] == Move(i, es[k])
  {
    seq(|es|, k requires 0 <= k < |es| => Move(i, es[k]))
  }

  lemma {:induction false} WalkAlone(ms: seq<State>, i: nat, es: seq<Event>, t: State)
    requires i < |ms| && Run(ms[i], es, t) && StopFlag !in es
    ensures Walks(ms, By(i, es), ms[i := t])
    decreases |es|
  {
    if es == [] {
      assert ms[i := t] == ms;
    } else {
      assert es[0] in es && forall e :: e in es[1..] ==> e in es;
      var next := After(ms, Move(i, es[0]));
      WalkAlone(next, i, es[1..], t);
      assert By(i, es)[1..] == By(i, es[1..]) && next[i := t] == ms[i := t];
    }
  }

  lemma {:induction false} WalksConcat(ms: seq<State>, a: seq<Move>, ns: seq<State>, b: seq<Move>, os: seq<State>)
    requires Walks(ms, a, ns) && Walks(ns, b, os)
    ensures Walks(ms, a + b, os)
    decreases |a|
  {
    if a == [] {
      assert a + b == b;
    } else {
      WalksConcat(After(ms, a[0]), a[1..], ns, b, os);
      assert (a + b)[1..] == a[1..] + b;
    }
  }

  predicate StoppedUpTo(ms: seq<State>, i: nat) {
    forall j :: 0 <= j < i && j < |ms| ==> ms[j].stop.Returned?
  }

  ghost predicate AllInv(ms: seq<State>) {
    forall j :: 0 <= j < |ms| ==> Inv(ms[j])
  }

  /** With all services before it stopped, the next one can be stopped. */
  lemma StopNext(ms: seq<State>, i: nat) returns (moves: seq<Move>, ns: seq<State>)
    requires i < |ms| && StoppedUpTo(ms, i) && AllInv(ms)
    ensures Walks(ms, moves, ns) && |ns| == |ms| && StoppedUpTo(ns, i + 1) && AllInv(ns)
  {
    var called, first := ms, [];
    if ms[i].stop.NotCalled? {
      called, first := After(ms, Move(i, StopFlag)), [Move(i, StopFlag)];
      Supervisor.InvStep(ms[i], StopFlag);
      assert Walks(called, [], called);
      assert first[1..] == [];
    }
    var es, t := Supervisor.FlaggedCanReturn(called[i]);
    Supervisor.InvRun(called[i], es, t);
    WalkAlone(called, i, es, t);
    moves, ns := first + By(i, es), called[i := t];
    WalksConcat(ms, first, called, By(i, es), ns);
  }

  lemma {:induction false} StopRest(ms: seq<State>, i: nat) returns (moves: seq<Move>, ns: seq<State>)
    requires i <= |ms| && StoppedUpTo(ms, i) && AllInv(ms)
    ensures Walks(ms, moves, ns) && |ns| == |ms| && StoppedUpTo(ns, |ns|)
    decreases |ms| - i
  {
    if i == |ms| {
      moves, ns := [], ms;
    } else {
      var now, next := StopNext(ms, i);
      moves, ns := StopRest(next, i + 1);
      WalksConcat(ms, now, next, moves, ns);
      moves := now + moves;
    }
  }

  /** However far the shutdown has come, and whatever the supervisors are doing, all services can be stopped. */
  lemma WalkCanFinish(services: seq<Service>, policy: Service -> RestartPolicy, moves: seq<Move>, ms: seq<State>)
    returns (more: seq<Move>, ns: seq<State>)
    requires Walks(Start(services, policy), moves, ms)
    ensures Walks(ms, more, ns) && |ns| == |Order(services)|
    ensures forall i :: 0 <= i < |ns| ==> ns[i].stop.Returned?
  {
    WalkKeepsCount(Start(services, policy), moves, ms);
    forall i | 0 <= i < |ms| ensures Inv(ms[i]) {
      LocalRun(Start(services, policy), moves, ms, i);
      assert Reachable(ms[i]);
      Supervisor.InvReachable(ms[i]);
    }
    more, ns := StopRest(ms, 0);
  }

  lemma {:induction false} WalkKeepsCount(ms: seq<State>, moves: seq<Move>, ns: seq<State>)
    requires Walks(ms, moves, ns)
    ensures |ns| == |ms|
    decreases |moves|
  {
    if moves != [] { WalkKeepsCount(After(ms, moves[0]), moves[1..], ns); }
  }
}
