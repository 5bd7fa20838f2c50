/** What every schedule of the shutdown protocol guarantees, by an invariant of its steps. */
module Shutdown {
  import opened Services
  import opened StopOrder
  import opened ShutdownProtocol

  // ---- The inductive invariant ----

  lemma StepKeepsWaiters(s: State, i: nat)
    requires Inv(s) && Enabled(s, i)
    ensures WaitersOk(Apply(s, i))
  {
  }

  lemma StepKeepsWinner(s: State, i: nat)
    requires Inv(s) && Enabled(s, i)
    ensures WinnerUnique(Apply(s, i)) && WinnerExists(Apply(s, i))
  {
    var t := Apply(s, i);
    if s.shuttingDown {
      var w :| 0 <= w < |s.callers| && IsWinner(s.callers[w]);
      assert IsWinner(t.callers[w]);
    } else {
      assert IsWinner(t.callers[i]);
    }
  }

  lemma StepKeepsWinnerState(s: State, i: nat)
    requires Inv(s) && Enabled(s, i)
    ensures WinnerOk(Apply(s, i))
  {
    var t := Apply(s, i);
    assert IsWinner(s.callers[i]) ==> forall j :: 0 <= j < |s.callers| && j != i ==> !IsWinner(s.callers[j]);
    forall j | 0 <= j < |t.callers| && IsWinner(t.callers[j]) ensures t.shuttingDown && WinnerInv(t, t.callers[j]) {
    }
  }

  lemma InvStep(s: State, i: nat)
    requires Inv(s) && Enabled(s, i)
    ensures Inv(Apply(s, i))
  {
    StepKeepsWaiters(s, i);
    StepKeepsWinner(s, i);
    StepKeepsWinnerState(s, i);
  }

  lemma {:induction false} InvRun(s: State, schedule: seq<nat>, t: State)
    requires Inv(s) && Run(s, schedule, t)
    ensures Inv(t) && t.order == s.order && |t.callers| == |s.callers|
    decreases |schedule|
  {
    if schedule != [] {
      InvStep(s, schedule[0]);
      InvRun(Apply(s, schedule[0]), schedule[1..], t);
    }
  }

  lemma InvReachable(services: seq<Service>, t: State)
    requires Reachable(services, t)
    ensures Inv(t) && t.order == Order(services)
  {
    var n, schedule :| Run(Init(services, n), schedule, t);
    InvRun(Init(services, n), schedule, t);
  }

  // ---- What every schedule guarantees ----

  lemma OneWinner(services: seq<Service>, s: State, i: nat, j: nat)
    requires Reachable(services, s) && i < |s.callers| && j < |s.callers|
    requires IsWinner(s.callers[i]) && IsWinner(s.callers[j])
    ensures i == j
  {
    InvReachable(services, s);
  }

  /** Services are stopped in their order, after bridge streams are refused, and all of them before completion. */
  lemma StopsInOrder(services: seq<Service>, s: State)
    requires Reachable(services, s)
    ensures s.stopped <= Order(services) && (s.complete ==> s.stopped == Order(services))
    ensures s.stopped != [] || s.complete ==> s.shuttingDown && !s.accepting
    ensures !s.shuttingDown ==> s.accepting
  {
    InvReachable(services, s);
    if s.shuttingDown {
      var w :| 0 <= w < |s.callers| && IsWinner(s.callers[w]);
      assert WinnerInv(s, s.callers[w]);
    }
  }

  /** Both results mean that every service of the order has been stopped. */
  lemma ReturnsAfterAllStopped(services: seq<Service>, s: State, i: nat)
    requires Reachable(services, s) && i < |s.callers| && Finished(s.callers[i])
    ensures s.complete && !s.accepting && s.stopped == Order(services)
  {
    InvReachable(services, s);
    var w :| 0 <= w < |s.callers| && IsWinner(s.callers[w]);
  }

  lemma {:induction false} FlagsAreMonotone(s: State, schedule: seq<nat>, t: State)
    requires Run(s, schedule, t)
    ensures !s.accepting ==> !t.accepting
    ensures s.complete ==> t.complete
    ensures s.shuttingDown ==> t.shuttingDown
    decreases |schedule|
  {
    if schedule != [] { FlagsAreMonotone(Apply(s, schedule[0]), schedule[1..], t); }
  }

  /** No lost wake-up: once the winner has returned, every caller that has not can take a step. */
  lemma NoLostWakeup(services: seq<Service>, s: State, w: nat, i: nat)
    requires Reachable(services, s) && w < |s.callers| && s.callers[w].ReturnedTrue?
    requires i < |s.callers| && !Finished(s.callers[i])
    ensures Enabled(s, i)
  {
    InvReachable(services, s);
  }

  /** No deadlock: while some caller has not returned, some caller can take a step. */
  lemma SomeCallerEnabled(services: seq<Service>, s: State, i: nat) returns (j: nat)
    requires Reachable(services, s) && i < |s.callers| && !Finished(s.callers[i])
    ensures Enabled(s, j)
  {
    InvReachable(services, s);
    if s.shuttingDown {
      j :| 0 <= j < |s.callers| && IsWinner(s.callers[j]);
      if Finished(s.callers[j]) { j := i; }
    } else {
      j := i;
    }
  }

  /** At any moment, whatever has been stopped had all its dependents stopped before it. */
  lemma StoppedAfterDependents(services: seq<Service>, s: State, k: nat, d: Service)
    requires Validated(services) && Reachable(services, s) && k < |s.stopped|
    requires d in services && s.stopped[k].name in d.dependsOn
    ensures d in s.stopped[..k]
  {
    InvReachable(services, s);
    var o := Order(services);
    assert s.stopped <= o by {
      if s.shuttingDown { var w :| 0 <= w < |s.callers| && IsWinner(s.callers[w]); }
    }
    OrderIsPermutation(services);
    assert d in multiset(services);
    assert d in multiset(o);
    var i :| 0 <= i < |o| && o[i] == d;
    StopsDependentsFirst(services, i, k);
  }

  // ---- Every schedule ends ----

  lemma {:induction false} TotalLeftUpdate(s: State, t: State, a: seq<Caller>, i: nat, c: Caller)
    requires i < |a| && forall x :: x in a ==> StepsLeft(t, x) <= StepsLeft(s, x)
    requires StepsLeft(t, c) < StepsLeft(s, a[i])
    ensures TotalLeft(t, a[i := c]) < TotalLeft(s, a)
    decreases |a|
  {
    if i == 0 {
      assert a[0 := c][1..] == a[1..];
      TotalLeftMonotone(s, t, a[1..]);
    } else {
      assert a[i := c][1..] == a[1..][i - 1 := c];
      assert a[0] in a;
      TotalLeftUpdate(s, t, a[1..], i - 1, c);
    }
  }

  lemma {:induction false} TotalLeftMonotone(s: State, t: State, a: seq<Caller>)
    requires forall x :: x in a ==> StepsLeft(t, x) <= StepsLeft(s, x)
    ensures TotalLeft(t, a) <= TotalLeft(s, a)
  {
    if a != [] {
      assert a[0] in a;
      TotalLeftMonotone(s, t, a[1..]);
    }
  }

  lemma StepShortens(s: State, i: nat)
    requires Inv(s) && Enabled(s, i)
    ensures TotalLeft(Apply(s, i), Apply(s, i).callers) < TotalLeft(s, s.callers)
  {
    var t := Apply(s, i);
    assert t.callers == s.callers[i := t.callers[i]];
    assert StepsLeft(t, t.callers[i]) < StepsLeft(s, s.callers[i]) by {
      if s.callers[i].Sleeping? || s.callers[i].Checking? {
        var w :| 0 <= w < |s.callers| && IsWinner(s.callers[w]);
      }
    }
    TotalLeftUpdate(s, t, s.callers, i, t.callers[i]);
  }

  lemma {:induction false} RunLength(s: State, schedule: seq<nat>, t: State)
    requires Inv(s) && Run(s, schedule, t)
    ensures |schedule| + TotalLeft(t, t.callers) <= TotalLeft(s, s.callers)
    decreases |schedule|
  {
    if schedule != [] {
      InvStep(s, schedule[0]);
      StepShortens(s, schedule[0]);
      RunLength(Apply(s, schedule[0]), schedule[1..], t);
    }
  }

  lemma {:induction false} AllEntering(s: State, a: seq<Caller>, k: nat)
    requires (forall c :: c in a ==> c == Entering) && k == StepsLeft(s, Entering)
    ensures TotalLeft(s, a) == |a| * k
  {
    if a != [] {
      var rest := a[1..];
      assert a[0] in a;
      assert forall c :: c in rest ==> c in a;
      AllEntering(s, rest, k);
      OneMore(|rest|, k);
    }
  }

  lemma OneMore(n: nat, k: nat)
    ensures (n + 1) * k == k + n * k
  {
  }

  /** Every schedule is finite, with a bound in the number of callers and services. */
  lemma ScheduleBounded(services: seq<Service>, n: nat, schedule: seq<nat>, t: State)
    requires Run(Init(services, n), schedule, t)
    ensures |schedule| <= n * (|Order(services)| + 10)
  {
    var s := Init(services, n);
    RunLength(s, schedule, t);
    AllEntering(s, s.callers, |s.order| + 10);
  }

  /** A schedule that cannot be extended has let every caller return, exactly one with true. */
  lemma EveryCallerReturns(services: seq<Service>, n: nat, schedule: seq<nat>, t: State)
    requires n > 0 && Run(Init(services, n), schedule, t) && forall i :: !Enabled(t, i)
    ensures |t.callers| == n && forall i :: 0 <= i < n ==> Finished(t.callers[i])
    ensures exists w :: WonAlone(t.callers, w)
  {
    InvRun(Init(services, n), schedule, t);
    forall i | 0 <= i < n ensures Finished(t.callers[i]) {
      if !Finished(t.callers[i]) { var j := SomeCallerEnabled(services, t, i); }
    }
    assert Finished(t.callers[0]);
    assert t.shuttingDown;
    var w :| 0 <= w < n && IsWinner(t.callers[w]);
    assert Finished(t.callers[w]);
    assert WonAlone(t.callers, w);
  }
}
