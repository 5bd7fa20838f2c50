/** What every interleaving of the supervisor protocol guarantees, by an invariant of its events. */
module Supervisor {
  import opened SupervisorProtocol
  import opened Options

  // ---- The inductive invariant ----

  lemma NumbersStep(s: State, e: Event)
    requires Inv(s) && Enabled(s, e)
    ensures var t := Apply(s, e); forall p :: p in t.alive + Custody(t) + t.abandoned ==> p < t.spawned
  {
    var t := Apply(s, e);
    forall p | p in t.alive + Custody(t) + t.abandoned ensures p < t.spawned {
      assert p in s.alive + Custody(s) + s.abandoned || p == s.spawned;
    }
  }

  lemma CustodyStep(s: State, e: Event)
    requires Inv(s) && Enabled(s, e)
    ensures var t := Apply(s, e); forall p :: p in Custody(t) ==> p !in t.abandoned
  {
    var t := Apply(s, e);
    forall p | p in Custody(t) ensures p !in t.abandoned { assert p in Custody(s) || p == s.spawned; }
  }

  lemma OwnershipStep(s: State, e: Event)
    requires Inv(s) && Enabled(s, e)
    ensures Ownership(Apply(s, e))
  {
    NumbersStep(s, e);
    CustodyStep(s, e);
  }

  lemma InvStep(s: State, e: Event)
    requires Inv(s) && Enabled(s, e)
    ensures Inv(Apply(s, e))
  {
    OwnershipStep(s, e);
  }

  lemma {:induction false} InvRun(s: State, es: seq<Event>, t: State)
    requires Inv(s) && Run(s, es, t)
    ensures Inv(t)
    decreases |es|
  {
    if es != [] {
      InvStep(s, es[0]);
      InvRun(Apply(s, es[0]), es[1..], t);
    }
  }

  lemma InvReachable(t: State)
    requires Reachable(t)
    ensures Inv(t)
  {
    var policy, es :| Run(Init(policy), es, t);
    InvRun(Init(policy), es, t);
  }

  // ---- What every interleaving guarantees ----

  /** A start never overwrites a child in the slot, and never runs beside a live one it knows of. */
  lemma StartFindsSlotEmpty(s: State)
    requires Reachable(s) && (s.sup.Spawning? || s.sup.Placing?)
    ensures s.slot.None? && !s.stop.StopEnding? && !s.stop.Returned?
    ensures s.sup.Spawning? ==> s.alive <= s.abandoned
  {
    InvReachable(s);
  }

  /** At most one live instance of the service exists, apart from processes the system lost track of. */
  lemma SingleInstance(s: State, p: nat, q: nat)
    requires Reachable(s) && p in s.alive - s.abandoned && q in s.alive - s.abandoned
    ensures p == q
  {
    InvReachable(s);
  }

  /** Once `stop()` has taken the slot it stays empty, nothing is spawned and no process appears. */
  lemma {:induction false} NothingStartsAfterStop(s: State, es: seq<Event>, t: State)
    requires Reachable(s) && StopTook(s) && Run(s, es, t)
    ensures StopTook(t) && t.slot.None? && t.spawned == s.spawned && t.alive <= s.alive
  {
    InvReachable(s);
    FrozenRun(s, es, t);
  }

  lemma {:induction false} FrozenRun(s: State, es: seq<Event>, t: State)
    requires Inv(s) && StopTook(s) && Run(s, es, t)
    ensures StopTook(t) && t.slot.None? && t.spawned == s.spawned && t.alive <= s.alive
    decreases |es|
  {
    if es != [] {
      InvStep(s, es[0]);
      FrozenRun(Apply(s, es[0]), es[1..], t);
    }
  }

  /**
   When `stop()` has returned, a process still alive is being ended by the supervisor's unhealthy
   path exactly if no poll, wait or kill on it has failed.
   */
  lemma AliveAfterStop(policy: RestartPolicy, es: seq<Event>, t: State, p: nat)
    requires Run(Init(policy), es, t) && t.stop.Returned? && p in t.alive
    ensures (t.sup.Ending? && t.sup.pid == p) <==> p !in FailedInRun(Init(policy), es)
  {
    InvReachable(t);
    AbandonedExactly(Init(policy), es, t);
  }

  /** A process is given up exactly by a poll, wait or kill on it that fails. */
  lemma {:induction false} AbandonedExactly(s: State, es: seq<Event>, t: State)
    requires Run(s, es, t)
    ensures t.abandoned == s.abandoned + FailedInRun(s, es)
    decreases |es|
  {
    if es != [] { AbandonedExactly(Apply(s, es[0]), es[1..], t); }
  }

  /**
   After `stop()` only the process that the unhealthy path is ending can be alive, if and only
   if every process on which a poll, wait or kill failed is dead.
   */
  lemma OnlyEndingAliveIff(policy: RestartPolicy, es: seq<Event>, t: State)
    requires Run(Init(policy), es, t) && t.stop.Returned?
    ensures (forall p :: p in t.alive ==> t.sup.Ending? && t.sup.pid == p) <==> t.alive !! FailedInRun(Init(policy), es)
  {
    forall p | p in t.alive
      ensures (t.sup.Ending? && t.sup.pid == p) <==> p !in FailedInRun(Init(policy), es)
    {
      AliveAfterStop(policy, es, t, p);
    }
  }

  lemma {:induction false} NothingFailed(s: State, es: seq<Event>)
    requires forall e :: e in es ==> !IsOsError(e)
    ensures FailedInRun(s, es) == {}
    decreases |es|
  {
    if es != [] && Enabled(s, es[0]) {
      assert es[0] in es;
      NothingFailed(Apply(s, es[0]), es[1..]);
    }
  }

  /** Without operating-system errors the supervisor's unhealthy path is the only exception. */
  lemma StopLeavesOnlyEndingProcess(policy: RestartPolicy, es: seq<Event>, t: State, p: nat)
    requires Run(Init(policy), es, t) && t.stop.Returned? && p in t.alive
    requires forall e :: e in es ==> !IsOsError(e)
    ensures t.sup.Ending? && t.sup.pid == p
  {
    AliveAfterStop(policy, es, t, p);
    NothingFailed(Init(policy), es);
  }

  /** The shortest run to a watched process. */
  lemma FirstStart(policy: RestartPolicy) returns (es: seq<Event>, t: State)
    ensures Run(Init(policy), es, t)
    ensures t == Init(policy).(sup := Watching, slot := Some(0), spawned := 1, alive := {0})
  {
    var s0 := Init(policy);
    var s1 := Apply(s0, LoopHead);
    var s2 := Apply(s1, NoDependencies);
    var s3 := Apply(s2, Prepare(true));
    var s4 := Apply(s3, AcquireSlot);
    var s5 := Apply(s4, RecheckStopping);
    var s6 := Apply(s5, Spawn(true));
    t := Apply(s6, Place);
    RunCons(s6, Place, [], t);
    RunCons(s5, Spawn(true), [Place], t);
    es := [RecheckStopping] + [Spawn(true), Place];
    RunCons(s4, RecheckStopping, [Spawn(true), Place], t);
    RunCons(s3, AcquireSlot, es, t);
    es := [AcquireSlot] + es;
    RunCons(s2, Prepare(true), es, t);
    es := [Prepare(true)] + es;
    RunCons(s1, NoDependencies, es, t);
    es := [NoDependencies] + es;
    RunCons(s0, LoopHead, es, t);
    es := [LoopHead] + es;
  }

  /**
   The error case is real: one failed poll drops the child while it runs; `stop()` then finds
   an empty slot and returns with the process alive and nobody ending it.
   */
  lemma FailedPollLeavesProcess() returns (t: State)
    ensures Reachable(t) && t.stop.Returned? && t.sup.Done? && 0 in t.alive
  {
    var es, s0 := FirstStart(Always);
    var s1 := Apply(s0, TryWait(PollFailed));
    var s2 := Apply(s1, StopFlag);
    var s3 := Apply(s2, StopTake);
    t := Apply(s3, Decide);
    RunCons(s3, Decide, [], t);
    RunCons(s2, StopTake, [Decide], t);
    RunCons(s1, StopFlag, [StopTake, Decide], t);
    RunCons(s0, TryWait(PollFailed), [StopFlag, StopTake, Decide], t);
    RunAppend(Init(Always), es, s0, [TryWait(PollFailed)] + [StopFlag, StopTake, Decide], t);
  }

  lemma {:induction false} RunAppend(s: State, es: seq<Event>, u: State, fs: seq<Event>, t: State)
    requires Run(s, es, u) && Run(u, fs, t)
    ensures Run(s, es + fs, t)
    decreases |es|
  {
    if es == [] {
      assert es + fs == fs;
    } else {
      RunAppend(Apply(s, es[0]), es[1..], u, fs, t);
      assert (es + fs)[1..] == es[1..] + fs;
    }
  }

  lemma RunCons(s: State, e: Event, es: seq<Event>, t: State)
    requires Enabled(s, e) && Run(Apply(s, e), es, t)
    ensures Run(s, [e] + es, t)
  {
    assert ([e] + es)[1..] == es;
  }

  // ---- What the restart policy means over a whole run ----

  /** Past the one start that the policy `Never` allows. */
  predicate StartedOnce(s: State) {
    s.spawned == 0 || (s.spawned == 1 && (s.sup.Placing? || s.sup.Watching? || s.sup.ProbingHealth? || s.sup.Taking?
        || s.sup.Ending? || s.sup.Deciding? || s.sup.Done?))
  }

  lemma {:induction false} PolicyRun(s: State, es: seq<Event>, t: State)
    requires Run(s, es, t)
    ensures t.policy == s.policy
    ensures s.policy.Never? && StartedOnce(s) ==> StartedOnce(t)
    ensures s.policy.Always? && (s.sup.Done? ==> s.stopping) ==> (t.sup.Done? ==> t.stopping)
    decreases |es|
  {
    if es != [] { PolicyRun(Apply(s, es[0]), es[1..], t); }
  }

  /** A service that is never restarted is started at most once, one that always is only leaves after `stop()`. */
  lemma PolicyObeyed(policy: RestartPolicy, es: seq<Event>, t: State)
    requires Run(Init(policy), es, t)
    ensures policy.Never? ==> t.spawned <= 1
    ensures policy.Always? && t.sup.Done? ==> t.stopping
  {
    PolicyRun(Init(policy), es, t);
  }

  lemma WatchedStep(s: State, e: Event)
    requires Enabled(s, e) && Control(s) && Watched(s)
    ensures Watched(Apply(s, e))
  {
  }

  predicate CleanExit(s: State, e: Event) {
    e == TryWait(Exited(true)) && s.slot.Some?
  }

  /** Some poll of the run took a child out of the slot that had exited successfully. */
  ghost predicate ExitsCleanly(s: State, es: seq<Event>)
    decreases |es|
  {
    es != [] && Enabled(s, es[0]) && (CleanExit(s, es[0]) || ExitsCleanly(Apply(s, es[0]), es[1..]))
  }

  lemma {:induction false} LeavesAfterCleanExit(s: State, es: seq<Event>, t: State)
    requires Run(s, es, t) && Inv(s) && Watched(s) && s.policy.OnFailure?
    requires !s.stopping ==> !s.sup.Done? && s.sup != Deciding(true)
    ensures t.sup.Done? && !t.stopping ==> ExitsCleanly(s, es)
    decreases |es|
  {
    if es != [] && !CleanExit(s, es[0]) {
      InvStep(s, es[0]);
      WatchedStep(s, es[0]);
      LeavesAfterCleanExit(Apply(s, es[0]), es[1..], t);
    }
  }

  /** A service with the policy `OnFailure` is given up only after a clean exit, unless `stop()` was called. */
  lemma FailureIsRestarted(es: seq<Event>, t: State)
    requires Run(Init(OnFailure), es, t) && t.sup.Done? && !t.stopping
    ensures ExitsCleanly(Init(OnFailure), es)
  {
    LeavesAfterCleanExit(Init(OnFailure), es, t);
  }

  lemma {:induction false} DecidedForGood(s: State, es: seq<Event>, t: State)
    requires Run(s, es, t) && s.policy.OnFailure? && (s.sup == Deciding(true) || s.sup.Done?)
    ensures t.spawned == s.spawned
    decreases |es|
  {
    if es != [] { DecidedForGood(Apply(s, es[0]), es[1..], t); }
  }

  /** After a clean exit such a service is never started again. */
  lemma SuccessIsFinal(s: State, es: seq<Event>, t: State)
    requires s.policy.OnFailure? && es != [] && Run(s, es, t) && CleanExit(s, es[0])
    ensures t.spawned == s.spawned
  {
    DecidedForGood(Apply(s, es[0]), es[1..], t);
  }

  /** The supervisor ends a process only after a failed health probe. */
  lemma {:induction false} EndedOnlyIfUnhealthy(s: State, es: seq<Event>, t: State)
    requires Run(s, es, t) && !s.sup.Taking? && !s.sup.Ending?
    requires ProbeHealth(false) !in es
    ensures !t.sup.Taking? && !t.sup.Ending?
    decreases |es|
  {
    if es != [] {
      assert es[0] in es && forall e :: e in es[1..] ==> e in es;
      EndedOnlyIfUnhealthy(Apply(s, es[0]), es[1..], t);
    }
  }

  /** A required service that is alive past its grace period and fails its probe is sent SIGTERM. */
  lemma UnhealthyIsEnded(s: State) returns (es: seq<Event>, t: State)
    requires Inv(s) && s.sup.Watching? && s.slot.Some? && s.slot.value in s.alive
    ensures Run(s, es, t) && t.sup == Ending(s.slot.value, true) && t.slot.None? && t.alive == s.alive
    ensures es == [TryWait(Running(true)), ProbeHealth(false), TakeUnhealthy, SendTerm]
  {
    var s1 := Apply(s, TryWait(Running(true)));
    var s2 := Apply(s1, ProbeHealth(false));
    var s3 := Apply(s2, TakeUnhealthy);
    t := Apply(s3, SendTerm);
    RunCons(s3, SendTerm, [], t);
    RunCons(s2, TakeUnhealthy, [SendTerm], t);
    es := [TakeUnhealthy] + [SendTerm];
    RunCons(s1, ProbeHealth(false), es, t);
    es := [ProbeHealth(false)] + es;
    RunCons(s, TryWait(Running(true)), es, t);
    es := [TryWait(Running(true))] + es;
  }

  /** `stop()` never waits for, or kills, a process that it has not sent SIGTERM. */
  lemma {:induction false} TermBeforeWait(s: State, es: seq<Event>, t: State)
    requires Run(s, es, t) && StopSendTerm !in es && !(s.stop.StopEnding? && s.stop.signalled)
    ensures !(t.stop.StopEnding? && t.stop.signalled)
    ensures forall o :: StopFinish(o) !in es
    decreases |es|
  {
    if es != [] {
      assert es[0] in es && es == [es[0]] + es[1..];
      TermBeforeWait(Apply(s, es[0]), es[1..], t);
    }
  }

  /** A `stop()` that took a child can always go on to its return, by SIGTERM and the wait for the process. */
  lemma StopCanReturn(s: State) returns (es: seq<Event>, t: State)
    requires s.stop.StopEnding?
    ensures Run(s, es, t) && t.stop.Returned? && s.stop.pid !in t.alive
    ensures es == (if s.stop.signalled then [] else [StopSendTerm]) + [StopFinish(Killed)]
  {
    var s1 := if s.stop.signalled then s else Apply(s, StopSendTerm);
    t := Apply(s1, StopFinish(Killed));
    RunCons(s1, StopFinish(Killed), [], t);
    es := [StopFinish(Killed)];
    if !s.stop.signalled {
      RunCons(s, StopSendTerm, es, t);
      es := [StopSendTerm] + es;
    }
  }

  /** The supervisor gives the slot back, without a new process if it has none yet. */
  lemma Unlock(s: State) returns (es: seq<Event>, t: State)
    requires Inv(s) && s.stop.Flagged?
    ensures Run(s, es, t) && Inv(t) && t.stop.Flagged? && !t.locked && StopFlag !in es
  {
    es, t := [], s;
    if s.locked {
      var e := if s.sup.Locked? then RecheckStopping else if s.sup.Spawning? then Spawn(false) else Place;
      t := Apply(s, e);
      InvStep(s, e);
      RunCons(s, e, [], t);
      es := [e];
    }
  }

  /** Whatever the supervisor is doing, a `stop()` that was called can go on to its return. */
  lemma FlaggedCanReturn(s: State) returns (es: seq<Event>, t: State)
    requires Inv(s) && !s.stop.NotCalled?
    ensures Run(s, es, t) && t.stop.Returned? && StopFlag !in es
  {
    if s.stop.Returned? {
      es, t := [], s;
    } else if s.stop.StopEnding? {
      es, t := StopCanReturn(s);
    } else {
      var free;
      es, free := Unlock(s);
      var taken := Apply(free, StopTake);
      var rest := [];
      t := taken;
      if taken.stop.StopEnding? { rest, t := StopCanReturn(taken); }
      RunCons(free, StopTake, rest, t);
      RunAppend(s, es, free, [StopTake] + rest, t);
      es := es + ([StopTake] + rest);
    }
  }

  // ---- The supervisor leaves soon after the slot is taken ----

  /**
   After `stop()` took the slot the supervisor takes at most six more steps, whatever the
   other parties do, and as long as it has not left its loop one of its steps is enabled.
   */
  lemma SupervisorLeaves(s: State, es: seq<Event>, t: State)
    requires Reachable(s) && StopTook(s) && Run(s, es, t)
    ensures SupervisorSteps(es) <= 6
    ensures !t.sup.Done? ==> exists e :: OfSupervisor(e) && Enabled(t, e)
  {
    InvReachable(s);
    InvRun(s, es, t);
    StepsBounded(s, es, t);
    FrozenRun(s, es, t);
    if !t.sup.Done? {
      var e := NextSupervisorEvent(t);
      assert Enabled(t, e);
    }
  }

  lemma {:induction false} StepsBounded(s: State, es: seq<Event>, t: State)
    requires Inv(s) && StopTook(s) && Run(s, es, t)
    ensures SupervisorSteps(es) + StepsRemaining(t.sup) <= StepsRemaining(s.sup)
    decreases |es|
  {
    if es != [] {
      InvStep(s, es[0]);
      StepsBounded(Apply(s, es[0]), es[1..], t);
    }
  }
}
