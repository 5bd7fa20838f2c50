/**
 The idle state of a container agent: one evaluation per poll, the action it fires once the
 agent has been idle long enough, and the loop around it.
 */
module IdleMachine {
  import opened ReapPlan
  import opened Options

  datatype StateName = IdlePending | Attached | PreservedState | ShutdownState | ReapState

  datatype Action = ExitContainer | ReapProcesses | NoAction

  datatype Transition = NoTransition | Shutdown | Reap

  datatype Config = Config(grace: nat, action: Action)

  /** What one evaluation reads: counters, the matching processes and the clock. */
  datatype Seen = Seen(streams: nat, sessions: nat, matched: seq<Match>, now: nat)

  datatype Idle = Idle(
    state: StateName,
    idleSince: Option<nat>,
    preserve: bool,
    preserveReason: Option<string>,
    matched: seq<Match>,
    lastReap: Option<ReapResult>)

  const INITIAL := Idle(IdlePending, None, false, None, [], None)

  predicate Quiet(e: Seen) {
    e.streams == 0 && e.sessions == 0 && e.matched == []
  }

  /** When the current idle stretch began, as far as the machine remembers. */
  function Since(idleSince: Option<nat>, e: Seen): nat {
    if idleSince.Some? then idleSince.value else e.now
  }

  /** The instants come from one monotone clock; an earlier one would count as no time at all. */
  function Elapsed(from: nat, to: nat): nat {
    if from <= to then to - from else 0
  }

  function Decide(cfg: Config, idleSince: Option<nat>, e: Seen): Transition {
    if !Quiet(e) || Elapsed(Since(idleSince, e), e.now) < cfg.grace then NoTransition
    else match cfg.action case ExitContainer => Shutdown case ReapProcesses => Reap case NoAction => NoTransition
  }

  function Evaluate(cfg: Config, i: Idle, e: Seen): Idle {
    if e.streams > 0 || e.sessions > 0 then Idle(Attached, None, false, None, [], i.lastReap)
    else if e.matched != [] then
      Idle(PreservedState, None, true, Some("process:" + e.matched[0].comm), e.matched, i.lastReap)
    else
      Idle(if Decide(cfg, i.idleSince, e) == Shutdown then ShutdownState else IdlePending,
        Some(Since(i.idleSince, e)), false, None, [], i.lastReap)
  }

  function AfterReap(i: Idle, result: ReapResult, finished: nat): Idle {
    i.(state := ReapState, lastReap := Some(result), idleSince := Some(finished))
  }

  /** One turn of the loop; `reaped` and `finished` matter only if it reaps. */
  datatype Turn = Turn(shuttingDown: bool, seen: Seen, reaped: ReapResult, finished: nat)

  function Step(cfg: Config, i: Idle, t: Turn): Idle {
    var next := Evaluate(cfg, i, t.seen);
    if Decide(cfg, i.idleSince, t.seen) == Reap then AfterReap(next, t.reaped, t.finished) else next
  }

  /** The idle state after the first `n` turns. */
  function After(cfg: Config, h: seq<Turn>, n: nat): Idle
    requires n <= |h|
  {
    if n == 0 then INITIAL else Step(cfg, After(cfg, h, n - 1), h[n - 1])
  }

  /** The remembered instant alone, after the first `n` turns. */
  function SinceAfter(cfg: Config, h: seq<Turn>, n: nat): Option<nat>
    requires n <= |h|
  {
    if n == 0 then None else NextSince(cfg, SinceAfter(cfg, h, n - 1), h[n - 1])
  }

  /** Activity clears the instant, a reap moves it to its own end, any other quiet turn keeps it. */
  function NextSince(cfg: Config, idleSince: Option<nat>, t: Turn): Option<nat> {
    if !Quiet(t.seen) then None
    else if Decide(cfg, idleSince, t.seen) == Reap then Some(t.finished)
    else Some(Since(idleSince, t.seen))
  }

  lemma {:induction false} AfterRemembers(cfg: Config, h: seq<Turn>, n: nat)
    requires n <= |h|
    ensures After(cfg, h, n).idleSince == SinceAfter(cfg, h, n)
  {
    if n > 0 { AfterRemembers(cfg, h, n - 1); }
  }

  /** What evaluation `n` of the history answers. */
  function Fired(cfg: Config, h: seq<Turn>, n: nat): Transition
    requires n < |h|
  {
    Decide(cfg, SinceAfter(cfg, h, n), h[n].seen)
  }

  // ---- The state as the agent updates it in place ----

  class IdleRuntimeState {
    var state: StateName
    var idleSince: Option<nat>
    var preserve: bool
    var preserveReason: Option<string>
    var matchedProcesses: seq<Match>
    var lastReapResult: Option<ReapResult>

    function Value(): Idle
      reads this
    {
      Idle(state, idleSince, preserve, preserveReason, matchedProcesses, lastReapResult)
    }

    constructor ()
      ensures Value() == INITIAL
    {
      state, idleSince, preserve := IdlePending, None, false;
      preserveReason, matchedProcesses, lastReapResult := None, [], None;
    }

    method EvaluateIdleState(cfg: Config, e: Seen) returns (r: Transition)
      modifies this
      ensures r == Decide(cfg, old(idleSince), e)
      ensures (r.Shutdown? ==> cfg.action.ExitContainer?) && (r.Reap? ==> cfg.action.ReapProcesses?)
      ensures Value() == Evaluate(cfg, old(Value()), e)
    {
      if e.streams > 0 || e.sessions > 0 {
        state, idleSince, preserve, preserveReason, matchedProcesses := Attached, None, false, None, [];
        return NoTransition;
      }
      if e.matched != [] {
        state, idleSince, preserve := PreservedState, None, true;
        preserveReason := Some("process:" + e.matched[0].comm);
        matchedProcesses := e.matched;
        return NoTransition;
      }
      if idleSince.None? { idleSince := Some(e.now); }
      state, preserve, preserveReason, matchedProcesses := IdlePending, false, None, [];
      if Elapsed(idleSince.value, e.now) < cfg.grace { return NoTransition; }
      match cfg.action {
        case ExitContainer =>
          state := ShutdownState;
          r := Shutdown;
        case ReapProcesses => r := Reap;
        case NoAction => r := NoTransition;
      }
    }

    method RecordReap(result: ReapResult, finished: nat)
      modifies this
      ensures Value() == AfterReap(old(Value()), result, finished)
      ensures forall cfg, e :: Decide(cfg, idleSince, e) != NoTransition ==> Elapsed(finished, e.now) >= cfg.grace
    {
      state, lastReapResult, idleSince := ReapState, Some(result), Some(finished);
    }

    /** One evaluation, and the reap it may call for. */
    method Poll(cfg: Config, turn: Turn) returns (r: Transition)
      modifies this
      ensures r == Decide(cfg, old(idleSince), turn.seen)
      ensures Value() == Step(cfg, old(Value()), turn)
    {
      r := EvaluateIdleState(cfg, turn.seen);
      if r == Reap { RecordReap(turn.reaped, turn.finished); }
    }

    /** The polling loop: it ends once shutdown is under way, at the latest one turn after starting it. */
    method RunIdleCleanup(cfg: Config, turns: seq<Turn>) returns (answers: seq<Transition>)
      requires Value() == INITIAL
      modifies this
      ensures |answers| <= |turns| && Value() == After(cfg, turns, |answers|)
      ensures Answered(cfg, turns, answers)
      ensures |answers| < |turns| ==>
        turns[|answers|].shuttingDown || (answers != [] && answers[|answers| - 1] == Shutdown)
      ensures Shutdown in answers ==> cfg.action.ExitContainer?
      ensures Reap in answers ==> cfg.action.ReapProcesses?
    {
      answers := [];
      var shuttingDown := false;
      for n := 0 to |turns|
        invariant n == |answers| && Value() == After(cfg, turns, n)
        invariant Answered(cfg, turns, answers)
        invariant shuttingDown <==> n > 0 && answers[n - 1] == Shutdown
      {
        if shuttingDown || turns[n].shuttingDown {
          AnswersConfigured(cfg, turns, answers);
          return;
        }
        AfterRemembers(cfg, turns, n);
        ghost var before := answers;
        var transition := Poll(cfg, turns[n]);
        assert transition == Fired(cfg, turns, n);
        answers := answers + [transition];
        shuttingDown := transition == Shutdown;
        AnsweredMore(cfg, turns, before, transition);
      }
      AnswersConfigured(cfg, turns, answers);
    }
  }

  /** The answers are those of the history, and a shutdown can only be the last of them. */
  ghost predicate Answered(cfg: Config, turns: seq<Turn>, answers: seq<Transition>) {
    && |answers| <= |turns|
    && (forall i: nat :: i < |answers| ==> answers[i] == Fired(cfg, turns, i) && !turns[i].shuttingDown)
    && (forall i: nat :: i < |answers| - 1 ==> answers[i] != Shutdown)
  }

  lemma AnswersConfigured(cfg: Config, turns: seq<Turn>, answers: seq<Transition>)
    requires Answered(cfg, turns, answers)
    ensures Shutdown in answers ==> cfg.action.ExitContainer?
    ensures Reap in answers ==> cfg.action.ReapProcesses?
  {
  }

  lemma AnsweredMore(cfg: Config, turns: seq<Turn>, answers: seq<Transition>, next: Transition)
    requires Answered(cfg, turns, answers) && |answers| < |turns| && !turns[|answers|].shuttingDown
    requires next == Fired(cfg, turns, |answers|) && (answers != [] ==> answers[|answers| - 1] != Shutdown)
    ensures Answered(cfg, turns, answers + [next])
  {
  }

  // ---- When the machine fires, in terms of the history alone ----

  /** The clock never goes back, also while a reap runs. */
  ghost predicate Timely(h: seq<Turn>) {
    && (forall i :: 0 <= i < |h| ==> h[i].seen.now <= h[i].finished)
    && (forall i, j :: 0 <= i < j < |h| ==> h[i].finished <= h[j].seen.now)
  }

  ghost predicate QuietBetween(h: seq<Turn>, k: nat, n: nat)
    requires n <= |h|
  {
    forall i :: k <= i < n ==> Quiet(h[i].seen)
  }

  /** Evaluations `k` to `n` saw nothing that keeps the agent alive, for at least the grace period. */
  ghost predicate IdleFor(cfg: Config, h: seq<Turn>, k: nat, n: nat)
    requires k <= n < |h|
  {
    QuietBetween(h, k, n + 1) && h[n].seen.now - h[k].seen.now >= cfg.grace
  }

  /** The quiet stretch before turn `n` began at `k`. */
  ghost predicate Stretch(h: seq<Turn>, k: nat, n: nat)
    requires n <= |h|
  {
    k < n && QuietBetween(h, k, n) && (k == 0 || !Quiet(h[k - 1].seen))
  }

  ghost predicate Reaped(cfg: Config, h: seq<Turn>, m: nat)
    requires m < |h|
  {
    Fired(cfg, h, m) == Reap
  }

  /**
   The instant kept is when the stretch before turn `n` began, or when `last`, its last reap,
   finished; `reaps` says which turns reaped.
   */
  ghost predicate SinceIs(h: seq<Turn>, reaps: seq<bool>, since: nat, k: nat, last: nat)
    requires |reaps| <= |h|
  {
    && Stretch(h, k, |reaps|) && h[k].seen.now <= since
    && (forall m :: 0 <= m < |reaps| && reaps[m] ==> h[m].finished <= since)
    && (since == h[k].seen.now || (k <= last < |reaps| && reaps[last] && since == h[last].finished))
  }

  /** A quiet turn carries the instant on; `before` is the instant it found. */
  lemma SinceNext(
    h: seq<Turn>, reaps: seq<bool>, before: Option<nat>, k: nat, last: nat, reap: bool) returns (k': nat, last': nat)
    requires Timely(h) && |reaps| < |h| && Quiet(h[|reaps|].seen)
    requires before.Some? ==> SinceIs(h, reaps, before.value, k, last)
    requires before.None? ==> reaps == [] || !Quiet(h[|reaps| - 1].seen)
    ensures var t := h[|reaps|];
      SinceIs(h, reaps + [reap], if reap then t.finished else Since(before, t.seen), k', last')
  {
    var n := |reaps|;
    k', last' := if before.Some? then k else n, if reap then n else last;
    assert Stretch(h, k', n + 1);
  }

  lemma {:induction false} SinceInvariant(
    cfg: Config, h: seq<Turn>, n: nat) returns (reaps: seq<bool>, k: nat, last: nat)
    requires Timely(h) && n <= |h|
    ensures |reaps| == n && forall m: nat :: m < n ==> (reaps[m] <==> Reaped(cfg, h, m))
    ensures SinceAfter(cfg, h, n).None? <==> n == 0 || !Quiet(h[n - 1].seen)
    ensures SinceAfter(cfg, h, n).Some? ==> SinceIs(h, reaps, SinceAfter(cfg, h, n).value, k, last)
  {
    reaps, k, last := [], 0, 0;
    if n > 0 {
      reaps, k, last := SinceInvariant(cfg, h, n - 1);
      var reap := Reaped(cfg, h, n - 1);
      if Quiet(h[n - 1].seen) {
        k, last := SinceNext(h, reaps, SinceAfter(cfg, h, n - 1), k, last, reap);
      }
      reaps := reaps + [reap];
    }
  }

  lemma DecideIff(cfg: Config, h: seq<Turn>, reaps: seq<bool>, since: Option<nat>, k: nat, last: nat)
    requires Timely(h) && |reaps| < |h|
    requires since.None? <==> reaps == [] || !Quiet(h[|reaps| - 1].seen)
    requires since.Some? ==> SinceIs(h, reaps, since.value, k, last)
    ensures var n := |reaps|;
      Quiet(h[n].seen) && Elapsed(Since(since, h[n].seen), h[n].seen.now) >= cfg.grace <==>
      && (exists k :: 0 <= k <= n && IdleFor(cfg, h, k, n))
      && (forall m :: 0 <= m < n && reaps[m] ==> h[n].seen.now >= h[m].finished + cfg.grace)
  {
    var n := |reaps|;
    if Quiet(h[n].seen) && Elapsed(Since(since, h[n].seen), h[n].seen.now) >= cfg.grace {
      assert IdleFor(cfg, h, if since.Some? then k else n, n);
    } else if Quiet(h[n].seen) {
      if j :| 0 <= j <= n && IdleFor(cfg, h, j, n) {
        assert since.Some? ==> h[k].seen.now <= h[j].seen.now;
      }
    }
  }

  /**
   Some stretch of quiet evaluations up to `n` lasted for the grace period, and so long has also
   passed since every earlier reap.
   */
  ghost predicate Due(cfg: Config, h: seq<Turn>, n: nat)
    requires n < |h|
  {
    && (exists k :: 0 <= k <= n && IdleFor(cfg, h, k, n))
    && (forall m: nat :: m < n && Reaped(cfg, h, m) ==> h[n].seen.now >= h[m].finished + cfg.grace)
  }

  /** Evaluation `n` does what is configured exactly when it is due, and never anything else. */
  lemma FiresIff(cfg: Config, h: seq<Turn>, n: nat)
    requires Timely(h) && n < |h|
    ensures Fired(cfg, h, n) == Shutdown <==> cfg.action.ExitContainer? && Due(cfg, h, n)
    ensures Fired(cfg, h, n) == Reap <==> cfg.action.ReapProcesses? && Due(cfg, h, n)
    ensures Fired(cfg, h, n) == NoTransition <==> cfg.action.NoAction? || !Due(cfg, h, n)
  {
    var reaps, k, last := SinceInvariant(cfg, h, n);
    DecideIff(cfg, h, reaps, SinceAfter(cfg, h, n), k, last);
    assert forall m: nat :: m < n ==> (reaps[m] <==> Reaped(cfg, h, m));
  }

  /** What the state says after an evaluation: which sign of use was seen, if any, and what matched. */
  lemma StatusSays(cfg: Config, i: Idle, e: Seen)
    ensures var j := Evaluate(cfg, i, e);
      && (j.state == Attached <==> e.streams > 0 || e.sessions > 0)
      && (j.state == PreservedState <==> e.streams == 0 && e.sessions == 0 && e.matched != [])
      && (j.state == ShutdownState ==> Quiet(e) && cfg.action.ExitContainer?) && j.state != ReapState
      && (j.preserve <==> j.state == PreservedState) && (j.idleSince.Some? <==> Quiet(e))
      && (if j.preserve then j.preserveReason == Some("process:" + e.matched[0].comm) && j.matched == e.matched
          else j.preserveReason == None && j.matched == [])
      && j.lastReap == i.lastReap
  {
  }

  /** The reported result is that of the last reap, and the reported state says when the last turn was one. */
  lemma {:induction false} LastReapReported(cfg: Config, h: seq<Turn>, n: nat, m: nat)
    requires m < n <= |h| && Reaped(cfg, h, m) && forall j: nat :: m < j < n ==> !Reaped(cfg, h, j)
    ensures After(cfg, h, n).lastReap == Some(h[m].reaped)
    ensures After(cfg, h, n).state == ReapState <==> m == n - 1
    decreases n
  {
    AfterRemembers(cfg, h, n - 1);
    StatusSays(cfg, After(cfg, h, n - 1), h[n - 1].seen);
    if m < n - 1 {
      assert !Reaped(cfg, h, n - 1);
      LastReapReported(cfg, h, n - 1, m);
    }
  }

  /** Two reaps are at least one grace period apart, and so is a reap from the stretch it ends. */
  lemma ReapsAreSpaced(cfg: Config, h: seq<Turn>, m: nat, n: nat)
    requires Timely(h) && m < n < |h|
    requires Reaped(cfg, h, m) && Reaped(cfg, h, n)
    ensures h[n].seen.now - h[m].finished >= cfg.grace
  {
    FiresIff(cfg, h, n);
  }

  /** While the agent stays idle after a reap, the next one comes exactly at the first poll a grace period later. */
  lemma ReapRestartsGrace(cfg: Config, h: seq<Turn>, m: nat, n: nat)
    requires Timely(h) && m < n < |h| && Reaped(cfg, h, m) && QuietBetween(h, m, n + 1)
    requires forall j: nat :: m < j < n ==> !Reaped(cfg, h, j)
    ensures Reaped(cfg, h, n) <==> h[n].seen.now - h[m].finished >= cfg.grace
  {
    FiresIff(cfg, h, n);
    assert h[n].seen.now - h[m].finished >= cfg.grace ==> IdleFor(cfg, h, m, n);
  }

  /** Any sign of use restarts the wait: nothing fires until the grace period has passed again. */
  lemma ActivityRestartsGrace(cfg: Config, h: seq<Turn>, m: nat, n: nat)
    requires Timely(h) && m <= n < |h| && !Quiet(h[m].seen) && Fired(cfg, h, n) != NoTransition
    ensures m < n && h[n].seen.now - h[m].finished >= cfg.grace
  {
    FiresIff(cfg, h, n);
    var k :| 0 <= k <= n && IdleFor(cfg, h, k, n);
    assert m < k;
  }
}
