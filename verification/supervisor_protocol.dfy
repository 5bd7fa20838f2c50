/**
 One managed service as a concurrent protocol: its supervisor task, one `stop()` call and the
 operating system, interleaved in any order. Every event is one atomic step of the agent; the
 tokio mutex around the child slot is held across steps only while a process is being started.
 Processes are numbered by spawn.
 */
module SupervisorProtocol {
  import opened Options

  datatype RestartPolicy = Never | OnFailure | Always

  datatype SupervisorPc =
    | Top                          // head of the supervisor loop
    | Waiting                      // head of the dependency wait
    | ProbingDependencies          // `stopping` was seen clear, dependencies are being probed
    | DependencyBackoff
    | Preparing                    // log and command set-up of `start_service`
    | WantLock
    | Locked                       // holds the slot, has not re-read `stopping`
    | Spawning                     // holds the slot, saw `stopping` clear
    | Placing(pid: nat)            // spawned, still holds the slot
    | Watching
    | ProbingHealth
    | Taking                       // found unhealthy, about to take the child
    | Ending(pid: nat, signalled: bool)
    | Deciding(success: bool)
    | BackingOff
    | Done

  datatype StopPc = NotCalled | Flagged | StopEnding(pid: nat, signalled: bool) | Returned

  datatype State = State(
    policy: RestartPolicy,
    stopping: bool,
    slot: Option<nat>,
    locked: bool,
    sup: SupervisorPc,
    stop: StopPc,
    spawned: nat,
    alive: set<nat>,
    abandoned: set<nat>)           // dropped after a failed wait or kill, perhaps still running

  datatype Dependencies = Ready | NotYet | Misconfigured
  datatype Poll = Exited(success: bool) | Running(graceElapsedAndRequired: bool) | PollFailed
  datatype Outcome = ExitedInTime | WaitFailed | Killed | KillFailed

  datatype Event =
    | LoopHead
    | NoDependencies
    | WaitHead
    | ProbeDependencies(deps: Dependencies)
    | Prepare(ok: bool)
    | AcquireSlot
    | RecheckStopping
    | Spawn(ok: bool)
    | Place
    | TryWait(poll: Poll)
    | ProbeHealth(healthy: bool)
    | TakeUnhealthy
    | SendTerm
    | FinishEnding(outcome: Outcome)
    | Decide
    | Wake
    | StopFlag
    | StopTake
    | StopSendTerm
    | StopFinish(outcome: Outcome)
    | ProcessExit(pid: nat)

  predicate OfSupervisor(e: Event) {
    !(e.StopFlag? || e.StopTake? || e.StopSendTerm? || e.StopFinish? || e.ProcessExit?)
  }

  /** A wait, a poll or a kill that the operating system refuses. */
  predicate IsOsError(e: Event) {
    || (e.TryWait? && e.poll.PollFailed?)
    || (e.FinishEnding? && (e.outcome.WaitFailed? || e.outcome.KillFailed?))
    || (e.StopFinish? && (e.outcome.WaitFailed? || e.outcome.KillFailed?))
  }

  function Init(policy: RestartPolicy): State {
    State(policy, false, None, false, Top, NotCalled, 0, {}, {})
  }

  predicate ShouldRestart(policy: RestartPolicy, success: bool) {
    match policy
    case Never => false
    case OnFailure => !success
    case Always => true
  }

  predicate OutcomePossible(s: State, pid: nat, o: Outcome) {
    o.ExitedInTime? ==> pid !in s.alive
  }

  predicate Enabled(s: State, e: Event) {
    match e
    case LoopHead => s.sup.Top?
    case NoDependencies => s.sup.Waiting?
    case WaitHead => s.sup.Waiting?
    case ProbeDependencies(_) => s.sup.ProbingDependencies?
    case Prepare(_) => s.sup.Preparing?
    case AcquireSlot => s.sup.WantLock? && !s.locked
    case RecheckStopping => s.sup.Locked?
    case Spawn(_) => s.sup.Spawning?
    case Place => s.sup.Placing?
    case TryWait(p) => s.sup.Watching? && !s.locked && (s.slot.Some? ==>
        (p.Exited? ==> s.slot.value !in s.alive) && (p.Running? ==> s.slot.value in s.alive))
    case ProbeHealth(_) => s.sup.ProbingHealth?
    case TakeUnhealthy => s.sup.Taking? && !s.locked
    case SendTerm => s.sup.Ending? && !s.sup.signalled
    case FinishEnding(o) => s.sup.Ending? && s.sup.signalled && OutcomePossible(s, s.sup.pid, o)
    case Decide => s.sup.Deciding?
    case Wake => s.sup.BackingOff? || s.sup.DependencyBackoff?
    case StopFlag => s.stop.NotCalled?
    case StopTake => s.stop.Flagged? && !s.locked
    case StopSendTerm => s.stop.StopEnding? && !s.stop.signalled
    case StopFinish(o) => s.stop.StopEnding? && s.stop.signalled && OutcomePossible(s, s.stop.pid, o)
    case ProcessExit(p) => p in s.alive
  }

  function AfterEnding(s: State, pid: nat, o: Outcome): State {
    match o
    case ExitedInTime => s
    case Killed => s.(alive := s.alive - {pid})
    case WaitFailed => s.(abandoned := s.abandoned + {pid})
    case KillFailed => s.(abandoned := s.abandoned + {pid})
  }

  function Apply(s: State, e: Event): State
    requires Enabled(s, e)
  {
    match e
    case LoopHead => s.(sup := if s.stopping then Done else Waiting)
    case NoDependencies => s.(sup := Preparing)
    case WaitHead => s.(sup := if s.stopping then Done else ProbingDependencies)
    case ProbeDependencies(d) =>
      s.(sup := match d case Ready => Preparing case NotYet => Waiting case Misconfigured => DependencyBackoff)
    case Prepare(ok) => s.(sup := if ok then WantLock else Deciding(false))
    case AcquireSlot => s.(sup := Locked, locked := true)
    case RecheckStopping =>
      if s.stopping then s.(sup := Deciding(false), locked := false) else s.(sup := Spawning)
    case Spawn(ok) =>
      if ok then s.(sup := Placing(s.spawned), spawned := s.spawned + 1, alive := s.alive + {s.spawned})
      else s.(sup := Deciding(false), locked := false)
    case Place => s.(slot := Some(s.sup.pid), sup := Watching, locked := false)
    case TryWait(p) =>
      if s.slot.None? then s.(sup := Deciding(true))
      else (match p
        case Exited(success) => s.(slot := None, sup := Deciding(success))
        case Running(probe) => s.(sup := if probe then ProbingHealth else Watching)
        case PollFailed => s.(slot := None, sup := Deciding(false), abandoned := s.abandoned + {s.slot.value}))
    case ProbeHealth(healthy) => s.(sup := if healthy then Watching else Taking)
    case TakeUnhealthy =>
      if s.slot.None? then s.(sup := Deciding(false))
      else s.(slot := None, sup := Ending(s.slot.value, false))
    case SendTerm => s.(sup := Ending(s.sup.pid, true))
    case FinishEnding(o) => AfterEnding(s, s.sup.pid, o).(sup := Deciding(false))
    case Decide =>
      s.(sup := if s.stopping || !ShouldRestart(s.policy, s.sup.success) then Done else BackingOff)
    case Wake => s.(sup := Top)
    case StopFlag => s.(stopping := true, stop := Flagged)
    case StopTake =>
      if s.slot.None? then s.(stop := Returned)
      else s.(slot := None, stop := StopEnding(s.slot.value, false))
    case StopSendTerm => s.(stop := StopEnding(s.stop.pid, true))
    case StopFinish(o) => AfterEnding(s, s.stop.pid, o).(stop := Returned)
    case ProcessExit(p) => s.(alive := s.alive - {p})
  }

  /** The process whose poll, wait or kill fails in this event. */
  function FailedOn(s: State, e: Event): set<nat>
    requires Enabled(s, e)
  {
    match e
    case TryWait(PollFailed) => if s.slot.Some? then {s.slot.value} else {}
    case FinishEnding(o) => if o.WaitFailed? || o.KillFailed? then {s.sup.pid} else {}
    case StopFinish(o) => if o.WaitFailed? || o.KillFailed? then {s.stop.pid} else {}
    case _ => {}
  }

  /** The processes on which some poll, wait or kill of the run failed. */
  function FailedInRun(s: State, es: seq<Event>): set<nat>
    decreases |es|
  {
    if es == [] || !Enabled(s, es[0]) then {}
    else FailedOn(s, es[0]) + FailedInRun(Apply(s, es[0]), es[1..])
  }

  /** `t` is reached from `s` by the events `es`. */
  ghost predicate Run(s: State, es: seq<Event>, t: State)
    decreases |es|
  {
    if es == [] then s == t
    else Enabled(s, es[0]) && Run(Apply(s, es[0]), es[1..], t)
  }

  ghost predicate Reachable(t: State) {
    exists policy, es :: Run(Init(policy), es, t)
  }

  /** Processes some part of the agent is responsible for. */
  function Custody(s: State): set<nat> {
    (if s.slot.Some? then {s.slot.value} else {})
    + (if s.sup.Placing? || s.sup.Ending? then {s.sup.pid} else {})
    + (if s.stop.StopEnding? then {s.stop.pid} else {})
  }

  predicate StopTook(s: State) {
    s.stop.StopEnding? || s.stop.Returned?
  }

  /** How slot, lock and flag go with what supervisor and `stop()` are doing. */
  predicate Control(s: State) {
    && (s.locked <==> s.sup.Locked? || s.sup.Spawning? || s.sup.Placing?)
    && (s.slot.Some? ==> s.sup.Watching? || s.sup.ProbingHealth? || s.sup.Taking?)
    && (s.stopping <==> !s.stop.NotCalled?)
    && (StopTook(s) ==> s.slot.None? && !s.sup.Spawning? && !s.sup.Placing?)
    && (s.stop.StopEnding? ==> !s.sup.Ending?)
  }

  /** Without `stop()` a supervisor that watches a process finds it in the slot. */
  predicate Watched(s: State) {
    s.stop.NotCalled? && (s.sup.Watching? || s.sup.ProbingHealth? || s.sup.Taking?) ==> s.slot.Some?
  }

  /** Every live process is in custody or given up, and none is both. */
  ghost predicate Ownership(s: State) {
    && s.alive <= Custody(s) + s.abandoned
    && (forall p :: p in s.alive + Custody(s) + s.abandoned ==> p < s.spawned)
    && (forall p :: p in Custody(s) ==> p !in s.abandoned)
  }

  ghost predicate Inv(s: State) {
    Control(s) && Ownership(s)
  }

  function StepsRemaining(pc: SupervisorPc): nat {
    match pc
    case Done => 0
    case Top => 1
    case Deciding(_) => 1
    case BackingOff => 2
    case DependencyBackoff => 2
    case Locked => 2
    case Watching => 2
    case Taking => 2
    case Ending(_, signalled) => if signalled then 2 else 3
    case ProbingHealth => 3
    case WantLock => 3
    case Preparing => 4
    case Waiting => 5
    case ProbingDependencies => 6
    case Spawning => 6
    case Placing(_) => 6
  }

  function SupervisorSteps(es: seq<Event>): nat {
    if es == [] then 0 else (if OfSupervisor(es[0]) then 1 else 0) + SupervisorSteps(es[1..])
  }

  function NextSupervisorEvent(s: State): Event {
    match s.sup
    case Top => LoopHead
    case Waiting => WaitHead
    case ProbingDependencies => ProbeDependencies(NotYet)
    case DependencyBackoff => Wake
    case Preparing => Prepare(true)
    case WantLock => AcquireSlot
    case Locked => RecheckStopping
    case Spawning => Spawn(false)
    case Placing(_) => Place
    case Watching => TryWait(Running(false))
    case ProbingHealth => ProbeHealth(true)
    case Taking => TakeUnhealthy
    case Ending(_, signalled) => if signalled then FinishEnding(Killed) else SendTerm
    case Deciding(_) => Decide
    case BackingOff => Wake
    case Done => LoopHead
  }
}
