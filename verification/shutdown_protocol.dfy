/**
 Agent shutdown with any number of concurrent callers. One caller wins the swap of
 `shutting_down`, stops the services in order, sets `shutdown_complete` and wakes the waiters;
 every other caller waits. A wake-up ticket is the number of notifications issued before the
 ticket was created: a sleeping caller may continue once that number has grown.
 */
module ShutdownProtocol {
  import opened Services
  import opened StopOrder

  datatype Caller =
    | Entering                // about to swap `shutting_down`
    | Winning                 // won the swap, about to refuse bridge streams
    | Stopping(next: nat)     // stopping the service at this position of the order
    | Completing              // about to set `shutdown_complete`
    | Notifying               // about to wake the waiters
    | ReturnedTrue
    | Arming                  // head of the wait loop, about to create a ticket
    | Checking(ticket: nat)   // about to read `shutdown_complete`
    | Sleeping(ticket: nat)
    | ReturnedFalse

  datatype State = State(
    order: seq<Service>,
    shuttingDown: bool,
    accepting: bool,
    complete: bool,
    notified: nat,
    stopped: seq<Service>,
    callers: seq<Caller>)

  function Init(services: seq<Service>, callers: nat): State {
    State(Order(services), false, true, false, 0, [], seq(callers, _ => Entering))
  }

  predicate Finished(c: Caller) {
    c.ReturnedTrue? || c.ReturnedFalse?
  }

  /** Caller `i` can take a step. */
  predicate Enabled(s: State, i: nat) {
    i < |s.callers| && !Finished(s.callers[i])
    && (s.callers[i].Sleeping? ==> s.notified > s.callers[i].ticket)
    && (s.callers[i].Stopping? ==> s.callers[i].next <= |s.order|)
  }

  function Apply(s: State, i: nat): State
    requires Enabled(s, i)
  {
    match s.callers[i]
    case Entering =>
      s.(shuttingDown := true, callers := s.callers[i := if s.shuttingDown then Arming else Winning])
    case Winning => s.(accepting := false, callers := s.callers[i := Stopping(0)])
    case Stopping(k) =>
      if k < |s.order| then s.(stopped := s.stopped + [s.order[k]], callers := s.callers[i := Stopping(k + 1)])
      else s.(callers := s.callers[i := Completing])
    case Completing => s.(complete := true, callers := s.callers[i := Notifying])
    case Notifying => s.(notified := s.notified + 1, callers := s.callers[i := ReturnedTrue])
    case Arming => s.(callers := s.callers[i := Checking(s.notified)])
    case Checking(t) => s.(callers := s.callers[i := if s.complete then ReturnedFalse else Sleeping(t)])
    case Sleeping(_) => s.(callers := s.callers[i := Arming])
    case ReturnedTrue => s
    case ReturnedFalse => s
  }

  ghost predicate Run(s: State, schedule: seq<nat>, t: State)
    decreases |schedule|
  {
    if schedule == [] then s == t
    else Enabled(s, schedule[0]) && Run(Apply(s, schedule[0]), schedule[1..], t)
  }

  ghost predicate Reachable(services: seq<Service>, t: State) {
    exists n, schedule :: Run(Init(services, n), schedule, t)
  }

  predicate IsWinner(c: Caller) {
    c.Winning? || c.Stopping? || c.Completing? || c.Notifying? || c.ReturnedTrue?
  }

  predicate IsWaiter(c: Caller) {
    c.Arming? || c.Checking? || c.Sleeping? || c.ReturnedFalse?
  }

  /** What the shared flags are while one caller is the winner. */
  predicate WinnerInv(s: State, w: Caller) {
    match w
    case Winning => s.accepting && !s.complete && s.notified == 0 && s.stopped == []
    case Stopping(k) => !s.accepting && !s.complete && s.notified == 0 && k <= |s.order| && s.stopped == s.order[..k]
    case Completing => !s.accepting && !s.complete && s.notified == 0 && s.stopped == s.order
    case Notifying => !s.accepting && s.complete && s.notified == 0 && s.stopped == s.order
    case ReturnedTrue => !s.accepting && s.complete && s.notified == 1 && s.stopped == s.order
    case _ => false
  }

  predicate WaiterInv(s: State, c: Caller) {
    match c
    case Checking(t) => t <= s.notified
    case Sleeping(t) => t == 0
    case ReturnedFalse => s.complete
    case _ => true
  }

  predicate WaitersOk(s: State) {
    forall i :: 0 <= i < |s.callers| ==> WaiterInv(s, s.callers[i]) && (IsWaiter(s.callers[i]) ==> s.shuttingDown)
  }

  predicate WinnerOk(s: State) {
    forall i :: 0 <= i < |s.callers| && IsWinner(s.callers[i]) ==> s.shuttingDown && WinnerInv(s, s.callers[i])
  }

  predicate WinnerUnique(s: State) {
    forall i, j :: 0 <= i < j < |s.callers| ==> !IsWinner(s.callers[i]) || !IsWinner(s.callers[j])
  }

  predicate WinnerExists(s: State) {
    && (s.shuttingDown ==> exists i :: 0 <= i < |s.callers| && IsWinner(s.callers[i]))
    && (!s.shuttingDown ==> s.accepting && !s.complete && s.notified == 0 && s.stopped == [])
  }

  predicate Inv(s: State) {
    WaitersOk(s) && WinnerOk(s) && WinnerUnique(s) && WinnerExists(s)
  }

  function StepsLeft(s: State, c: Caller): nat {
    match c
    case Entering => |s.order| + 10
    case Winning => |s.order| + 5
    case Stopping(k) => if k <= |s.order| then |s.order| - k + 3 else 3
    case Completing => 2
    case Notifying => 1
    case ReturnedTrue => 0
    case Arming => if s.notified == 0 then 5 else 2
    case Checking(t) => if t == 0 then 4 else 1
    case Sleeping(_) => 3
    case ReturnedFalse => 0
  }

  function TotalLeft(s: State, callers: seq<Caller>): nat {
    if callers == [] then 0 else StepsLeft(s, callers[0]) + TotalLeft(s, callers[1..])
  }

  ghost predicate WonAlone(callers: seq<Caller>, w: nat) {
    w < |callers| && callers[w].ReturnedTrue?
    && forall v :: 0 <= v < |callers| && v != w ==> callers[v].ReturnedFalse?
  }
}
