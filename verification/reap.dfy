/** Which processes an idle container agent keeps and which it would terminate. */
module ReapPlan {
  import opened Graphs
  import opened Options
  import opened Sequences

  datatype Process = Process(pid: nat, ppid: nat, uid: nat, comm: string, startTime: Option<nat>)

  datatype Match = Match(pid: nat, comm: string, startTime: Option<nat>)

  datatype ReapResult = ReapResult(dryRun: bool, wouldTerminate: seq<Match>, preserved: seq<Match>)

  function MatchOf(p: Process): Match {
    Match(p.pid, p.comm, p.startTime)
  }

  function Select(table: seq<Process>, keep: Process -> bool): (r: seq<Match>)
    ensures forall m :: m in r <==> exists p :: p in table && keep(p) && m == MatchOf(p)
  {
    if table == [] then []
    else
      assert forall p :: p in table <==> p == table[0] || p in table[1..];
      (if keep(table[0]) then [MatchOf(table[0])] else []) + Select(table[1..], keep)
  }

  /** `m` goes after the entries of `s` with the same or a smaller process id. */
  function Insert(s: seq<Match>, m: Match): seq<Match> {
    if s == [] || m.pid < s[0].pid then [m] + s else [s[0]] + Insert(s[1..], m)
  }

  /** A stable sort by process id. */
  function SortByPid(s: seq<Match>): seq<Match> {
    if s == [] then [] else Insert(SortByPid(s[..|s| - 1]), s[|s| - 1])
  }

  function Pids(table: seq<Process>): set<nat> {
    set p | p in table :: p.pid
  }

  function NamedPids(table: seq<Process>, names: seq<string>): set<nat> {
    set p | p in table && p.comm in names :: p.pid
  }

  function Children(table: seq<Process>, parent: nat): (r: seq<nat>)
    ensures forall c :: c in r <==> exists p :: p in table && p.ppid == parent && p.pid == c
  {
    if table == [] then []
    else
      assert forall p :: p in table <==> p == table[0] || p in table[1..];
      (if table[0].ppid == parent then [table[0].pid] else []) + Children(table[1..], parent)
  }

  /** An edge for each process, from its parent to itself. */
  function ChildGraph(table: seq<Process>): Graph<nat> {
    map parent | parent in set p | p in table :: p.ppid :: Children(table, parent)
  }

  lemma ChildEdge(table: seq<Process>, parent: nat, child: nat)
    ensures child in Succ(ChildGraph(table), parent) <==> exists p :: p in table && p.ppid == parent && p.pid == child
  {
  }

  /** A name match, or a process whose chain of parents leads to one. */
  ghost predicate Preserved(table: seq<Process>, names: seq<string>, pid: nat) {
    pid in NamedPids(table, names)
    || exists root :: root in NamedPids(table, names) && Reaches(ChildGraph(table), root, pid)
  }

  ghost function PreservedPids(table: seq<Process>, names: seq<string>): set<nat> {
    set pid | pid in Pids(table) && Preserved(table, names, pid)
  }

  /** The guards on a process that may be terminated, the preserved ones apart. */
  predicate Permitted(p: Process, managed: set<nat>, agentUid: nat, agentPid: nat) {
    && p.pid != 1 && p.pid != agentPid && p.pid !in managed
    && (p.uid != 0 || agentUid != 0) && (p.uid == agentUid || agentUid == 0)
  }

  function Named(names: seq<string>): Process -> bool {
    (p: Process) => p.comm in names
  }

  function Within(pids: set<nat>): Process -> bool {
    (p: Process) => p.pid in pids
  }

  function Target(kept: set<nat>, managed: set<nat>, agentUid: nat, agentPid: nat): Process -> bool {
    (p: Process) => Permitted(p, managed, agentUid, agentPid) && p.pid !in kept
  }

  ghost function Plan(
    table: seq<Process>, names: seq<string>, managed: set<nat>, agentUid: nat, agentPid: nat): ReapResult {
    var kept := PreservedPids(table, names);
    ReapResult(true,
      SortByPid(Select(table, Target(kept, managed, agentUid, agentPid))),
      SortByPid(Select(table, Within(kept))))
  }

  // ---- The plan as the agent's idle cleanup builds it ----

  method FindPreserveProcesses(table: seq<Process>, names: seq<string>) returns (r: seq<Match>)
    ensures r == SortByPid(Select(table, Named(names)))
    ensures Sorted(r)
    ensures forall m :: m in r <==> exists p :: p in table && p.comm in names && Describes(m, p)
  {
    if names == [] {
      NothingSelected(table, Named(names));
      return [];
    }
    var picked := Select(table, Named(names));
    SortSorted(picked);
    SortedElements(picked);
    assert forall m, p :: Describes(m, p) <==> m == MatchOf(p);
    r := SortByPid(picked);
  }

  lemma {:induction false} NothingSelected(table: seq<Process>, keep: Process -> bool)
    requires forall p :: p in table ==> !keep(p)
    ensures Select(table, keep) == []
  {
    if table != [] {
      assert table[0] in table && forall p :: p in table[1..] ==> p in table;
      NothingSelected(table[1..], keep);
    }
  }

  /** One pass over the table adds the children of what is already preserved. */
  method PreserveChildren(table: seq<Process>, ghost names: seq<string>, preserved0: set<nat>)
    returns (preserved: set<nat>, changed: bool)
    requires NamedPids(table, names) <= preserved0 <= PreservedPids(table, names)
    ensures preserved0 <= preserved <= PreservedPids(table, names)
    ensures changed <==> preserved != preserved0
    ensures !changed ==> Closed(ChildGraph(table), preserved)
  {
    preserved, changed := preserved0, false;
    for i := 0 to |table|
      invariant preserved0 <= preserved <= PreservedPids(table, names)
      invariant changed <==> preserved != preserved0
      invariant !changed ==> forall j :: 0 <= j < i && table[j].ppid in preserved ==> table[j].pid in preserved
    {
      var process := table[i];
      if process.ppid in preserved && process.pid !in preserved {
        ChildIsPreserved(table, names, process);
        preserved := preserved + {process.pid};
        changed := true;
      }
    }
    if !changed {
      forall n, m | n in preserved && m in Succ(ChildGraph(table), n) ensures m in preserved {
        ChildEdge(table, n, m);
      }
    }
  }

  lemma ChildIsPreserved(table: seq<Process>, names: seq<string>, process: Process)
    requires process in table && process.ppid in PreservedPids(table, names)
    ensures process.pid in PreservedPids(table, names)
  {
    var g := ChildGraph(table);
    ChildEdge(table, process.ppid, process.pid);
    if process.ppid in NamedPids(table, names) {
      ReachesEdge(g, process.ppid, process.pid);
    } else {
      var root :| root in NamedPids(table, names) && Reaches(g, root, process.ppid);
      ReachesSnoc(g, root, process.ppid, process.pid);
    }
  }

  /** The preserved processes are the least set that holds the name matches and is closed under children. */
  lemma PreservedIsLeast(table: seq<Process>, names: seq<string>, s: set<nat>)
    requires NamedPids(table, names) <= s && Closed(ChildGraph(table), s)
    ensures PreservedPids(table, names) <= s
  {
    forall pid | pid in PreservedPids(table, names) ensures pid in s {
      if root :| root in NamedPids(table, names) && Reaches(ChildGraph(table), root, pid) {
        var path :| PathBetween(ChildGraph(table), root, pid, path);
        ClosedPath(ChildGraph(table), s, path, 0, |path| - 1);
      }
    }
  }

  lemma PreservedIsClosed(table: seq<Process>, names: seq<string>)
    ensures NamedPids(table, names) <= PreservedPids(table, names)
    ensures Closed(ChildGraph(table), PreservedPids(table, names))
  {
    forall n, m | n in PreservedPids(table, names) && m in Succ(ChildGraph(table), n)
      ensures m in PreservedPids(table, names)
    {
      ChildEdge(table, n, m);
      var p :| p in table && p.ppid == n && p.pid == m;
      ChildIsPreserved(table, names, p);
    }
  }

  method BuildReapPlan(table: seq<Process>, names: seq<string>, managed: set<nat>, agentUid: nat, agentPid: nat)
    returns (r: ReapResult)
    ensures r == Plan(table, names, managed, agentUid, agentPid)
  {
    var roots := FindPreserveProcesses(table, names);
    var preserved := set m | m in roots :: m.pid;
    RootPids(table, names);
    PreservedIsClosed(table, names);
    var changed := true;
    while changed
      invariant NamedPids(table, names) <= preserved <= PreservedPids(table, names)
      invariant !changed ==> Closed(ChildGraph(table), preserved)
      decreases PreservedPids(table, names) - preserved, changed
    {
      preserved, changed := PreserveChildren(table, names, preserved);
    }
    PreservedIsLeast(table, names, preserved);
    assert preserved == PreservedPids(table, names);
    r := ReapResult(true,
      SortByPid(Select(table, Target(preserved, managed, agentUid, agentPid))),
      SortByPid(Select(table, Within(preserved))));
  }

  lemma RootPids(table: seq<Process>, names: seq<string>)
    ensures (set m | m in SortByPid(Select(table, Named(names))) :: m.pid) == NamedPids(table, names)
  {
    var picked := Select(table, Named(names));
    SortedElements(picked);
    forall p | p in table && p.comm in names ensures p.pid in set m | m in SortByPid(picked) :: m.pid {
      assert MatchOf(p) in picked;
    }
  }

  // ---- What the plan contains ----

  ghost predicate Sorted(s: seq<Match>) {
    forall i, j :: 0 <= i < j < |s| ==> s[i].pid <= s[j].pid
  }

  lemma {:induction false} InsertElements(s: seq<Match>, m: Match)
    ensures multiset(Insert(s, m)) == multiset(s) + multiset{m}
    ensures forall x :: x in Insert(s, m) <==> x in s || x == m
  {
    if s != [] && s[0].pid <= m.pid {
      InsertElements(s[1..], m);
      assert s == [s[0]] + s[1..];
    }
  }

  lemma {:induction false} InsertSorted(s: seq<Match>, m: Match)
    requires Sorted(s)
    ensures Sorted(Insert(s, m))
  {
    if s != [] && s[0].pid <= m.pid {
      InsertSorted(s[1..], m);
      InsertElements(s[1..], m);
      assert forall i :: 0 <= i < |s| ==> s[0].pid <= s[i].pid;
      forall x | x in Insert(s[1..], m) ensures s[0].pid <= x.pid {}
      var t := Insert(s[1..], m);
      assert forall i :: 0 <= i < |t| ==> t[i] in t;
    }
  }

  lemma {:induction false} SortSorted(s: seq<Match>)
    ensures Sorted(SortByPid(s)) && multiset(SortByPid(s)) == multiset(s)
  {
    if s != [] {
      var front, last := s[..|s| - 1], s[|s| - 1];
      SortSorted(front);
      InsertSorted(SortByPid(front), last);
      InsertElements(SortByPid(front), last);
      LastElement(s);
    }
  }

  lemma LastElement(s: seq<Match>)
    requires s != []
    ensures multiset(s) == multiset(s[..|s| - 1]) + multiset{s[|s| - 1]}
  {
    assert s == s[..|s| - 1] + [s[|s| - 1]];
  }

  /** The entries of one process id, in their order. */
  function OfPid(s: seq<Match>, pid: nat): seq<Match> {
    if s == [] then [] else (if s[0].pid == pid then [s[0]] else []) + OfPid(s[1..], pid)
  }

  lemma {:induction false} OfPidConcat(a: seq<Match>, b: seq<Match>, pid: nat)
    ensures OfPid(a + b, pid) == OfPid(a, pid) + OfPid(b, pid)
  {
    if a == [] {
      assert a + b == b;
    } else {
      assert (a + b)[1..] == a[1..] + b;
      OfPidConcat(a[1..], b, pid);
    }
  }

  lemma {:induction false} NoneOfPid(s: seq<Match>, pid: nat)
    requires forall i :: 0 <= i < |s| ==> s[i].pid > pid
    ensures OfPid(s, pid) == []
  {
    if s != [] { NoneOfPid(s[1..], pid); }
  }

  lemma {:induction false} InsertStable(s: seq<Match>, m: Match, pid: nat)
    requires Sorted(s)
    ensures OfPid(Insert(s, m), pid) == OfPid(s, pid) + OfPid([m], pid)
  {
    if s == [] || m.pid < s[0].pid {
      OfPidConcat([m], s, pid);
      if m.pid == pid { NoneOfPid(s, pid); }
    } else {
      InsertStable(s[1..], m, pid);
      assert Insert(s, m)[1..] == Insert(s[1..], m);
    }
  }

  /** Sorting keeps the order of entries with the same process id. */
  lemma {:induction false} SortStable(s: seq<Match>, pid: nat)
    ensures OfPid(SortByPid(s), pid) == OfPid(s, pid)
  {
    if s != [] {
      var front, last := s[..|s| - 1], s[|s| - 1];
      SortSorted(front);
      SortStable(front, pid);
      InsertStable(SortByPid(front), last, pid);
      OfPidConcat(front, [last], pid);
      assert s == front + [last];
    }
  }

  lemma SortedElements(s: seq<Match>)
    ensures forall m :: m in SortByPid(s) <==> m in s
  {
    SortSorted(s);
    forall m ensures m in SortByPid(s) <==> m in s {
      assert m in SortByPid(s) <==> m in multiset(SortByPid(s));
      assert m in s <==> m in multiset(s);
    }
  }

  /** What the plan says of a process is its id, its name and its start time. */
  predicate Describes(m: Match, p: Process) {
    m.pid == p.pid && m.comm == p.comm && m.startTime == p.startTime
  }

  /** A process that the plan must leave alone: init, the agent, a managed one, or one of a user that is off limits. */
  predicate OffLimits(p: Process, managed: set<nat>, agentUid: nat, agentPid: nat) {
    || p.pid == 1 || p.pid == agentPid || p.pid in managed
    || (if agentUid == 0 then p.uid == 0 else p.uid != agentUid)
  }

  /**
   Exactly the processes that are not off limits and have no preserved ancestor are terminated: an
   agent that runs as root never picks a root process, any other agent only its own.
   */
  lemma PlanTargets(table: seq<Process>, names: seq<string>, managed: set<nat>, agentUid: nat, agentPid: nat)
    ensures var plan := Plan(table, names, managed, agentUid, agentPid);
      && plan.dryRun && Sorted(plan.wouldTerminate) && Sorted(plan.preserved)
      && (forall m :: m in plan.preserved <==>
            exists p :: p in table && Preserved(table, names, p.pid) && Describes(m, p))
      && (forall m :: m in plan.wouldTerminate <==>
            exists p :: p in table && !OffLimits(p, managed, agentUid, agentPid)
              && !Preserved(table, names, p.pid) && Describes(m, p))
  {
    var kept := PreservedPids(table, names);
    assert forall p :: p in table ==> (p.pid in kept <==> Preserved(table, names, p.pid));
    assert forall p :: Permitted(p, managed, agentUid, agentPid) <==> !OffLimits(p, managed, agentUid, agentPid);
    var targets := Select(table, Target(kept, managed, agentUid, agentPid));
    var saved := Select(table, Within(kept));
    assert forall m, p :: Describes(m, p) <==> m == MatchOf(p);
    SortSorted(targets);
    SortSorted(saved);
    SortedElements(targets);
    SortedElements(saved);
  }

  // ---- The plan does not depend on the order of the process table ----

  ghost predicate UniquePids(table: seq<Process>) {
    forall i, j :: 0 <= i < j < |table| ==> table[i].pid != table[j].pid
  }

  ghost predicate UniqueMatches(s: seq<Match>) {
    forall i, j :: 0 <= i < j < |s| ==> s[i].pid != s[j].pid
  }

  lemma {:induction false} SelectUnique(table: seq<Process>, keep: Process -> bool)
    requires UniquePids(table)
    ensures UniqueMatches(Select(table, keep))
  {
    if table != [] {
      SelectUnique(table[1..], keep);
      forall m | m in Select(table[1..], keep) ensures m.pid != table[0].pid {
        var p :| p in table[1..] && m == MatchOf(p);
      }
    }
  }

  ghost predicate Ascending(s: seq<Match>) {
    forall i, j :: 0 <= i < j < |s| ==> s[i].pid < s[j].pid
  }

  lemma {:induction false} InsertAscending(s: seq<Match>, m: Match)
    requires Ascending(s) && forall x :: x in s ==> x.pid != m.pid
    ensures Ascending(Insert(s, m))
  {
    if s != [] && s[0].pid <= m.pid {
      InsertAscending(s[1..], m);
      InsertElements(s[1..], m);
      assert s[0] in s && forall i :: 0 < i < |s| ==> s[0].pid < s[i].pid;
      var t := Insert(s[1..], m);
      forall x | x in t ensures s[0].pid < x.pid {}
      assert forall i :: 0 <= i < |t| ==> t[i] in t;
    }
  }

  lemma {:induction false} SortUnique(s: seq<Match>)
    requires UniqueMatches(s)
    ensures Ascending(SortByPid(s))
  {
    if s != [] {
      SortUnique(s[..|s| - 1]);
      SortedElements(s[..|s| - 1]);
      InsertAscending(SortByPid(s[..|s| - 1]), s[|s| - 1]);
    }
  }

  lemma {:induction false} AscendingUnique(a: seq<Match>, b: seq<Match>)
    requires Ascending(a) && Ascending(b) && forall m :: m in a <==> m in b
    ensures a == b
  {
    if a == [] {
      assert forall i :: 0 <= i < |b| ==> b[i] in b;
    } else {
      assert a[0] in b;
      assert b[0] in a;
      assert a[0] == b[0];
      assert forall m :: m in a[1..] <==> m in a && m != a[0];
      assert forall m :: m in b[1..] <==> m in b && m != b[0];
      AscendingUnique(a[1..], b[1..]);
    }
  }

  lemma SelectOrderIrrelevant(t: seq<Process>, u: seq<Process>, keep: Process -> bool)
    requires UniquePids(t) && UniquePids(u) && Elems(t) == Elems(u)
    ensures SortByPid(Select(t, keep)) == SortByPid(Select(u, keep))
  {
    var a, b := Select(t, keep), Select(u, keep);
    assert forall p :: p in t <==> p in Elems(t);
    assert forall p :: p in u <==> p in Elems(u);
    assert forall m :: m in a <==> m in b;
    SelectUnique(t, keep);
    SelectUnique(u, keep);
    SortUnique(a);
    SortUnique(b);
    SortedElements(a);
    SortedElements(b);
    AscendingUnique(SortByPid(a), SortByPid(b));
  }

  lemma PreservedOrderIrrelevant(t: seq<Process>, u: seq<Process>, names: seq<string>)
    requires Elems(t) == Elems(u)
    ensures PreservedPids(t, names) <= PreservedPids(u, names)
  {
    assert forall p :: p in t <==> p in Elems(t);
    assert forall p :: p in u <==> p in Elems(u);
    PreservedIsClosed(u, names);
    forall n, m | n in PreservedPids(u, names) && m in Succ(ChildGraph(t), n) ensures m in PreservedPids(u, names) {
      ChildEdge(t, n, m);
      ChildEdge(u, n, m);
    }
    PreservedIsLeast(t, names, PreservedPids(u, names));
  }

  /** With unique process ids, listing the same processes in another order gives the same plan. */
  lemma PlanOrderIrrelevant(
    t: seq<Process>, u: seq<Process>, names: seq<string>, managed: set<nat>, agentUid: nat, agentPid: nat)
    requires UniquePids(t) && UniquePids(u) && Elems(t) == Elems(u)
    ensures Plan(t, names, managed, agentUid, agentPid) == Plan(u, names, managed, agentUid, agentPid)
  {
    PreservedOrderIrrelevant(t, u, names);
    PreservedOrderIrrelevant(u, t, names);
    var kept := PreservedPids(t, names);
    SelectOrderIrrelevant(t, u, Target(kept, managed, agentUid, agentPid));
    SelectOrderIrrelevant(t, u, Within(kept));
    assert PreservedPids(u, names) == kept;
  }
}
