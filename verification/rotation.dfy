/**
 What rotation keeps: the bytes on disk under any faults, the exact shift without faults, and
 the objects that run it.
 */
module RotatingLog {
  import opened LogDisk
  import opened Options

  // ---- The invariant ----

  lemma {:induction false} SameStream(d: Disk, e: Disk, n: nat)
    requires forall g: nat :: g <= n ==> Content(d, g) == Content(e, g)
    ensures Stream(d, n) == Stream(e, n)
  {
    if n > 0 { SameStream(d, e, n - 1); }
  }

  lemma {:induction false} EmptyStream(d: Disk, n: nat)
    requires forall g: nat :: g <= n ==> Content(d, g) == []
    ensures Stream(d, n) == []
  {
    if n > 0 { EmptyStream(d, n - 1); }
  }

  /** Moving generation `g` up by one loses exactly what was there. */
  lemma {:induction false} MoveStream(d: Disk, g: nat, n: nat)
    requires WellFormed(d) && g < n && g in d.names && (g + 1 == n || Content(d, g + 1) == [])
    ensures Content(d, g + 1) + Stream(Move(d, g, g + 1), n) == Stream(d, n)
  {
    var e := Move(d, g, g + 1);
    if g + 1 == n {
      MoveContents(d, g);
      MoveTop(d, e, g);
    } else {
      MoveStream(d, g, n - 1);
      assert Content(d, n) == Content(e, n);
    }
  }

  lemma MoveContents(d: Disk, g: nat)
    requires WellFormed(d) && g in d.names
    ensures var e := Move(d, g, g + 1);
      && Content(e, g + 1) == Content(d, g) && Content(e, g) == []
      && forall k: nat :: k != g && k != g + 1 ==> Content(e, k) == Content(d, k)
  {
  }

  lemma MoveTop(d: Disk, e: Disk, g: nat)
    requires Content(e, g + 1) == Content(d, g) && Content(e, g) == []
    requires forall k: nat :: k < g ==> Content(e, k) == Content(d, k)
    ensures Content(d, g + 1) + Stream(e, g + 1) == Stream(d, g + 1)
  {
    if g > 0 { SameStream(d, e, g - 1); }
    assert Stream(e, g + 1) == Stream(d, g) by {
      assert g > 0 ==> Stream(e, g) == Stream(d, g - 1);
    }
  }

  /** One rename of the plan, wherever the handle is. */
  lemma MoveHeld(d: Disk, h: nat, max: nat, g: nat)
    requires Held(d, h, max) && g < max && (g + 1 < max ==> g + 1 !in d.names)
    ensures Held(Move(d, g, g + 1), h, max)
  {
    var pos: nat :| Placed(d, h, max, pos);
    var pos' := if g in d.names && (pos == g || (pos == g + 1 && pos == max)) then pos + 1 else pos;
    var e := Move(d, g, g + 1);
    forall k: nat | k < pos' && k <= max ensures Content(e, k) == [] {
      assert k < pos ==> Content(d, k) == [];
      assert g < pos ==> Content(d, g) == [];
    }
    assert Placed(e, h, max, pos');
  }

  lemma MoveKeeps(d: Disk, max: nat, g: nat)
    requires WellFormed(d) && g < max && (g + 1 < max ==> g + 1 !in d.names)
    ensures Keeps(d, Move(d, g, g + 1), max)
    ensures g + 1 < max ==> Stream(Move(d, g, g + 1), max) == Stream(d, max)
  {
    if g in d.names { MoveStream(d, g, max); }
  }

  /** One step of the plan below the oldest generation. */
  lemma PlanStep(d: Disk, max: nat, g: nat, i: nat, faults: set<nat>)
    requires g < max
    ensures RunSteps(d, PlanFrom(max, g), i, faults) ==
      if i in faults then (d, false)
      else if g == 0 then (Move(d, 0, 1), true)
      else RunSteps(Move(d, g, g + 1), PlanFrom(max, g - 1), i + 1, faults)
  {
    var rest := PlanFrom(max, g)[1..];
    if g > 0 { assert rest == PlanFrom(max, g - 1); } else { assert rest == []; }
  }

  /** The renames of generations `g`, ..., 0 without the list of steps. */
  function Raise(d: Disk, g: nat, i: nat, faults: set<nat>): (Disk, bool)
    decreases g
  {
    if i in faults then (d, false)
    else if g == 0 then (Move(d, 0, 1), true)
    else Raise(Move(d, g, g + 1), g - 1, i + 1, faults)
  }

  lemma {:induction false} PlanIsRaise(d: Disk, max: nat, g: nat, i: nat, faults: set<nat>)
    requires g < max
    ensures RunSteps(d, PlanFrom(max, g), i, faults) == Raise(d, g, i, faults)
    decreases g
  {
    PlanStep(d, max, g, i, faults);
    if i !in faults && g > 0 { PlanIsRaise(Move(d, g, g + 1), max, g - 1, i + 1, faults); }
  }

  /** The plan below the oldest generation: every rename finds its target free and loses nothing. */
  lemma {:induction false} PlanLow(d: Disk, h: nat, max: nat, g: nat, i: nat, faults: set<nat>)
    requires WellFormed(d) && Held(d, h, max) && g + 1 < max && g + 1 !in d.names
    ensures var (e, ok) := Raise(d, g, i, faults);
      Held(e, h, max) && Stream(e, max) == Stream(d, max) && (ok ==> 0 !in e.names)
    decreases g
  {
    if i in faults { return; }
    var d1 := Move(d, g, g + 1);
    MoveKeeps(d, max, g);
    MoveHeld(d, h, max, g);
    assert g !in d1.names;
    if g == 0 { return; }
    PlanLow(d1, h, max, g - 1, i + 1, faults);
  }

  /** The plan from the rename onto the oldest generation, which may still be there. */
  lemma PlanHigh(d: Disk, h: nat, max: nat, i: nat, faults: set<nat>)
    requires WellFormed(d) && Held(d, h, max) && max > 0
    ensures var (e, ok) := RunSteps(d, PlanFrom(max, max - 1), i, faults);
      Held(e, h, max) && Keeps(d, e, max) && (ok ==> 0 !in e.names)
  {
    var g: nat := max - 1;
    PlanIsRaise(d, max, g, i, faults);
    if i in faults { return; }
    var d1 := Move(d, g, g + 1);
    assert WellFormed(d1) && g !in d1.names;
    MoveHeld(d, h, max, g);
    if g > 0 { PlanLow(d1, h, max, g - 1, i + 1, faults); }
    MoveKeeps(d, max, g);
  }

  lemma RemovePlaced(d: Disk, h: nat, max: nat, pos: nat)
    requires Placed(d, h, max, pos)
    ensures Placed(d.(names := d.names - {max}), h, max, if pos == max then max + 1 else pos)
  {
    var e := d.(names := d.names - {max});
    assert Content(e, max) == [];
    forall k: nat | k < max ensures Content(e, k) == Content(d, k) {}
  }

  lemma RemoveHeld(d: Disk, h: nat, max: nat)
    requires Held(d, h, max) && max > 0
    ensures Held(d.(names := d.names - {max}), h, max)
    ensures Content(d, max) + Stream(d.(names := d.names - {max}), max) == Stream(d, max)
  {
    var pos: nat :| Placed(d, h, max, pos);
    var e := d.(names := d.names - {max});
    RemovePlaced(d, h, max, pos);
    DropOldest(d, e, max);
  }

  lemma DropOldest(d: Disk, e: Disk, max: nat)
    requires max > 0 && Content(e, max) == [] && forall g: nat :: g < max ==> Content(e, g) == Content(d, g)
    ensures Content(d, max) + Stream(e, max) == Stream(d, max)
  {
    SameStream(d, e, max - 1);
    Rebracket([], Stream(e, max - 1), []);
  }

  /** The whole plan, wherever it fails. */
  lemma PlanRun(d: Disk, h: nat, max: nat, faults: set<nat>)
    requires Held(d, h, max) && max > 0
    ensures var (e, ok) := RunSteps(d, PlanFrom(max, max), 0, faults);
      Held(e, h, max) && Keeps(d, e, max) && (ok ==> 0 !in e.names)
  {
    assert PlanFrom(max, max)[1..] == PlanFrom(max, max - 1);
    if 0 in faults {
      PlanHigh(d, h, max, 1, faults);
    } else {
      RemoveHeld(d, h, max);
      PlanHigh(d.(names := d.names - {max}), h, max, 1, faults);
    }
  }

  lemma AppendStream(c: Config, s: Log, b: Bytes)
    requires Inv(c, s)
    ensures Inv(c, Append(s, b))
    ensures Stream(Append(s, b).disk, c.maxFiles)
      == Stream(s.disk, c.maxFiles) + if Named(s.disk, s.handle, c.maxFiles) then b else []
  {
    var pos: nat :| Placed(s.disk, s.handle, c.maxFiles, pos);
    var t := Append(s, b);
    forall g: nat | g < pos && g <= c.maxFiles ensures Content(t.disk, g) == [] {
      assert Content(s.disk, g) == [];
    }
    assert Placed(t.disk, t.handle, c.maxFiles, pos);
    if pos <= c.maxFiles {
      AppendAt(s.disk, t.disk, pos, c.maxFiles, b);
    } else {
      SameStream(s.disk, t.disk, c.maxFiles);
    }
  }

  /** Nothing is left on disk once the handle's inode has no name any more. */
  lemma UnnamedStream(c: Config, s: Log)
    requires Inv(c, s) && !Named(s.disk, s.handle, c.maxFiles)
    ensures Stream(s.disk, c.maxFiles) == []
  {
    var pos: nat :| Placed(s.disk, s.handle, c.maxFiles, pos);
    EmptyStream(s.disk, c.maxFiles);
  }

  lemma {:induction false} AppendAt(d: Disk, e: Disk, pos: nat, n: nat, b: Bytes)
    requires pos <= n
    requires forall g: nat :: g <= n ==> Content(e, g) == if g == pos then Content(d, g) + b else Content(d, g)
    requires forall g: nat :: g < pos ==> Content(d, g) == []
    ensures Stream(e, n) == Stream(d, n) + b
  {
    if n > pos {
      AppendAt(d, e, pos, n - 1, b);
      assert Content(e, n) == Content(d, n);
    } else {
      assert Content(e, n) == Content(d, n) + b;
      if n > 0 {
        NewestStream(d, n);
        NewestStream(e, n);
      }
    }
  }

  lemma NewestStream(d: Disk, n: nat)
    requires n > 0 && forall g: nat :: g < n ==> Content(d, g) == []
    ensures Stream(d, n) == Content(d, n)
  {
    EmptyStream(d, n - 1);
  }

  lemma RotationKeepsStream(c: Config, s: Log, incoming: nat, f: Faults)
    requires Inv(c, s)
    ensures var (r, ok) := RotatedIfNeeded(c, s, incoming, f);
      && Inv(c, r) && Keeps(s.disk, r.disk, c.maxFiles)
      && (ok && ShouldRotate(c, s.bytes, incoming) ==> OnActive(r))
  {
    if ShouldRotate(c, s.bytes, incoming) && !f.flushFails {
      PlanRun(s.disk, s.handle, c.maxFiles, f.steps);
      var (d, ok) := RunSteps(s.disk, PlanFrom(c.maxFiles, c.maxFiles), 0, f.steps);
      if ok && !f.open.NotCreated? { OpenHeld(d, s.handle, c.maxFiles); }
    }
  }

  lemma OpenHeld(d: Disk, h: nat, max: nat)
    requires Held(d, h, max) && 0 !in d.names
    ensures Held(OpenActive(d), h, max) && Held(OpenActive(d), OpenActive(d).names[0], max)
    ensures Stream(OpenActive(d), max) == Stream(d, max)
  {
    var pos: nat :| Placed(d, h, max, pos);
    var e := OpenActive(d);
    SameStream(d, e, max);
    forall k: nat | k < pos && k <= max ensures Content(e, k) == [] {
      assert Content(d, k) == [];
    }
    assert Placed(e, h, max, pos) && Placed(e, e.names[0], max, 0);
  }

  /**
   One operation under any faults: the invariant is kept; the generations lose nothing but the
   whole of the oldest one, and gain exactly what was appended while the held inode has a name.
   */
  lemma OperationKeepsStream(c: Config, s: Log, op: Op) returns (lost: Bytes)
    requires Inv(c, s)
    ensures var o := Do(c, s, op);
      && Inv(c, o.log)
      && lost + Stream(o.log.disk, c.maxFiles)
         == Stream(s.disk, c.maxFiles) + if Named(o.log.disk, o.log.handle, c.maxFiles) then o.appended else []
    ensures lost == [] || lost == Content(s.disk, c.maxFiles)
    ensures ShouldRotate(c, s.bytes, |op.buf|) && Do(c, s, op).result.Some? ==> OnActive(Do(c, s, op).log)
  {
    var (r, ok) := RotatedIfNeeded(c, s, |op.buf|, op.faults);
    var s0, s1 := Stream(s.disk, c.maxFiles), Stream(r.disk, c.maxFiles);
    RotationKeepsStream(c, s, |op.buf|, op.faults);
    lost := if s1 == s0 then [] else Content(s.disk, c.maxFiles);
    var o := Do(c, s, op);
    var gained := if Named(r.disk, r.handle, c.maxFiles) then o.appended else [];
    Rebracket(lost, s1, gained);
    if !ok || (op.Write? && op.written.None?) {
      assert o.log == r && gained == [];
    } else {
      AppendStream(c, r, o.appended);
      assert o.log.(bytes := 0) == Append(r, o.appended).(bytes := 0);
      assert o.log.disk.names == r.disk.names && o.log.handle == r.handle;
    }
  }

  lemma Rebracket(a: Bytes, b: Bytes, c: Bytes)
    ensures (a + b) + c == a + (b + c)
    ensures b + [] == b == [] + b
  {
  }

  // ---- Over every run ----

  /**
   Whatever fails, after any run the files read oldest to newest are a suffix of the initial
   content followed by all bytes actually appended: `lost` is the part no file holds any more.
   */
  lemma {:induction false} FilesAreSuffixOfHistory(
    c: Config, s: Log, ops: seq<Op>, before: Bytes, history: Bytes) returns (lost: Bytes)
    requires Inv(c, s) && before + Stream(s.disk, c.maxFiles) == history
    ensures lost + Stream(Final(c, s, ops).disk, c.maxFiles) == history + Appended(c, s, ops)
    decreases |ops|
  {
    if ops == [] {
      Rebracket([], history, []);
      lost := before;
    } else {
      var o := Do(c, s, ops[0]);
      var gone := OperationKeepsStream(c, s, ops[0]);
      var h := history + o.appended;
      if !Named(o.log.disk, o.log.handle, c.maxFiles) {
        UnnamedStream(c, o.log);
        Rebracket([], h, []);
        lost := FilesAreSuffixOfHistory(c, o.log, ops[1..], h, h);
      } else {
        Rebracket(before, gone, Stream(o.log.disk, c.maxFiles));
        Rebracket(before, Stream(s.disk, c.maxFiles), o.appended);
        lost := FilesAreSuffixOfHistory(c, o.log, ops[1..], before + gone, h);
      }
      Rebracket(history, o.appended, Appended(c, o.log, ops[1..]));
    }
  }

  // ---- Runs without faults ----

  lemma {:induction false} CleanLow(d: Disk, max: nat, g: nat, i: nat)
    requires g < max && g + 1 !in d.names
    ensures var (e, ok) := RunSteps(d, PlanFrom(max, g), i, {}); ok && ShiftedUpTo(d, e, g + 1)
    decreases g
  {
    var d1 := Move(d, g, g + 1);
    var (e, ok) := RunSteps(d, PlanFrom(max, g), i, {});
    if g == 0 {
      assert PlanFrom(max, 0)[1..] == [];
      assert RunSteps(d1, [], i + 1, {}) == (d1, true);
      assert Raised(d, d1, 0);
    } else {
      assert PlanFrom(max, g)[1..] == PlanFrom(max, g - 1);
      CleanLow(d1, max, g - 1, i + 1);
      assert (e, ok) == RunSteps(d1, PlanFrom(max, g - 1), i + 1, {});
      forall k: nat | k > g + 1 ensures Kept(d, e, k) { assert Kept(d1, e, k); }
      forall k: nat | k < g + 1 ensures Raised(d, e, k) {
        if k < g { assert Raised(d1, e, k); } else { assert Kept(d1, e, g + 1); }
      }
    }
  }

  /** The plan as a whole: every generation moves up by one and only the oldest disappears. */
  lemma CleanPlanShifts(d: Disk, max: nat)
    requires max > 0
    ensures var (e, ok) := RunSteps(d, PlanFrom(max, max), 0, {}); ok && ShiftedUpTo(d, e, max)
  {
    assert PlanFrom(max, max)[1..] == PlanFrom(max, max - 1);
    var d1 := d.(names := d.names - {max});
    CleanLow(d1, max, max - 1, 1);
    var (e, ok) := RunSteps(d, PlanFrom(max, max), 0, {});
    assert (e, ok) == RunSteps(d1, PlanFrom(max, max - 1), 1, {});
    forall k: nat | k > max ensures Kept(d, e, k) { assert Kept(d1, e, k); }
    forall k: nat | k < max ensures Raised(d, e, k) { assert Raised(d1, e, k); }
  }

  /** A fault-free rotation: the simultaneous shift, ending in a fresh active file. */
  lemma CleanRotationShifts(c: Config, s: Log)
    requires c.maxFiles > 0 && Inv(c, s)
    ensures var (r, ok) := Rotate(c, s, Faults(false, {}, Opened));
      && ok && WellFormed(r.disk) && r.bytes == 0
      && r.disk.names.Keys >= {0} && r.disk.names[0] == r.handle && Content(r.disk, 0) == []
      && (forall k: nat :: k < c.maxFiles ==>
            (k + 1 in r.disk.names <==> k in s.disk.names) && Content(r.disk, k + 1) == Content(s.disk, k))
      && (forall k: nat :: k > c.maxFiles ==> Content(r.disk, k) == Content(s.disk, k))
  {
    CleanPlanShifts(s.disk, c.maxFiles);
    var (d, _) := RunSteps(s.disk, PlanFrom(c.maxFiles, c.maxFiles), 0, {});
    var (r, ok) := Rotate(c, s, Faults(false, {}, Opened));
    forall k: nat | k < c.maxFiles
      ensures (k + 1 in r.disk.names <==> k in s.disk.names) && Content(r.disk, k + 1) == Content(s.disk, k)
    {
      assert Raised(s.disk, d, k);
    }
    forall k: nat | k > c.maxFiles ensures Content(r.disk, k) == Content(s.disk, k) {
      assert Kept(s.disk, d, k);
    }
    PlanRun(s.disk, s.handle, c.maxFiles, {});
  }

  lemma SizedIsHeld(c: Config, s: Log, k: nat, chunks: set<Bytes>)
    requires Sized(c, s, k, chunks)
    ensures Inv(c, s)
  {
    assert Placed(s.disk, s.handle, c.maxFiles, 0);
  }

  lemma AppendContents(s: Log, b: Bytes)
    requires WellFormed(s.disk) && OnActive(s)
    ensures var t := Append(s, b);
      && WellFormed(t.disk) && t.disk.names == s.disk.names && t.handle == s.handle
      && Content(t.disk, 0) == Content(s.disk, 0) + b
      && forall g: nat :: g > 0 ==> Content(t.disk, g) == Content(s.disk, g)
  {
    forall g: nat | g > 0 ensures Content(Append(s, b).disk, g) == Content(s.disk, g) {
      assert g in s.disk.names ==> s.disk.names[g] != s.handle;
    }
  }

  /** A rotated writer, before the write. */
  lemma RotatedSized(c: Config, s: Log, k: nat, chunks: set<Bytes>)
    requires Sized(c, s, k, chunks) && c.maxFiles > 0
    ensures var (r, ok) := Rotate(c, s, Faults(false, {}, Opened));
      && ok && WellFormed(r.disk) && OnActive(r) && r.bytes == 0 && Content(r.disk, 0) == []
      && forall g: nat :: 0 < g < k + 1 && g <= c.maxFiles ==>
           |Content(r.disk, g)| <= c.maxBytes || Content(r.disk, g) in chunks
  {
    SizedIsHeld(c, s, k, chunks);
    CleanRotationShifts(c, s);
    var (r, ok) := Rotate(c, s, Faults(false, {}, Opened));
    forall g: nat | 0 < g < k + 1 && g <= c.maxFiles
      ensures |Content(r.disk, g)| <= c.maxBytes || Content(r.disk, g) in chunks
    {
      var below: nat := g - 1;
      assert Content(r.disk, below + 1) == Content(s.disk, below);
    }
  }

  lemma CleanStep(c: Config, s: Log, k: nat, chunks: set<Bytes>, op: Op)
    requires Sized(c, s, k, chunks) && Clean(op)
    ensures Sized(c, Do(c, s, op).log,
      k + if ShouldRotate(c, s.bytes, |op.buf|) then 1 else 0, chunks + {Do(c, s, op).appended})
  {
    var (r, ok) := RotatedIfNeeded(c, s, |op.buf|, op.faults);
    var o := Do(c, s, op);
    if ShouldRotate(c, s.bytes, |op.buf|) { RotatedSized(c, s, k, chunks); }
    AppendContents(r, o.appended);
    Rebracket([], o.appended, []);
  }

  /**
   In a fault-free run the byte counter is the length of the active file, and each file
   started during the run is within the limit or is the content of a single write.
   */
  lemma {:induction false} CleanRunBoundsFiles(c: Config, s: Log, k: nat, chunks: set<Bytes>, ops: seq<Op>)
    requires Sized(c, s, k, chunks) && forall op :: op in ops ==> Clean(op)
    ensures Sized(c, Final(c, s, ops), k + Rotations(c, s, ops), chunks + Chunks(c, s, ops))
    decreases |ops|
  {
    if ops == [] {
      assert chunks + {} == chunks;
    } else {
      assert ops[0] in ops;
      CleanStep(c, s, k, chunks, ops[0]);
      var o := Do(c, s, ops[0]);
      var k' := k + if ShouldRotate(c, s.bytes, |ops[0].buf|) then 1 else 0;
      CleanRunBoundsFiles(c, o.log, k', chunks + {o.appended}, ops[1..]);
      assert chunks + Chunks(c, s, ops) == (chunks + {o.appended}) + Chunks(c, o.log, ops[1..]);
    }
  }

  // ---- When rotation happens, told from the files alone ----

  lemma AppendNothing(s: Log)
    ensures Append(s, []) == s
  {
    if s.handle < |s.disk.files| {
      Rebracket([], s.disk.files[s.handle], []);
      assert s.disk.files[s.handle := s.disk.files[s.handle]] == s.disk.files;
    }
  }

  /** A write that fits, or any write without old generations, touches no name, whatever would fail. */
  lemma CalmOperation(c: Config, s: Log, op: Op)
    requires c.maxFiles == 0 || s.bytes + |op.buf| <= c.maxBytes
    ensures var o := Do(c, s, op);
      && o.log.disk == Append(s, o.appended).disk && o.log.disk.names == s.disk.names && o.log.handle == s.handle
      && o.log.bytes == s.bytes + if o.result.Some? then |o.appended| else 0
  {
    AppendNothing(s);
  }

  lemma {:induction false} RenamesSucceedIff(d: Disk, max: nat, g: nat, i: nat, faults: set<nat>)
    requires g < max
    ensures RunSteps(d, PlanFrom(max, g), i, faults).1 <==> forall j :: i <= j <= i + g ==> j !in faults
    decreases g
  {
    PlanIsRaise(d, max, g, i, faults);
    if i !in faults && g > 0 {
      PlanIsRaise(Move(d, g, g + 1), max, g - 1, i + 1, faults);
      RenamesSucceedIff(Move(d, g, g + 1), max, g - 1, i + 1, faults);
    }
  }

  /** A failed removal is ignored; a failed rename is not. The removal stands at position 0. */
  predicate RenamesSucceed(c: Config, f: Faults) {
    forall j :: 1 <= j <= c.maxFiles ==> j !in f.steps
  }

  /**
   A rotation succeeds exactly if the flush, every rename and the open succeed. Otherwise the
   writer stays on its old inode, and its counter is reset only if all renames were done.
   */
  lemma RotationSucceedsIff(c: Config, s: Log, f: Faults)
    requires c.maxFiles > 0
    ensures var (r, ok) := Rotate(c, s, f);
      && (ok <==> !f.flushFails && RenamesSucceed(c, f) && f.open.Opened?)
      && (ok ==> OnActive(r) && r.bytes == 0)
      && (!ok ==> r.handle == s.handle && r.bytes == if !f.flushFails && RenamesSucceed(c, f) then 0 else s.bytes)
      && (f.flushFails ==> r == s)
  {
    var max := c.maxFiles;
    assert PlanFrom(max, max)[1..] == PlanFrom(max, max - 1);
    var d := if 0 in f.steps then s.disk else s.disk.(names := s.disk.names - {max});
    assert RunSteps(s.disk, PlanFrom(max, max), 0, f.steps) == RunSteps(d, PlanFrom(max, max - 1), 1, f.steps);
    RenamesSucceedIff(d, max, max - 1, 1, f.steps);
  }

  /** A success reports what was appended; a failed write appends nothing, a failed `write_all` a prefix. */
  lemma ResultSays(c: Config, s: Log, op: Op)
    ensures var o := Do(c, s, op);
      && |o.appended| <= |op.buf| && o.appended == op.buf[..|o.appended|]
      && (o.result.Some? ==> o.result.value == |o.appended|)
      && (op.Write? && o.result.None? ==> o.appended == [])
      && (op.Write? && o.result.Some? ==>
            op.written.Some? && |o.appended| == if op.written.value <= |op.buf| then op.written.value else |op.buf|)
      && (op.WriteAll? && o.result.Some? ==> o.appended == op.buf && op.failedAfter.None?)
  {
  }

  /** What a fault-free write puts into the active file. */
  function Reached(op: Op): Bytes
    requires Clean(op)
  {
    if op.Write? then Prefix(op.buf, op.written.value) else op.buf
  }

  /** The active file grows by `b`, and nothing else happens. */
  ghost predicate Grown(s: Log, t: Log, b: Bytes) {
    && t.disk.names == s.disk.names && t.handle == s.handle
    && Content(t.disk, 0) == Content(s.disk, 0) + b
    && forall g: nat :: g > 0 ==> Content(t.disk, g) == Content(s.disk, g)
  }

  /** Every generation moves up by one, and a fresh active file holds `b`. */
  ghost predicate RotatedInto(c: Config, s: Log, t: Log, b: Bytes) {
    && t.handle != s.handle && Content(t.disk, 0) == b
    && forall g: nat :: g < c.maxFiles ==> Content(t.disk, g + 1) == Content(s.disk, g)
  }

  ghost predicate Overflows(c: Config, s: Log, op: Op) {
    c.maxFiles > 0 && |Content(s.disk, 0)| + |op.buf| > c.maxBytes
  }

  lemma CalmGrows(c: Config, s: Log, k: nat, chunks: set<Bytes>, op: Op)
    requires Sized(c, s, k, chunks) && Clean(op) && !Overflows(c, s, op)
    ensures Grown(s, Do(c, s, op).log, Reached(op))
  {
    CalmOperation(c, s, op);
    AppendContents(s, Reached(op));
  }

  lemma OverflowRotates(c: Config, s: Log, k: nat, chunks: set<Bytes>, op: Op)
    requires Sized(c, s, k, chunks) && Clean(op) && Overflows(c, s, op)
    ensures RotatedInto(c, s, Do(c, s, op).log, Reached(op))
  {
    SizedIsHeld(c, s, k, chunks);
    CleanRotationShifts(c, s);
    FreshHandle(c, s);
    var (r, ok) := Rotate(c, s, op.faults);
    var t := Do(c, s, op).log;
    Rebracket([], Reached(op), []);
    forall g: nat | g < c.maxFiles ensures Content(t.disk, g + 1) == Content(s.disk, g) {
      assert Content(r.disk, g + 1) == Content(s.disk, g);
      assert g + 1 in r.disk.names ==> r.disk.names[g + 1] != r.handle;
    }
  }

  lemma FreshHandle(c: Config, s: Log)
    requires c.maxFiles > 0 && Inv(c, s)
    ensures Rotate(c, s, Faults(false, {}, Opened)).0.handle != s.handle
  {
    CleanPlanShifts(s.disk, c.maxFiles);
  }

  /**
   A fault-free run, one write at a time: the writer rotates exactly when the active file and the
   whole write together exceed the limit, and then the write begins a fresh file.
   */
  lemma RotatesExactly(c: Config, s: Log, k: nat, chunks: set<Bytes>, ops: seq<Op>, n: nat)
    requires Sized(c, s, k, chunks) && n < |ops| && forall op :: op in ops ==> Clean(op)
    ensures Clean(ops[n])
    ensures var t, u := Final(c, s, ops[..n]), Final(c, s, ops[..n + 1]);
      if Overflows(c, t, ops[n]) then RotatedInto(c, t, u, Reached(ops[n])) else Grown(t, u, Reached(ops[n]))
  {
    var t := Final(c, s, ops[..n]);
    assert forall op :: op in ops[..n] ==> op in ops;
    assert ops[n] in ops;
    CleanRunBoundsFiles(c, s, k, chunks, ops[..n]);
    FinalSnoc(c, s, ops[..n], ops[n]);
    assert ops[..n + 1] == ops[..n] + [ops[n]];
    var k', chunks' := k + Rotations(c, s, ops[..n]), chunks + Chunks(c, s, ops[..n]);
    if Overflows(c, t, ops[n]) {
      OverflowRotates(c, t, k', chunks', ops[n]);
    } else {
      CalmGrows(c, t, k', chunks', ops[n]);
    }
  }

  lemma {:induction false} FinalSnoc(c: Config, s: Log, ops: seq<Op>, op: Op)
    ensures Final(c, s, ops + [op]) == Do(c, Final(c, s, ops), op).log
    decreases |ops|
  {
    if ops == [] {
      assert Final(c, Do(c, s, op).log, []) == Do(c, s, op).log;
      assert ([op])[1..] == [];
    } else {
      assert (ops + [op])[1..] == ops[1..] + [op];
      FinalSnoc(c, Do(c, s, ops[0]).log, ops[1..], op);
    }
  }

  function TotalSize(ops: seq<Op>): nat {
    if ops == [] then 0 else |ops[0].buf| + TotalSize(ops[1..])
  }

  /** What fits into one file stays in one file: no name changes, and all bytes are in the active file. */
  lemma {:induction false} SmallRunStays(c: Config, s: Log, k: nat, chunks: set<Bytes>, ops: seq<Op>)
    requires Sized(c, s, k, chunks) && forall op :: op in ops ==> Clean(op)
    requires c.maxFiles == 0 || |Content(s.disk, 0)| + TotalSize(ops) <= c.maxBytes
    ensures Grown(s, Final(c, s, ops), Appended(c, s, ops))
    decreases |ops|
  {
    if ops == [] {
      Rebracket([], Content(s.disk, 0), []);
    } else {
      assert ops[0] in ops && forall op :: op in ops[1..] ==> op in ops;
      var o := Do(c, s, ops[0]);
      CleanStep(c, s, k, chunks, ops[0]);
      CalmGrows(c, s, k, chunks, ops[0]);
      assert o.appended == Reached(ops[0]);
      var k' := k + if ShouldRotate(c, s.bytes, |ops[0].buf|) then 1 else 0;
      SmallRunStays(c, o.log, k', chunks + {o.appended}, ops[1..]);
      Rebracket(Content(s.disk, 0), o.appended, Appended(c, o.log, ops[1..]));
    }
  }

  // ---- The writers' objects, updated in place ----

  /** The steps for the generations above `g`. */
  ghost predicate PlannedDownTo(steps: seq<RotationStep>, maxFiles: nat, g: nat) {
    steps + PlanFrom(maxFiles, g) == PlanFrom(maxFiles, maxFiles)
  }

  lemma PlanFirst(steps: seq<RotationStep>, maxFiles: nat, g: nat)
    requires 1 <= g && PlannedDownTo(steps, maxFiles, g)
    ensures PlannedDownTo(steps + [if g == maxFiles then Remove(g) else Rename(g, g + 1)], maxFiles, g - 1)
  {
    var step := if g == maxFiles then Remove(g) else Rename(g, g + 1);
    assert steps + ([step] + PlanFrom(maxFiles, g - 1)) == steps + [step] + PlanFrom(maxFiles, g - 1);
  }

  lemma PlanLast(steps: seq<RotationStep>, maxFiles: nat)
    requires PlannedDownTo(steps, maxFiles, 0)
    ensures steps + [Rename(0, 1)] == PlanFrom(maxFiles, maxFiles)
  {
  }

  class RotationState {
    const maxBytes: nat
    const maxFiles: nat
    var bytesWritten: nat

    constructor (maxBytes: nat, maxFiles: nat, bytesWritten: nat)
      ensures this.maxBytes == (if maxBytes == 0 then 1 else maxBytes)
      ensures this.maxFiles == maxFiles && this.bytesWritten == bytesWritten
    {
      this.maxBytes := if maxBytes == 0 then 1 else maxBytes;
      this.maxFiles := maxFiles;
      this.bytesWritten := bytesWritten;
    }

    function Limits(): Config {
      Config(maxBytes, maxFiles)
    }

    method RotationPlan() returns (steps: seq<RotationStep>)
      ensures steps == PlanFrom(maxFiles, maxFiles)
    {
      steps := [];
      var generation: nat := maxFiles;
      while generation >= 1
        invariant generation <= maxFiles
        invariant PlannedDownTo(steps, maxFiles, generation)
      {
        PlanFirst(steps, maxFiles, generation);
        if generation == maxFiles {
          steps := steps + [Remove(generation)];
        } else {
          steps := steps + [Rename(generation, generation + 1)];
        }
        generation := generation - 1;
      }
      PlanLast(steps, maxFiles);
      steps := steps + [Rename(0, 1)];
    }

    method RecordWrite(written: nat)
      modifies this
      ensures bytesWritten == old(bytesWritten) + written
    {
      bytesWritten := bytesWritten + written;
    }

    method ResetAfterRotation()
      modifies this
      ensures bytesWritten == 0
    {
      bytesWritten := 0;
    }
  }

  /**
   The writer behind the gateway's own log (`Write`) and a service's output log (`WriteAll`).
   `history` is the content found at the start followed by every byte appended since.
   */
  class SizeRotatingFile {
    const rotation: RotationState
    var disk: Disk
    var handle: nat
    ghost var lost: Bytes
    ghost var history: Bytes

    ghost function View(): Log
      reads this, rotation
    {
      Log(disk, handle, rotation.bytesWritten)
    }

    ghost predicate Valid()
      reads this, rotation
    {
      Inv(rotation.Limits(), View()) && lost + Stream(disk, rotation.maxFiles) == history
    }

    constructor (disk: Disk, maxBytes: nat, maxFiles: nat)
      requires WellFormed(disk)
      ensures Valid() && fresh(rotation)
      ensures this.disk == OpenActive(disk) && handle == this.disk.names[0]
      ensures rotation.bytesWritten == |Content(disk, 0)| && rotation.maxFiles == maxFiles
      ensures rotation.maxBytes == if maxBytes == 0 then 1 else maxBytes
      ensures lost == [] && history == Stream(disk, maxFiles)
    {
      var started := OpenActive(disk);
      SameStream(disk, started, maxFiles);
      Rebracket([], Stream(disk, maxFiles), []);
      this.rotation := new RotationState(maxBytes, maxFiles, |Content(started, 0)|);
      this.disk := started;
      this.handle := started.names[0];
      this.lost := [];
      this.history := Stream(disk, maxFiles);
      assert Placed(started, started.names[0], maxFiles, 0);
    }

    method RotateIfNeeded(incoming: nat, faults: Faults) returns (ok: bool)
      requires Valid()
      modifies this, rotation
      ensures Valid() && history == old(history)
      ensures (View(), ok) == RotatedIfNeeded(rotation.Limits(), old(View()), incoming, faults)
      ensures rotation.maxFiles == 0 || old(rotation.bytesWritten) + incoming <= rotation.maxBytes ==>
        ok && View() == old(View())
      ensures rotation.maxFiles > 0 && old(rotation.bytesWritten) + incoming > rotation.maxBytes ==>
        && (ok <==> !faults.flushFails && RenamesSucceed(rotation.Limits(), faults) && faults.open.Opened?)
        && (ok ==> OnActive(View()) && rotation.bytesWritten == 0)
    {
      ghost var before := View();
      var limits := rotation.Limits();
      RotationKeepsStream(limits, before, incoming, faults);
      if limits.maxFiles > 0 { RotationSucceedsIff(limits, before, faults); }
      if !ShouldRotate(limits, rotation.bytesWritten, incoming) { return true; }
      if faults.flushFails { return false; }
      var steps := rotation.RotationPlan();
      var i := 0;
      while i < |steps|
        invariant history == old(history) && lost == old(lost)
        invariant i <= |steps| && handle == before.handle && rotation.bytesWritten == before.bytes
        invariant RunSteps(before.disk, steps, 0, faults.steps) == RunSteps(disk, steps[i..], i, faults.steps)
      {
        assert steps[i..][1..] == steps[i + 1..];
        match steps[i] {
          case Remove(g) =>
            if i !in faults.steps { disk := disk.(names := disk.names - {g}); }
          case Rename(from, to) =>
            if i in faults.steps {
              Settle(before);
              return false;
            }
            disk := Move(disk, from, to);
        }
        i := i + 1;
      }
      if faults.open.NotCreated? {
        ok := false;
      } else {
        disk := OpenActive(disk);
        if faults.open.Opened? { handle := disk.names[0]; }
        ok := faults.open.Opened?;
      }
      rotation.ResetAfterRotation();
      Settle(before);
    }

    /** Records in the ghost state what a finished rotation, complete or not, has dropped. */
    ghost method Settle(before: Log)
      requires lost + Stream(before.disk, rotation.maxFiles) == history
      requires Inv(rotation.Limits(), View()) && Keeps(before.disk, disk, rotation.maxFiles)
      modifies this`lost
      ensures Valid()
    {
      var s0, s1 := Stream(before.disk, rotation.maxFiles), Stream(disk, rotation.maxFiles);
      var gone := if s1 == s0 then [] else Content(before.disk, rotation.maxFiles);
      Rebracket(lost, gone, s1);
      Rebracket(lost, s1, []);
      lost := lost + gone;
    }

    /** Appends to the held inode, whether or not it still has a name. */
    method AppendToHandle(b: Bytes)
      requires Valid()
      modifies this
      ensures Valid() && View() == Append(old(View()), b) && history == old(history) + b
    {
      ghost var before := View();
      AppendStream(rotation.Limits(), before, b);
      Rebracket(lost, Stream(disk, rotation.maxFiles), b);
      disk := disk.(files := disk.files[handle := disk.files[handle] + b]);
      history := history + b;
      if !Named(disk, handle, rotation.maxFiles) {
        UnnamedStream(rotation.Limits(), View());
        Rebracket(history, [], []);
        lost := history;
      }
    }

    /** The gateway's `write`: rotation errors and write errors are returned, short writes counted. */
    method Write(buf: Bytes, faults: Faults, written: Option<nat>) returns (r: Option<nat>)
      requires Valid()
      modifies this, rotation
      ensures Valid()
      ensures var o := Do(rotation.Limits(), old(View()), Op.Write(buf, faults, written));
        View() == o.log && r == o.result && history == old(history) + o.appended
    {
      var ok := RotateIfNeeded(|buf|, faults);
      Rebracket(history, [], []);
      if !ok || written.None? { return None; }
      var b := Prefix(buf, written.value);
      AppendToHandle(b);
      rotation.RecordWrite(|b|);
      r := Some(|b|);
    }

    /** A service log's `write_all`: a failed write may leave a prefix that is not counted. */
    method WriteAll(buf: Bytes, faults: Faults, failedAfter: Option<nat>) returns (r: Option<nat>)
      requires Valid()
      modifies this, rotation
      ensures Valid()
      ensures var o := Do(rotation.Limits(), old(View()), Op.WriteAll(buf, faults, failedAfter));
        View() == o.log && r == o.result && history == old(history) + o.appended
    {
      var ok := RotateIfNeeded(|buf|, faults);
      Rebracket(history, [], []);
      if !ok { return None; }
      if failedAfter.Some? {
        AppendToHandle(Prefix(buf, failedAfter.value));
        return None;
      }
      AppendToHandle(buf);
      rotation.RecordWrite(|buf|);
      r := Some(|buf|);
    }
  }
}
