/**
 Size-based log rotation on a file system whose renames, removals, opens and writes can fail.
 A directory maps generation numbers to inodes (0 is the active path, `g` the path with suffix
 `.g`); the writer holds an inode, which need not have a name any more.
 */
module LogDisk {
  import opened Options

  newtype Byte = b: int | 0 <= b < 256

  type Bytes = seq<Byte>

  datatype Disk = Disk(names: map<nat, nat>, files: seq<Bytes>)

  datatype RotationStep = Remove(gen: nat) | Rename(from: nat, to: nat)

  datatype OpenResult = Opened | NotCreated | CreatedThenFailed

  /** What the operating system does to one rotation: `steps` holds the positions of failing steps. */
  datatype Faults = Faults(flushFails: bool, steps: set<nat>, open: OpenResult)

  datatype Config = Config(maxBytes: nat, maxFiles: nat)

  /** The writer: the disk, the inode it appends to and its byte counter. */
  datatype Log = Log(disk: Disk, handle: nat, bytes: nat)

  /** A write of `buf`: `Write` may be short or fail, `WriteAll` may fail after a prefix. */
  datatype Op =
    | Write(buf: Bytes, faults: Faults, written: Option<nat>)
    | WriteAll(buf: Bytes, faults: Faults, failedAfter: Option<nat>)

  /** `appended` is what reached the held inode. */
  datatype Outcome = Outcome(log: Log, appended: Bytes, result: Option<nat>)

  function Content(d: Disk, g: nat): Bytes {
    if g in d.names && d.names[g] < |d.files| then d.files[d.names[g]] else []
  }

  /** Generations `n`, ..., 1, 0 read one after the other. */
  function Stream(d: Disk, n: nat): Bytes {
    if n == 0 then Content(d, 0) else Content(d, n) + Stream(d, n - 1)
  }

  /** The steps for generations `g`, ..., 1 followed by the move of the active file. */
  function PlanFrom(maxFiles: nat, g: nat): (r: seq<RotationStep>)
    ensures |r| == g + 1
  {
    if g == 0 then [Rename(0, 1)]
    else [if g == maxFiles then Remove(g) else Rename(g, g + 1)] + PlanFrom(maxFiles, g - 1)
  }

  function Move(d: Disk, from: nat, to: nat): Disk {
    if from in d.names then d.(names := d.names[to := d.names[from]] - {from}) else d
  }

  /** Runs `steps`, the first of which has position `i`; a failed removal is ignored. */
  function RunSteps(d: Disk, steps: seq<RotationStep>, i: nat, faults: set<nat>): (Disk, bool)
    decreases |steps|
  {
    if steps == [] then (d, true)
    else
      match steps[0]
      case Remove(g) => RunSteps(if i in faults then d else d.(names := d.names - {g}), steps[1..], i + 1, faults)
      case Rename(f, t) => if i in faults then (d, false) else RunSteps(Move(d, f, t), steps[1..], i + 1, faults)
  }

  function OpenActive(d: Disk): Disk {
    if 0 in d.names then d else Disk(d.names[0 := |d.files|], d.files + [[]])
  }

  predicate ShouldRotate(c: Config, bytes: nat, incoming: nat) {
    c.maxFiles != 0 && bytes + incoming > c.maxBytes
  }

  function Rotate(c: Config, s: Log, f: Faults): (Log, bool) {
    if f.flushFails then (s, false)
    else
      var (d, ok) := RunSteps(s.disk, PlanFrom(c.maxFiles, c.maxFiles), 0, f.steps);
      if !ok then (s.(disk := d), false)
      else
        match f.open
        case Opened => (Log(OpenActive(d), OpenActive(d).names[0], 0), true)
        case NotCreated => (Log(d, s.handle, 0), false)
        case CreatedThenFailed => (Log(OpenActive(d), s.handle, 0), false)
  }

  function RotatedIfNeeded(c: Config, s: Log, incoming: nat, f: Faults): (Log, bool) {
    if ShouldRotate(c, s.bytes, incoming) then Rotate(c, s, f) else (s, true)
  }

  function Append(s: Log, b: Bytes): Log {
    if s.handle < |s.disk.files|
    then s.(disk := s.disk.(files := s.disk.files[s.handle := s.disk.files[s.handle] + b]))
    else s
  }

  function Prefix(b: Bytes, n: nat): Bytes {
    if n <= |b| then b[..n] else b
  }

  function Do(c: Config, s: Log, op: Op): Outcome {
    var (r, ok) := RotatedIfNeeded(c, s, |op.buf|, op.faults);
    if !ok then Outcome(r, [], None)
    else
      match op
      case Write(buf, _, None) => Outcome(r, [], None)
      case Write(buf, _, Some(n)) =>
        var b := Prefix(buf, n);
        Outcome(Append(r, b).(bytes := r.bytes + |b|), b, Some(|b|))
      case WriteAll(buf, _, None) => Outcome(Append(r, buf).(bytes := r.bytes + |buf|), buf, Some(|buf|))
      case WriteAll(buf, _, Some(n)) => Outcome(Append(r, Prefix(buf, n)), Prefix(buf, n), None)
  }

  ghost predicate WellFormed(d: Disk) {
    && (forall g :: g in d.names ==> d.names[g] < |d.files|)
    && (forall g, k :: g in d.names && k in d.names && g != k ==> d.names[g] != d.names[k])
  }

  /**
   The held inode is generation `pos`, or has no name in 0..max when `pos` is `max + 1`; every
   generation newer than it is empty or missing.
   */
  ghost predicate Placed(d: Disk, h: nat, max: nat, pos: nat) {
    && WellFormed(d)
    && h < |d.files| && pos <= max + 1
    && (pos <= max ==> pos in d.names && d.names[pos] == h)
    && (forall g :: g <= max && g != pos && g in d.names ==> d.names[g] != h)
    && (forall g: nat :: g < pos && g <= max ==> Content(d, g) == [])
  }

  /** Whatever the handle's inode is called, everything newer than it is empty or missing. */
  ghost predicate Held(d: Disk, h: nat, max: nat) {
    exists pos: nat :: Placed(d, h, max, pos)
  }

  /** The inode is one of the generations 0..max. */
  ghost predicate Named(d: Disk, h: nat, max: nat) {
    exists g: nat :: g <= max && g in d.names && d.names[g] == h
  }

  /** The handle is on the file that carries the active name. */
  predicate OnActive(s: Log) {
    0 in s.disk.names && s.disk.names[0] == s.handle
  }

  ghost predicate Inv(c: Config, s: Log) {
    Held(s.disk, s.handle, c.maxFiles)
  }

  /** `e` holds what `d` held, except perhaps the whole of the oldest generation. */
  ghost predicate Keeps(d: Disk, e: Disk, max: nat) {
    Stream(e, max) == Stream(d, max) || Content(d, max) + Stream(e, max) == Stream(d, max)
  }

  function Final(c: Config, s: Log, ops: seq<Op>): Log
    decreases |ops|
  {
    if ops == [] then s else Final(c, Do(c, s, ops[0]).log, ops[1..])
  }

  function Appended(c: Config, s: Log, ops: seq<Op>): Bytes
    decreases |ops|
  {
    if ops == [] then [] else Do(c, s, ops[0]).appended + Appended(c, Do(c, s, ops[0]).log, ops[1..])
  }

  predicate Clean(op: Op) {
    op.faults == Faults(false, {}, Opened)
    && (op.Write? ==> op.written.Some?) && (op.WriteAll? ==> op.failedAfter.None?)
  }

  /** Name `k` of `e` is what name `j` of `d` was, present or not. */
  ghost predicate Same(d: Disk, j: nat, e: Disk, k: nat) {
    if j in d.names then k in e.names && e.names[k] == d.names[j] else k !in e.names
  }

  ghost predicate Kept(d: Disk, e: Disk, k: nat) {
    Same(d, k, e, k)
  }

  ghost predicate Raised(d: Disk, e: Disk, k: nat) {
    Same(d, k, e, k + 1)
  }

  /** Generations 1..top of `e` are generations 0..top - 1 of `d`; those above `top` are the same. */
  ghost predicate ShiftedUpTo(d: Disk, e: Disk, top: nat) {
    && e.files == d.files && 0 !in e.names
    && (forall k: nat :: k > top ==> Kept(d, e, k))
    && (forall k: nat :: k < top ==> Raised(d, e, k))
  }

  function Rotations(c: Config, s: Log, ops: seq<Op>): nat
    decreases |ops|
  {
    if ops == [] then 0
    else (if ShouldRotate(c, s.bytes, |ops[0].buf|) then 1 else 0) + Rotations(c, Do(c, s, ops[0]).log, ops[1..])
  }

  /** The bytes of each single write of the run. */
  function Chunks(c: Config, s: Log, ops: seq<Op>): set<Bytes>
    decreases |ops|
  {
    if ops == [] then {} else {Do(c, s, ops[0]).appended} + Chunks(c, Do(c, s, ops[0]).log, ops[1..])
  }

  /** The counter is exact, and the `k` newest files are within the limit or hold one write. */
  ghost predicate Sized(c: Config, s: Log, k: nat, chunks: set<Bytes>) {
    && WellFormed(s.disk) && 0 in s.disk.names && s.disk.names[0] == s.handle
    && s.bytes == |Content(s.disk, 0)|
    && (c.maxFiles == 0 ==> k == 0)
    && forall g: nat :: g < k && g <= c.maxFiles ==>
         |Content(s.disk, g)| <= c.maxBytes || Content(s.disk, g) in chunks
  }
}
