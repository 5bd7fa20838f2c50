/**
 Patching an inherited list of steps with a target's own entries: an entry replaces or removes
 the inherited step of its key, or adds a new one at the end, before or after a named step.
 */
module StepPatches {
  import opened Options
  import opened Sequences

  datatype Phase = PreStart | PostStartHost | PreStop | PostStop

  /** `phase` is set for lifecycle steps only. */
  datatype Key = Key(phase: Option<Phase>, name: string)

  datatype Position = Append | Before(reference: Key) | After(reference: Key) | ConflictingBeforeAfter

  /** A raw entry: what the patch needs of it, and its payload. */
  datatype Raw<R> = Raw(
    key: Key, enabled: bool, before: Option<string>, after: Option<string>, hasPayload: bool, payload: R)

  /** References are looked up in the entry's own phase. */
  function PositionOf<R>(raw: Raw<R>): Position {
    match (raw.before, raw.after)
    case (Some(b), None) => Before(Key(raw.key.phase, b))
    case (None, Some(a)) => After(Key(raw.key.phase, a))
    case (Some(_), Some(_)) => ConflictingBeforeAfter
    case (None, None) => Append
  }

  /** The converted steps and their keys, kept side by side. */
  datatype State<T> = State(entries: seq<T>, keys: seq<Key>)

  type Convert<!R, !T> = (Raw<R>, Option<T>) -> Option<T>

  function InsertAt<X>(s: seq<X>, i: nat, x: X): (r: seq<X>)
    requires i <= |s|
    ensures |r| == |s| + 1
  {
    s[..i] + [x] + s[i..]
  }

  function RemoveAt<X>(s: seq<X>, i: nat): (r: seq<X>)
    requires i < |s|
    ensures |r| == |s| - 1
  {
    s[..i] + s[i + 1..]
  }

  predicate Aligned<T>(st: State<T>) {
    |st.entries| == |st.keys|
  }

  /** Where a new entry goes, or `None` when its reference is missing or contradictory. */
  function Slot(keys: seq<Key>, p: Position): (r: Option<nat>)
    ensures r.Some? ==> r.value <= |keys|
  {
    match p
    case Append => Some(|keys|)
    case Before(k) => var i := IndexOf(keys, k); if i >= 0 then Some(i) else None
    case After(k) => var i := IndexOf(keys, k); if i >= 0 then Some(i + 1) else None
    case ConflictingBeforeAfter => None
  }

  function Without<T>(st: State<T>, i: nat): (r: State<T>)
    requires Aligned(st) && i < |st.keys|
    ensures Aligned(r)
  {
    State(RemoveAt(st.entries, i), RemoveAt(st.keys, i))
  }

  function With<T>(st: State<T>, at: nat, key: Key, entry: T): (r: State<T>)
    requires Aligned(st) && at <= |st.keys|
    ensures Aligned(r)
  {
    State(InsertAt(st.entries, at, entry), InsertAt(st.keys, at, key))
  }

  function PatchOne<R, T>(st: State<T>, raw: Raw<R>, convert: Convert<R, T>): (r: Option<State<T>>)
    requires Aligned(st)
    ensures r.Some? ==> Aligned(r.value)
  {
    var i := IndexOf(st.keys, raw.key);
    if i >= 0 then
      if PositionOf(raw) != Append then None
      else if !raw.enabled then Some(Without(st, i))
      else
        var e := convert(raw, Some(st.entries[i]));
        if e.None? then None else Some(State(st.entries[i := e.value], st.keys[i := raw.key]))
    else
      var at := Slot(st.keys, PositionOf(raw));
      if !raw.enabled || at.None? then None
      else
        var e := convert(raw, None);
        if e.None? then None else Some(With(st, at.value, raw.key, e.value))
  }

  function PatchAll<R, T>(st: State<T>, raws: seq<Raw<R>>, convert: Convert<R, T>): (r: Option<State<T>>)
    requires Aligned(st)
    ensures r.Some? ==> Aligned(r.value)
    decreases |raws|
  {
    if raws == [] then Some(st)
    else
      var next := PatchOne(st, raws[0], convert);
      if next.None? then None else PatchAll(next.value, raws[1..], convert)
  }

  function KeysOf<T>(steps: seq<T>, keyOf: T -> Key): (r: seq<Key>)
    ensures |r| == |steps| && forall i :: 0 <= i < |r| ==> r[i] == keyOf(steps[i])
  {
    seq(|steps|, i requires 0 <= i < |steps| => keyOf(steps[i]))
  }

  function Merged<R, T>(
    inherited: seq<T>, raws: seq<Raw<R>>, keyOf: T -> Key, convert: Convert<R, T>): Option<State<T>> {
    var keys := KeysOf(inherited, keyOf);
    if !Distinct(keys) then None else PatchAll(State(inherited, keys), raws, convert)
  }

  /** The patch loop, editing the two vectors in step. */
  method MergeTargetStepPatches<R, T>(inherited: seq<T>, raws: seq<Raw<R>>, keyOf: T -> Key, convert: Convert<R, T>)
    returns (r: Option<seq<T>>)
    ensures var m := Merged(inherited, raws, keyOf, convert);
      r == if m.Some? then Some(m.value.entries) else None
  {
    var result := inherited;
    var effectiveKeys := KeysOf(inherited, keyOf);
    if !Distinct(effectiveKeys) { return None; }
    ghost var start := State(result, effectiveKeys);
    for n := 0 to |raws|
      invariant Aligned(State(result, effectiveKeys)) && Distinct(effectiveKeys)
      invariant PatchAll(start, raws, convert) == PatchAll(State(result, effectiveKeys), raws[n..], convert)
    {
      assert raws[n..][0] == raws[n] && raws[n..][1..] == raws[n + 1..];
      ghost var before := State(result, effectiveKeys);
      var entry := raws[n];
      var existingIndex := IndexOf(effectiveKeys, entry.key);
      if existingIndex >= 0 {
        if PositionOf(entry) != Append { return None; }
        if entry.enabled {
          var step := convert(entry, Some(result[existingIndex]));
          if step.None? { return None; }
          result := result[existingIndex := step.value];
          effectiveKeys := effectiveKeys[existingIndex := entry.key];
        } else {
          result := RemoveAt(result, existingIndex);
          effectiveKeys := RemoveAt(effectiveKeys, existingIndex);
        }
      } else {
        if !entry.enabled { return None; }
        var insertAt := Slot(effectiveKeys, PositionOf(entry));
        if insertAt.None? { return None; }
        var step := convert(entry, None);
        if step.None? { return None; }
        result := InsertAt(result, insertAt.value, step.value);
        effectiveKeys := InsertAt(effectiveKeys, insertAt.value, entry.key);
      }
      PatchOneKeepsDistinct(before, entry, convert);
    }
    if !Distinct(effectiveKeys) {
      assert false;
    }
    r := Some(result);
  }

  // ---- One entry ----

  ghost predicate Precedes(keys: seq<Key>, x: Key, y: Key) {
    exists i, j :: 0 <= i < j < |keys| && keys[i] == x && keys[j] == y
  }

  lemma InsertDistinct(keys: seq<Key>, at: nat, k: Key)
    requires at <= |keys| && Distinct(keys) && k !in keys
    ensures Distinct(InsertAt(keys, at, k))
    ensures forall x :: x in InsertAt(keys, at, k) <==> x in keys || x == k
  {
    assert keys == keys[..at] + keys[at..];
  }

  lemma RemoveDistinct(keys: seq<Key>, at: nat)
    requires at < |keys| && Distinct(keys)
    ensures Distinct(RemoveAt(keys, at))
    ensures forall x :: x in RemoveAt(keys, at) <==> x in keys && x != keys[at]
  {
    assert keys == keys[..at] + [keys[at]] + keys[at + 1..];
  }

  /** The keys after one accepted entry. */
  function NextKeys<R>(keys: seq<Key>, raw: Raw<R>): seq<Key> {
    var i := IndexOf(keys, raw.key);
    if i >= 0 then (if raw.enabled then keys else RemoveAt(keys, i))
    else if Slot(keys, PositionOf(raw)).Some? then InsertAt(keys, Slot(keys, PositionOf(raw)).value, raw.key)
    else keys
  }

  lemma PatchOneKeys<R, T>(st: State<T>, raw: Raw<R>, convert: Convert<R, T>)
    requires Aligned(st) && PatchOne(st, raw, convert).Some?
    ensures PatchOne(st, raw, convert).value.keys == NextKeys(st.keys, raw)
    ensures raw.key !in st.keys ==> raw.enabled && Slot(st.keys, PositionOf(raw)).Some?
  {
  }

  lemma PatchOneKeepsDistinct<R, T>(st: State<T>, raw: Raw<R>, convert: Convert<R, T>)
    requires Aligned(st) && Distinct(st.keys) && PatchOne(st, raw, convert).Some?
    ensures Distinct(PatchOne(st, raw, convert).value.keys)
    ensures forall k :: k in PatchOne(st, raw, convert).value.keys <==>
      if k == raw.key then raw.enabled else k in st.keys
  {
    PatchOneKeys(st, raw, convert);
    var i := IndexOf(st.keys, raw.key);
    if i < 0 {
      InsertDistinct(st.keys, Slot(st.keys, PositionOf(raw)).value, raw.key);
    } else if !raw.enabled {
      RemoveDistinct(st.keys, i);
    }
  }

  lemma InsertPrecedes(keys: seq<Key>, at: nat, k: Key, x: Key, y: Key)
    requires at <= |keys| && Precedes(keys, x, y)
    ensures Precedes(InsertAt(keys, at, k), x, y)
  {
    var i, j :| 0 <= i < j < |keys| && keys[i] == x && keys[j] == y;
    var r := InsertAt(keys, at, k);
    var i' := if i < at then i else i + 1;
    var j' := if j < at then j else j + 1;
    assert r[i'] == x && r[j'] == y;
  }

  lemma RemovePrecedes(keys: seq<Key>, at: nat, x: Key, y: Key)
    requires at < |keys| && Precedes(keys, x, y) && x != keys[at] && y != keys[at]
    ensures Precedes(RemoveAt(keys, at), x, y)
  {
    var i, j :| 0 <= i < j < |keys| && keys[i] == x && keys[j] == y;
    var r := RemoveAt(keys, at);
    var i' := if i < at then i else i - 1;
    var j' := if j < at then j else j - 1;
    assert r[i'] == x && r[j'] == y;
  }

  /** Two keys that survive an entry keep their order. */
  lemma PatchOneKeepsOrder<R, T>(st: State<T>, raw: Raw<R>, convert: Convert<R, T>, x: Key, y: Key)
    requires Aligned(st) && Distinct(st.keys) && PatchOne(st, raw, convert).Some? && Precedes(st.keys, x, y)
    requires raw.enabled || (raw.key != x && raw.key != y)
    ensures Precedes(PatchOne(st, raw, convert).value.keys, x, y)
  {
    PatchOneKeys(st, raw, convert);
    var i := IndexOf(st.keys, raw.key);
    if i >= 0 {
      if !raw.enabled { RemovePrecedes(st.keys, i, x, y); }
    } else {
      InsertPrecedes(st.keys, Slot(st.keys, PositionOf(raw)).value, raw.key, x, y);
    }
  }

  /** The step that an entry names, in the entry's own phase. */
  function Reference<R>(raw: Raw<R>, name: string): Key {
    Key(raw.key.phase, name)
  }

  /** A new entry lands directly before or directly after its reference, or at the end. */
  lemma PatchOnePlaces<R, T>(st: State<T>, raw: Raw<R>, convert: Convert<R, T>) returns (at: nat)
    requires Aligned(st) && PatchOne(st, raw, convert).Some? && raw.key !in st.keys
    ensures raw.before.None? || raw.after.None?
    ensures var keys := PatchOne(st, raw, convert).value.keys;
      && at < |keys| && keys[at] == raw.key
      && (raw.before.Some? ==> at + 1 < |keys| && keys[at + 1] == Reference(raw, raw.before.value))
      && (raw.after.Some? ==> 0 < at && keys[at - 1] == Reference(raw, raw.after.value))
      && (raw.before.None? && raw.after.None? ==> keys == st.keys + [raw.key])
  {
    at := Slot(st.keys, PositionOf(raw)).value;
    var keys := InsertAt(st.keys, at, raw.key);
    if raw.before.Some? { assert keys[at + 1] == st.keys[at]; }
    if raw.after.Some? { assert keys[at - 1] == st.keys[at - 1]; }
  }

  // ---- The whole list ----

  ghost predicate DistinctRaws<R>(raws: seq<Raw<R>>) {
    forall i, j :: 0 <= i < j < |raws| ==> raws[i].key != raws[j].key
  }

  ghost predicate Adds<R>(raws: seq<Raw<R>>, k: Key) {
    exists r :: r in raws && r.key == k && r.enabled
  }

  ghost predicate Removes<R>(raws: seq<Raw<R>>, k: Key) {
    exists r :: r in raws && r.key == k && !r.enabled
  }

  lemma RawsSplit<R>(raws: seq<Raw<R>>, k: Key)
    requires raws != [] && DistinctRaws(raws)
    ensures DistinctRaws(raws[1..])
    ensures Adds(raws, k) <==> (raws[0].key == k && raws[0].enabled) || Adds(raws[1..], k)
    ensures Removes(raws, k) <==> (raws[0].key == k && !raws[0].enabled) || Removes(raws[1..], k)
    ensures raws[0].key == k ==> !Adds(raws[1..], k) && !Removes(raws[1..], k)
  {
    assert raws == [raws[0]] + raws[1..];
  }

  /** The resulting keys are unique, and are the inherited ones minus the removed plus the new. */
  lemma {:induction false} ResultKeys<R, T>(st: State<T>, raws: seq<Raw<R>>, convert: Convert<R, T>, k: Key)
    requires Aligned(st) && Distinct(st.keys) && DistinctRaws(raws) && PatchAll(st, raws, convert).Some?
    ensures var keys := PatchAll(st, raws, convert).value.keys;
      Distinct(keys) && (k in keys <==> (k in st.keys && !Removes(raws, k)) || Adds(raws, k))
    ensures Removes(raws, k) ==> k in st.keys
    decreases |raws|
  {
    if raws != [] {
      var next := PatchOne(st, raws[0], convert).value;
      PatchOneKeepsDistinct(st, raws[0], convert);
      RawsSplit(raws, k);
      ResultKeys(next, raws[1..], convert, k);
    }
  }

  /** Keys present before and after keep their relative order. */
  lemma {:induction false} ResultOrder<R, T>(st: State<T>, raws: seq<Raw<R>>, convert: Convert<R, T>, x: Key, y: Key)
    requires Aligned(st) && Distinct(st.keys) && DistinctRaws(raws) && PatchAll(st, raws, convert).Some?
    requires Precedes(st.keys, x, y)
    requires x in PatchAll(st, raws, convert).value.keys && y in PatchAll(st, raws, convert).value.keys
    ensures Precedes(PatchAll(st, raws, convert).value.keys, x, y)
    decreases |raws|
  {
    if raws != [] {
      var next := PatchOne(st, raws[0], convert).value;
      PatchOneKeepsDistinct(st, raws[0], convert);
      RawsSplit(raws, x);
      RawsSplit(raws, y);
      ResultKeys(next, raws[1..], convert, x);
      ResultKeys(next, raws[1..], convert, y);
      PatchOneKeepsOrder(st, raws[0], convert, x, y);
      ResultOrder(next, raws[1..], convert, x, y);
    }
  }

  /** A new step of an entry after number `n`. */
  ghost predicate AddedLater<R>(inherited: seq<Key>, raws: seq<Raw<R>>, n: nat, x: Key) {
    x !in inherited && exists m :: n < m < |raws| && raws[m].key == x
  }

  /** `x` stands before `y`, and between them only what later entries added. */
  ghost predicate Directly<R>(inherited: seq<Key>, raws: seq<Raw<R>>, n: nat, keys: seq<Key>, x: Key, y: Key) {
    && Precedes(keys, x, y)
    && forall z :: Precedes(keys, x, z) && Precedes(keys, z, y) ==> AddedLater(inherited, raws, n, z)
  }

  /** Where the new step of entry `n` stands: by its reference, if that is there, or at the end. */
  ghost predicate PlacedIn<R>(inherited: seq<Key>, raws: seq<Raw<R>>, n: nat, keys: seq<Key>)
    requires n < |raws|
  {
    var raw := raws[n];
    && (raw.before.None? || raw.after.None?)
    && (raw.before.Some? && Reference(raw, raw.before.value) in keys ==>
          Directly(inherited, raws, n, keys, raw.key, Reference(raw, raw.before.value)))
    && (raw.after.Some? && Reference(raw, raw.after.value) in keys ==>
          Directly(inherited, raws, n, keys, Reference(raw, raw.after.value), raw.key))
    && (raw.before.None? && raw.after.None? ==>
          forall z :: Precedes(keys, raw.key, z) ==> AddedLater(inherited, raws, n, z))
  }

  lemma NotBothWays(keys: seq<Key>, x: Key, y: Key)
    requires Distinct(keys) && Precedes(keys, x, y)
    ensures x != y && !Precedes(keys, y, x)
  {
  }

  /** What stands after the new step in the end, and was there when it was placed, stood after it then. */
  lemma OrderFromStart<R, T>(st: State<T>, raws: seq<Raw<R>>, convert: Convert<R, T>, x: Key, y: Key)
    requires Aligned(st) && Distinct(st.keys) && DistinctRaws(raws) && PatchAll(st, raws, convert).Some?
    requires Precedes(PatchAll(st, raws, convert).value.keys, x, y) && x in st.keys && y in st.keys
    ensures Precedes(st.keys, x, y)
  {
    var keys := PatchAll(st, raws, convert).value.keys;
    ResultKeys(st, raws, convert, x);
    NotBothWays(keys, x, y);
    if !Precedes(st.keys, x, y) {
      var i, j := IndexOf(st.keys, x), IndexOf(st.keys, y);
      assert st.keys[i] == x && st.keys[j] == y;
      ResultOrder(st, raws, convert, y, x);
    }
  }

  lemma AddedAfterFirst<R, T>(st: State<T>, raws: seq<Raw<R>>, convert: Convert<R, T>, z: Key)
    requires Aligned(st) && Distinct(st.keys) && DistinctRaws(raws) && PatchAll(st, raws, convert).Some?
    requires raws != [] && raws[0].key !in st.keys && z in PatchAll(st, raws, convert).value.keys
    requires z !in PatchOne(st, raws[0], convert).value.keys
    ensures AddedLater(st.keys, raws, 0, z)
  {
    var next := PatchOne(st, raws[0], convert).value;
    PatchOneKeepsDistinct(st, raws[0], convert);
    RawsSplit(raws, z);
    ResultKeys(next, raws[1..], convert, z);
    var raw :| raw in raws[1..] && raw.key == z;
    var m :| 0 <= m < |raws[1..]| && raws[1..][m] == raw;
    assert raws[m + 1].key == z;
  }

  /** In the list right after its placing the new step has its neighbour, so later only later entries come between. */
  lemma StaysDirect<R, T>(
    st: State<T>, raws: seq<Raw<R>>, convert: Convert<R, T>, at: nat, x: Key, y: Key)
    requires Aligned(st) && Distinct(st.keys) && DistinctRaws(raws) && PatchAll(st, raws, convert).Some?
    requires raws != [] && raws[0].key !in st.keys
    requires
      var keys := PatchOne(st, raws[0], convert).value.keys;
      at + 1 < |keys| && keys[at] == x && keys[at + 1] == y
    requires x in PatchAll(st, raws, convert).value.keys && y in PatchAll(st, raws, convert).value.keys
    ensures Directly(st.keys, raws, 0, PatchAll(st, raws, convert).value.keys, x, y)
  {
    var next := PatchOne(st, raws[0], convert).value;
    var keys := PatchAll(st, raws, convert).value.keys;
    PatchOneKeepsDistinct(st, raws[0], convert);
    RawsSplit(raws, x);
    assert Precedes(next.keys, x, y);
    ResultOrder(next, raws[1..], convert, x, y);
    forall z | Precedes(keys, x, z) && Precedes(keys, z, y) ensures AddedLater(st.keys, raws, 0, z) {
      if z in next.keys {
        OrderFromStart(next, raws[1..], convert, x, z);
        OrderFromStart(next, raws[1..], convert, z, y);
        assert false;
      }
      AddedAfterFirst(st, raws, convert, z);
    }
  }

  lemma FirstPlacement<R, T>(st: State<T>, raws: seq<Raw<R>>, convert: Convert<R, T>)
    requires Aligned(st) && Distinct(st.keys) && DistinctRaws(raws) && PatchAll(st, raws, convert).Some?
    requires raws != [] && raws[0].key !in st.keys
    ensures PlacedIn(st.keys, raws, 0, PatchAll(st, raws, convert).value.keys)
  {
    var raw := raws[0];
    var next := PatchOne(st, raw, convert).value;
    var keys := PatchAll(st, raws, convert).value.keys;
    var at := PatchOnePlaces(st, raw, convert);
    PatchOneKeepsDistinct(st, raw, convert);
    RawsSplit(raws, raw.key);
    ResultKeys(next, raws[1..], convert, raw.key);
    if raw.before.Some? && Reference(raw, raw.before.value) in keys {
      StaysDirect(st, raws, convert, at, raw.key, Reference(raw, raw.before.value));
    }
    if raw.after.Some? && Reference(raw, raw.after.value) in keys {
      StaysDirect(st, raws, convert, at - 1, Reference(raw, raw.after.value), raw.key);
    }
    if raw.before.None? && raw.after.None? {
      forall z | Precedes(keys, raw.key, z) ensures AddedLater(st.keys, raws, 0, z) {
        if z in next.keys {
          OrderFromStart(next, raws[1..], convert, raw.key, z);
          assert false;
        }
        AddedAfterFirst(st, raws, convert, z);
      }
    }
  }

  /** What an entry after the first added is the same, whether or not the first is counted as inherited. */
  lemma LaterStays<R, T>(st: State<T>, raws: seq<Raw<R>>, convert: Convert<R, T>, n: nat, z: Key)
    requires Aligned(st) && Distinct(st.keys) && DistinctRaws(raws) && PatchAll(st, raws, convert).Some?
    requires 0 < n < |raws|
    requires AddedLater(PatchOne(st, raws[0], convert).value.keys, raws[1..], n - 1, z)
    ensures AddedLater(st.keys, raws, n, z)
  {
    PatchOneKeepsDistinct(st, raws[0], convert);
    var m :| n - 1 < m < |raws[1..]| && raws[1..][m].key == z;
    assert raws[m + 1].key == z && z != raws[0].key;
  }

  /**
   Every new step stands directly before or after its reference, if that survives, or at the end:
   only new steps of later entries come between, or behind.
   */
  lemma {:induction false} ResultPlacement<R, T>(st: State<T>, raws: seq<Raw<R>>, convert: Convert<R, T>, n: nat)
    requires Aligned(st) && Distinct(st.keys) && DistinctRaws(raws) && PatchAll(st, raws, convert).Some?
    requires n < |raws| && raws[n].key !in st.keys
    ensures PlacedIn(st.keys, raws, n, PatchAll(st, raws, convert).value.keys)
    decreases |raws|
  {
    if n == 0 {
      FirstPlacement(st, raws, convert);
    } else {
      var next := PatchOne(st, raws[0], convert).value;
      PatchOneKeepsDistinct(st, raws[0], convert);
      RawsSplit(raws, raws[n].key);
      assert raws[1..][n - 1] == raws[n] && raws[n].key != raws[0].key;
      ResultPlacement(next, raws[1..], convert, n - 1);
      forall z | AddedLater(next.keys, raws[1..], n - 1, z) ensures AddedLater(st.keys, raws, n, z) {
        LaterStays(st, raws, convert, n, z);
      }
      PlacedStill(next.keys, raws[1..], n - 1, st.keys, raws, n, PatchAll(st, raws, convert).value.keys);
    }
  }

  /** Where more may have come later, a step is still in its place. */
  lemma PlacedStill<R>(
    before: seq<Key>, rest: seq<Raw<R>>, m: nat, inherited: seq<Key>, raws: seq<Raw<R>>, n: nat, keys: seq<Key>)
    requires m < |rest| && n < |raws| && rest[m] == raws[n]
    requires forall z :: AddedLater(before, rest, m, z) ==> AddedLater(inherited, raws, n, z)
    requires PlacedIn(before, rest, m, keys)
    ensures PlacedIn(inherited, raws, n, keys)
  {
  }

  function Lookup<T>(st: State<T>, k: Key): Option<T>
    requires Aligned(st)
  {
    var i := IndexOf(st.keys, k);
    if i >= 0 then Some(st.entries[i]) else None
  }

  lemma FindUnique(keys: seq<Key>, i: nat)
    requires Distinct(keys) && i < |keys|
    ensures IndexOf(keys, keys[i]) == i
  {
  }

  lemma LookupAt<T>(st: State<T>, i: nat)
    requires Aligned(st) && Distinct(st.keys) && i < |st.keys|
    ensures Lookup(st, st.keys[i]) == Some(st.entries[i])
  {
    FindUnique(st.keys, i);
  }

  lemma LookupInsert<T>(st: State<T>, at: nat, key: Key, e: T, k: Key)
    requires Aligned(st) && Distinct(st.keys) && at <= |st.keys| && key !in st.keys
    ensures var next := State(InsertAt(st.entries, at, e), InsertAt(st.keys, at, key));
      Lookup(next, k) == if k == key then Some(e) else Lookup(st, k)
  {
    var next := State(InsertAt(st.entries, at, e), InsertAt(st.keys, at, key));
    InsertDistinct(st.keys, at, key);
    var f := IndexOf(st.keys, k);
    if k == key {
      LookupAt(next, at);
    } else if f >= 0 {
      LookupAt(next, if f < at then f else f + 1);
    }
  }

  lemma LookupRemove<T>(st: State<T>, at: nat, k: Key)
    requires Aligned(st) && Distinct(st.keys) && at < |st.keys|
    ensures var next := State(RemoveAt(st.entries, at), RemoveAt(st.keys, at));
      Lookup(next, k) == if k == st.keys[at] then None else Lookup(st, k)
  {
    var next := State(RemoveAt(st.entries, at), RemoveAt(st.keys, at));
    RemoveDistinct(st.keys, at);
    var f := IndexOf(st.keys, k);
    if f >= 0 && k != st.keys[at] {
      LookupAt(next, if f < at then f else f - 1);
    }
  }

  lemma PatchOneEntries<R, T>(st: State<T>, raw: Raw<R>, convert: Convert<R, T>, k: Key)
    requires Aligned(st) && Distinct(st.keys) && PatchOne(st, raw, convert).Some?
    ensures Lookup(PatchOne(st, raw, convert).value, k) ==
      if k != raw.key then Lookup(st, k)
      else if !raw.enabled then None
      else convert(raw, Lookup(st, k))
  {
    var i := IndexOf(st.keys, raw.key);
    if i < 0 {
      LookupInsert(st, Slot(st.keys, PositionOf(raw)).value, raw.key, convert(raw, None).value, k);
    } else if !raw.enabled {
      LookupRemove(st, i, k);
    } else {
      assert st.keys[i := raw.key] == st.keys;
    }
  }

  /** The step under each key: untouched, removed, replaced by its conversion, or newly converted. */
  lemma {:induction false} ResultEntries<R, T>(st: State<T>, raws: seq<Raw<R>>, convert: Convert<R, T>, k: Key)
    requires Aligned(st) && Distinct(st.keys) && DistinctRaws(raws) && PatchAll(st, raws, convert).Some?
    ensures EntryIs(Lookup(st, k), raws, convert, k, Lookup(PatchAll(st, raws, convert).value, k))
    decreases |raws|
  {
    if raws != [] {
      var next := PatchOne(st, raws[0], convert).value;
      PatchOneKeepsDistinct(st, raws[0], convert);
      PatchOneEntries(st, raws[0], convert, k);
      ResultEntries(next, raws[1..], convert, k);
      EntryIsMore(Lookup(st, k), raws, convert, k, Lookup(PatchAll(next, raws[1..], convert).value, k));
    }
  }

  ghost predicate EntryIs<R, T>(
    before: Option<T>, raws: seq<Raw<R>>, convert: Convert<R, T>, k: Key, after: Option<T>) {
    && (!Adds(raws, k) && !Removes(raws, k) ==> after == before)
    && (Removes(raws, k) ==> after == None)
    && (forall raw :: raw in raws && raw.key == k && raw.enabled ==> after == convert(raw, before) && after.Some?)
  }

  lemma EntryIsMore<R, T>(
    before: Option<T>, raws: seq<Raw<R>>, convert: Convert<R, T>, k: Key, after: Option<T>)
    requires raws != [] && DistinctRaws(raws)
    requires k == raws[0].key && raws[0].enabled ==> convert(raws[0], before).Some?
    requires EntryIs(
               if k != raws[0].key then before else if raws[0].enabled then convert(raws[0], before) else None,
               raws[1..], convert, k, after)
    ensures EntryIs(before, raws, convert, k, after)
  {
    RawsSplit(raws, k);
    assert forall raw :: raw in raws ==> raw == raws[0] || raw in raws[1..];
  }

  // ---- When patching succeeds ----

  /** Whether `k` is among the keys once the entries before `n` are done, told from the input alone. */
  ghost predicate PresentBefore<R>(keys: seq<Key>, raws: seq<Raw<R>>, n: nat, k: Key)
    requires n <= |raws|
  {
    (k in keys && !Removes(raws[..n], k)) || Adds(raws[..n], k)
  }

  ghost predicate ReferencePresent<R>(keys: seq<Key>, raws: seq<Raw<R>>, n: nat)
    requires n < |raws|
  {
    var raw := raws[n];
    && (raw.before.None? || raw.after.None?)
    && (raw.before.Some? ==> PresentBefore(keys, raws, n, Reference(raw, raw.before.value)))
    && (raw.after.Some? ==> PresentBefore(keys, raws, n, Reference(raw, raw.after.value)))
  }

  /**
   Entry `n` can be applied: over an inherited step it has no position of its own; a new one is
   not a removal and finds its reference; and what it replaces, if anything, can be converted.
   */
  ghost predicate EntryFits<R, T>(st: State<T>, raws: seq<Raw<R>>, convert: Convert<R, T>, n: nat)
    requires Aligned(st) && n < |raws|
  {
    var raw := raws[n];
    && (if raw.key in st.keys then raw.before.None? && raw.after.None?
        else raw.enabled && ReferencePresent(st.keys, raws, n))
    && (raw.enabled ==> convert(raw, Lookup(st, raw.key)).Some?)
  }

  lemma SlotIff<R>(keys: seq<Key>, raw: Raw<R>)
    ensures Slot(keys, PositionOf(raw)).Some? <==>
      && (raw.before.None? || raw.after.None?)
      && (raw.before.Some? ==> Reference(raw, raw.before.value) in keys)
      && (raw.after.Some? ==> Reference(raw, raw.after.value) in keys)
  {
  }

  lemma FirstReference<R>(keys: seq<Key>, raws: seq<Raw<R>>)
    requires raws != []
    ensures ReferencePresent(keys, raws, 0) <==> Slot(keys, PositionOf(raws[0])).Some?
  {
    assert raws[..0] == [];
    SlotIff(keys, raws[0]);
  }

  lemma FirstFits<R, T>(st: State<T>, raws: seq<Raw<R>>, convert: Convert<R, T>)
    requires Aligned(st) && Distinct(st.keys) && raws != []
    ensures PatchOne(st, raws[0], convert).Some? <==> EntryFits(st, raws, convert, 0)
  {
    FirstReference(st.keys, raws);
  }

  lemma PresentAfterFirst<R, T>(st: State<T>, raws: seq<Raw<R>>, convert: Convert<R, T>, n: nat, k: Key)
    requires Aligned(st) && Distinct(st.keys) && DistinctRaws(raws) && 0 < n < |raws|
    requires PatchOne(st, raws[0], convert).Some?
    ensures PresentBefore(PatchOne(st, raws[0], convert).value.keys, raws[1..], n - 1, k)
      <==> PresentBefore(st.keys, raws, n, k)
  {
    PatchOneKeepsDistinct(st, raws[0], convert);
    assert raws[..n][1..] == raws[1..][..n - 1];
    RawsSplit(raws[..n], k);
  }

  lemma LaterFits<R, T>(st: State<T>, raws: seq<Raw<R>>, convert: Convert<R, T>, n: nat)
    requires Aligned(st) && Distinct(st.keys) && DistinctRaws(raws) && 0 < n < |raws|
    requires PatchOne(st, raws[0], convert).Some?
    ensures EntryFits(PatchOne(st, raws[0], convert).value, raws[1..], convert, n - 1)
      <==> EntryFits(st, raws, convert, n)
  {
    var next, raw := PatchOne(st, raws[0], convert).value, raws[n];
    assert raws[1..][n - 1] == raw && raw.key != raws[0].key;
    PatchOneKeepsDistinct(st, raws[0], convert);
    PatchOneEntries(st, raws[0], convert, raw.key);
    if raw.before.Some? { PresentAfterFirst(st, raws, convert, n, Reference(raw, raw.before.value)); }
    if raw.after.Some? { PresentAfterFirst(st, raws, convert, n, Reference(raw, raw.after.value)); }
  }

  ghost predicate AllFit<R, T>(st: State<T>, raws: seq<Raw<R>>, convert: Convert<R, T>)
    requires Aligned(st)
  {
    forall n: nat :: n < |raws| ==> EntryFits(st, raws, convert, n)
  }

  lemma AllFitSplits<R, T>(st: State<T>, raws: seq<Raw<R>>, convert: Convert<R, T>)
    requires Aligned(st) && Distinct(st.keys) && DistinctRaws(raws) && raws != []
    requires PatchOne(st, raws[0], convert).Some?
    ensures AllFit(st, raws, convert) <==>
      EntryFits(st, raws, convert, 0) && AllFit(PatchOne(st, raws[0], convert).value, raws[1..], convert)
  {
    var next, rest := PatchOne(st, raws[0], convert).value, raws[1..];
    if EntryFits(st, raws, convert, 0) && AllFit(next, rest, convert) {
      forall n: nat | 0 < n < |raws| ensures EntryFits(st, raws, convert, n) {
        assert EntryFits(next, rest, convert, n - 1);
        LaterFits(st, raws, convert, n);
      }
    }
    if AllFit(st, raws, convert) {
      forall n: nat | n < |rest| ensures EntryFits(next, rest, convert, n) { LaterFits(st, raws, convert, n + 1); }
    }
  }

  /** Patching succeeds exactly if every entry fits the inherited steps and the entries before it. */
  lemma {:induction false} PatchSucceedsIff<R, T>(st: State<T>, raws: seq<Raw<R>>, convert: Convert<R, T>)
    requires Aligned(st) && Distinct(st.keys) && DistinctRaws(raws)
    ensures PatchAll(st, raws, convert).Some? <==> AllFit(st, raws, convert)
    decreases |raws|
  {
    if raws != [] {
      FirstFits(st, raws, convert);
      if PatchOne(st, raws[0], convert).Some? {
        PatchOneKeepsDistinct(st, raws[0], convert);
        RawsSplit(raws, raws[0].key);
        PatchSucceedsIff(PatchOne(st, raws[0], convert).value, raws[1..], convert);
        AllFitSplits(st, raws, convert);
      }
    }
  }

  /** The merge as a whole: inherited keys without repeats, and entries that all fit. */
  lemma MergeSucceedsIff<R, T>(inherited: seq<T>, raws: seq<Raw<R>>, keyOf: T -> Key, convert: Convert<R, T>)
    requires DistinctRaws(raws)
    ensures var keys := KeysOf(inherited, keyOf);
      Merged(inherited, raws, keyOf, convert).Some? <==>
      Distinct(keys) && AllFit(State(inherited, keys), raws, convert)
  {
    var keys := KeysOf(inherited, keyOf);
    if Distinct(keys) { PatchSucceedsIff(State(inherited, keys), raws, convert); }
  }

  lemma InsertKeysOf<T>(steps: seq<T>, at: nat, x: T, keyOf: T -> Key)
    requires at <= |steps|
    ensures KeysOf(InsertAt(steps, at, x), keyOf) == InsertAt(KeysOf(steps, keyOf), at, keyOf(x))
  {
  }

  lemma RemoveKeysOf<T>(steps: seq<T>, at: nat, keyOf: T -> Key)
    requires at < |steps|
    ensures KeysOf(RemoveAt(steps, at), keyOf) == RemoveAt(KeysOf(steps, keyOf), at)
  {
  }

  lemma ReplaceKeysOf<T>(steps: seq<T>, at: nat, x: T, keyOf: T -> Key)
    requires at < |steps|
    ensures KeysOf(steps[at := x], keyOf) == KeysOf(steps, keyOf)[at := keyOf(x)]
  {
  }

  lemma InsertAligned<R, T(!new)>(st: State<T>, raw: Raw<R>, keyOf: T -> Key, convert: Convert<R, T>)
    requires Aligned(st) && KeysOf(st.entries, keyOf) == st.keys && PatchOne(st, raw, convert).Some?
    requires convert(raw, None).Some? ==> keyOf(convert(raw, None).value) == raw.key
    requires IndexOf(st.keys, raw.key) < 0
    ensures var r := PatchOne(st, raw, convert).value; KeysOf(r.entries, keyOf) == r.keys
  {
    InsertKeysOf(st.entries, Slot(st.keys, PositionOf(raw)).value, convert(raw, None).value, keyOf);
  }

  lemma ReplaceAligned<R, T(!new)>(st: State<T>, raw: Raw<R>, keyOf: T -> Key, convert: Convert<R, T>)
    requires Aligned(st) && KeysOf(st.entries, keyOf) == st.keys && PatchOne(st, raw, convert).Some?
    requires forall t :: convert(raw, t).Some? ==> keyOf(convert(raw, t).value) == raw.key
    requires IndexOf(st.keys, raw.key) >= 0
    ensures var r := PatchOne(st, raw, convert).value; KeysOf(r.entries, keyOf) == r.keys
  {
    var i := IndexOf(st.keys, raw.key);
    if raw.enabled {
      ReplaceKeysOf(st.entries, i, convert(raw, Some(st.entries[i])).value, keyOf);
    } else {
      RemoveKeysOf(st.entries, i, keyOf);
    }
  }

  lemma PatchOneAligned<R, T(!new)>(st: State<T>, raw: Raw<R>, keyOf: T -> Key, convert: Convert<R, T>)
    requires Aligned(st) && KeysOf(st.entries, keyOf) == st.keys && PatchOne(st, raw, convert).Some?
    requires forall t :: convert(raw, t).Some? ==> keyOf(convert(raw, t).value) == raw.key
    ensures var r := PatchOne(st, raw, convert).value; KeysOf(r.entries, keyOf) == r.keys
  {
    if IndexOf(st.keys, raw.key) < 0 {
      InsertAligned(st, raw, keyOf, convert);
    } else {
      ReplaceAligned(st, raw, keyOf, convert);
    }
  }

  /** A conversion that keeps the key of its entry keeps the two vectors describing the same steps. */
  lemma {:induction false} ResultAligned<R, T(!new)>(
    st: State<T>, raws: seq<Raw<R>>, keyOf: T -> Key, convert: Convert<R, T>)
    requires Aligned(st) && KeysOf(st.entries, keyOf) == st.keys && PatchAll(st, raws, convert).Some?
    requires forall raw, t :: raw in raws && convert(raw, t).Some? ==> keyOf(convert(raw, t).value) == raw.key
    ensures var r := PatchAll(st, raws, convert).value; KeysOf(r.entries, keyOf) == r.keys
    decreases |raws|
  {
    if raws != [] {
      assert raws[0] in raws;
      PatchOneAligned(st, raws[0], keyOf, convert);
      ResultAligned(PatchOne(st, raws[0], convert).value, raws[1..], keyOf, convert);
    }
  }

  /** Whatever the entries, the keys stay unique: the final duplicate check never fails. */
  lemma {:induction false} FinalCheckNeverFails<R, T>(st: State<T>, raws: seq<Raw<R>>, convert: Convert<R, T>)
    requires Aligned(st) && Distinct(st.keys) && PatchAll(st, raws, convert).Some?
    ensures Distinct(PatchAll(st, raws, convert).value.keys)
    decreases |raws|
  {
    if raws != [] {
      PatchOneKeepsDistinct(st, raws[0], convert);
      FinalCheckNeverFails(PatchOne(st, raws[0], convert).value, raws[1..], convert);
    }
  }

  /** The check on a target's raw entries, made before any patching. */
  method ValidateRawTargetSteps<R>(raws: seq<Raw<R>>) returns (ok: bool)
    ensures ok <==>
      DistinctRaws(raws)
      && (forall raw :: raw in raws ==> (raw.before.None? || raw.after.None?) && (raw.enabled || !raw.hasPayload))
  {
    var keys: set<Key> := {};
    for n := 0 to |raws|
      invariant forall k :: k in keys <==> exists i :: 0 <= i < n && raws[i].key == k
      invariant forall i, j :: 0 <= i < j < n ==> raws[i].key != raws[j].key
      invariant forall i :: 0 <= i < n ==>
        (raws[i].before.None? || raws[i].after.None?) && (raws[i].enabled || !raws[i].hasPayload)
    {
      var raw := raws[n];
      if raw.key in keys { return false; }
      keys := keys + {raw.key};
      if raw.before.Some? && raw.after.Some? { return false; }
      if !raw.enabled && raw.hasPayload { return false; }
    }
    ok := true;
  }

  // ---- Lifecycle steps ----

  datatype LifecyclePayload = LifecyclePayload(
    required: Option<bool>, command: Option<seq<string>>, timeout: Option<string>)

  datatype LifecycleStep = LifecycleStep(
    phase: Phase, name: string, required: bool, command: seq<string>, timeout: Option<string>)

  function LifecycleKey(s: LifecycleStep): Key {
    Key(Some(s.phase), s.name)
  }

  /** An entry that gives only a timeout takes the rest from the step it replaces. */
  predicate InheritsPayload(p: LifecyclePayload) {
    p.timeout.Some? && p.command.None? && p.required.None?
  }

  function ToEffective(raw: Raw<LifecyclePayload>, inherited: Option<LifecycleStep>): Option<LifecycleStep> {
    var p := raw.payload;
    var inherits := InheritsPayload(p) && inherited.Some?;
    var command := if p.command.Some? then p.command else if inherits then Some(inherited.value.command) else None;
    var required := if p.required.Some? then p.required.value else if inherits then inherited.value.required else true;
    if command.None? || raw.key.phase.None? then None
    else Some(LifecycleStep(raw.key.phase.value, raw.key.name, required, command.value, p.timeout))
  }

  lemma EffectiveKey(raw: Raw<LifecyclePayload>, inherited: Option<LifecycleStep>)
    requires ToEffective(raw, inherited).Some?
    ensures LifecycleKey(ToEffective(raw, inherited).value) == raw.key
  {
  }

  /** The raw entry that stands for a step as it is. */
  function FromEffective(step: LifecycleStep): Raw<LifecyclePayload> {
    Raw(
      LifecycleKey(step), true, None, None, true,
      LifecyclePayload(Some(step.required), Some(step.command), step.timeout))
  }

  /** A step written out as a raw entry and converted again is the same step, whatever it replaces. */
  lemma StepRoundTrip(step: LifecycleStep, inherited: Option<LifecycleStep>)
    ensures ToEffective(FromEffective(step), inherited) == Some(step)
  {
  }

  /**
   An entry converts exactly if it has a command or, over an inherited step, nothing but a timeout.
   With a command of its own it takes nothing from the step it replaces.
   */
  lemma ConvertsIff(raw: Raw<LifecyclePayload>, inherited: Option<LifecycleStep>)
    requires raw.key.phase.Some?
    ensures var p := raw.payload;
      ToEffective(raw, inherited).Some? <==>
        p.command.Some? || (p.timeout.Some? && p.required.None? && inherited.Some?)
    ensures var p := raw.payload;
      p.command.Some? ==>
        ToEffective(raw, inherited) ==
        Some(LifecycleStep(raw.key.phase.value, raw.key.name, p.required != Some(false), p.command.value, p.timeout))
  {
  }

  function AsRaw(steps: seq<LifecycleStep>): (r: seq<Raw<LifecyclePayload>>)
    ensures |r| == |steps| && forall i :: 0 <= i < |r| ==> r[i] == FromEffective(steps[i])
  {
    seq(|steps|, i requires 0 <= i < |steps| => FromEffective(steps[i]))
  }

  lemma {:induction false} AppendOwn(done: seq<LifecycleStep>, rest: seq<LifecycleStep>)
    requires Distinct(KeysOf(done + rest, LifecycleKey))
    ensures var st := State(done, KeysOf(done, LifecycleKey));
      PatchAll(st, AsRaw(rest), ToEffective) == Some(State(done + rest, KeysOf(done + rest, LifecycleKey)))
    decreases |rest|
  {
    if rest == [] {
      assert done + rest == done;
    } else {
      var st, all := State(done, KeysOf(done, LifecycleKey)), KeysOf(done + rest, LifecycleKey);
      assert all[|done|] == LifecycleKey(rest[0]) && forall i :: 0 <= i < |done| ==> all[i] == st.keys[i];
      assert LifecycleKey(rest[0]) !in st.keys;
      StepRoundTrip(rest[0], None);
      assert st.entries + [rest[0]] == InsertAt(st.entries, |done|, rest[0]);
      assert KeysOf(done + [rest[0]], LifecycleKey) == InsertAt(st.keys, |done|, LifecycleKey(rest[0]));
      assert AsRaw(rest)[1..] == AsRaw(rest[1..]);
      assert done + [rest[0]] + rest[1..] == done + rest;
      AppendOwn(done + [rest[0]], rest[1..]);
    }
  }

  /** Raw entries for the steps of a list give that list, in its order. */
  lemma OwnStepsRoundTrip(steps: seq<LifecycleStep>)
    requires Distinct(KeysOf(steps, LifecycleKey))
    ensures var m := Merged([], AsRaw(steps), LifecycleKey, ToEffective); m.Some? && m.value.entries == steps
  {
    assert [] + steps == steps;
    AppendOwn([], steps);
    assert KeysOf([], LifecycleKey) == [];
  }

  /** The entries of the result describe exactly the merged keys. */
  lemma LifecycleKeysMatch(inherited: seq<LifecycleStep>, raws: seq<Raw<LifecyclePayload>>)
    requires Distinct(KeysOf(inherited, LifecycleKey)) && DistinctRaws(raws)
    requires Merged(inherited, raws, LifecycleKey, ToEffective).Some?
    ensures var m := Merged(inherited, raws, LifecycleKey, ToEffective).value;
      KeysOf(m.entries, LifecycleKey) == m.keys && Distinct(m.keys)
  {
    var st := State(inherited, KeysOf(inherited, LifecycleKey));
    forall raw, t | raw in raws && ToEffective(raw, t).Some?
      ensures LifecycleKey(ToEffective(raw, t).value) == raw.key
    {
      EffectiveKey(raw, t);
    }
    ResultAligned(st, raws, LifecycleKey, ToEffective);
    FinalCheckNeverFails(st, raws, ToEffective);
  }

  /** An entry with only a timeout changes nothing but the timeout of the step it replaces. */
  lemma TimeoutOnlyPatch(inherited: seq<LifecycleStep>, raws: seq<Raw<LifecyclePayload>>, raw: Raw<LifecyclePayload>)
    requires Distinct(KeysOf(inherited, LifecycleKey)) && DistinctRaws(raws)
    requires Merged(inherited, raws, LifecycleKey, ToEffective).Some?
    requires raw in raws && raw.enabled && InheritsPayload(raw.payload)
    ensures var m := Merged(inherited, raws, LifecycleKey, ToEffective).value;
      var st := State(inherited, KeysOf(inherited, LifecycleKey));
      && Lookup(st, raw.key).Some? && Lookup(m, raw.key).Some?
      && Lookup(m, raw.key).value == Lookup(st, raw.key).value.(timeout := raw.payload.timeout)
  {
    var st := State(inherited, KeysOf(inherited, LifecycleKey));
    FinalCheckNeverFails(st, raws, ToEffective);
    ResultEntries(st, raws, ToEffective, raw.key);
    assert ToEffective(raw, Lookup(st, raw.key)).Some?;
    assert st.keys[IndexOf(st.keys, raw.key)] == raw.key;
  }
}
