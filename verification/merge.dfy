/**
 Merging gateway configurations along an `extends` chain: tables are merged field by field,
 arrays at a few known paths by the `name` of their entries, everything else is replaced.
 */
module ConfigMerge {
  import opened Options
  import opened Sequences

  /** `Atom` stands for every scalar that is not a string. */
  datatype Value =
    | Table(fields: map<string, Value>)
    | Array(items: seq<Value>)
    | Text(text: string)
    | Atom(repr: string)

  type Path = seq<string>

  predicate MatchesPath(path: Path, pattern: Path) {
    |path| == |pattern| && forall i :: 0 <= i < |path| ==> pattern[i] == "*" || path[i] == pattern[i]
  }

  predicate IsNamedArrayPath(path: Path) {
    || MatchesPath(path, ["target_defaults", "container_agent", "services"])
    || MatchesPath(path, ["target_defaults", "lifecycle_steps"])
    || MatchesPath(path, ["target_defaults", "host_steps"])
    || MatchesPath(path, ["target_defaults", "container_bootstrap_steps"])
    || MatchesPath(path, ["target_templates", "*", "container_agent", "services"])
    || MatchesPath(path, ["target_templates", "*", "lifecycle_steps"])
    || MatchesPath(path, ["target_templates", "*", "host_steps"])
    || MatchesPath(path, ["target_templates", "*", "container_bootstrap_steps"])
    || MatchesPath(path, ["targets", "*", "container_agent", "services"])
    || MatchesPath(path, ["targets", "*", "lifecycle_steps"])
    || MatchesPath(path, ["targets", "*", "host_steps"])
    || MatchesPath(path, ["targets", "*", "container_bootstrap_steps"])
    || MatchesPath(path, ["launch_defaults", "steps"])
    || MatchesPath(path, ["launch_templates", "*", "steps"])
    || MatchesPath(path, ["launches", "*", "steps"])
  }

  predicate IsServiceEnvTablePath(path: Path) {
    || MatchesPath(path, ["target_defaults", "container_agent", "services", "env"])
    || MatchesPath(path, ["target_templates", "*", "container_agent", "services", "env"])
    || MatchesPath(path, ["targets", "*", "container_agent", "services", "env"])
  }

  predicate IsAtomicHostSocketExposureMap(path: Path) {
    || MatchesPath(path, ["target_defaults", "host_socket_exposures"])
    || MatchesPath(path, ["target_templates", "*", "host_socket_exposures"])
    || MatchesPath(path, ["targets", "*", "host_socket_exposures"])
  }

  /** Tables whose entries are replaced whole. */
  predicate IsAtomicMap(path: Path) {
    IsServiceEnvTablePath(path) || IsAtomicHostSocketExposureMap(path)
  }

  /**
   Which paths hold arrays merged by name and which hold atomic maps. The laws below do not
   depend on the choice; `GatewayRules` is the one the gateway uses.
   */
  datatype Rules = Rules(named: Path -> bool, atomic: Path -> bool)

  function GatewayRules(): Rules {
    Rules((path: Path) => IsNamedArrayPath(path), (path: Path) => IsAtomicMap(path))
  }

  /** The string `name` of a table. */
  function NamedArrayKey(v: Value): Option<string> {
    if v.Table? && "name" in v.fields && v.fields["name"].Text? then Some(v.fields["name"].text) else None
  }

  /** Every entry is a table with a string name, and the names are distinct. */
  predicate Keyed(items: seq<Value>) {
    && (forall i :: 0 <= i < |items| ==> NamedArrayKey(items[i]).Some?)
    && (forall i, j :: 0 <= i < j < |items| ==> NamedArrayKey(items[i]) != NamedArrayKey(items[j]))
  }

  /** Position of the entry called `k`, or -1. */
  function Index(items: seq<Value>, k: string): (r: int)
    ensures -1 <= r < |items|
    ensures r >= 0 ==> NamedArrayKey(items[r]) == Some(k)
    ensures r == -1 ==> forall i :: 0 <= i < |items| ==> NamedArrayKey(items[i]) != Some(k)
  {
    if items == [] then -1
    else if NamedArrayKey(items[|items| - 1]) == Some(k) then |items| - 1
    else Index(items[..|items| - 1], k)
  }

  function Keys(items: seq<Value>): (r: seq<string>)
    requires Keyed(items)
    ensures |r| == |items| && forall i :: 0 <= i < |r| ==> Some(r[i]) == NamedArrayKey(items[i])
  {
    seq(|items|, i requires 0 <= i < |items| => NamedArrayKey(items[i]).value)
  }

  /** The entries of `child` whose names `base` does not have. */
  function Fresh(base: seq<Value>, child: seq<Value>): seq<Value>
    requires Keyed(child)
  {
    if child == [] then []
    else
      var last := child[|child| - 1];
      Fresh(base, child[..|child| - 1]) + if Index(base, NamedArrayKey(last).value) < 0 then [last] else []
  }

  /** The merge as a function: `None` is an error. */
  function Merge(rules: Rules, base: Value, child: Value, path: Path): Option<Value>
    decreases child, 1
  {
    if base.Table? && child.Table? then
      if forall k :: k in base.fields && k in child.fields && !rules.atomic(path) ==>
           Merge(rules, base.fields[k], child.fields[k], path + [k]).Some?
      then Some(Table(map k | k in base.fields.Keys + child.fields.Keys ::
        if k !in child.fields then base.fields[k]
        else if k !in base.fields || rules.atomic(path) then child.fields[k]
        else Merge(rules, base.fields[k], child.fields[k], path + [k]).value))
      else None
    else if base.Array? && child.Array? && rules.named(path) then
      if Keyed(base.items) && Keyed(child.items)
        && forall i :: 0 <= i < |base.items| ==> MergeEntry(rules, base.items[i], child, path).Some?
      then Some(Array(
        seq(|base.items|, i requires 0 <= i < |base.items| => MergeEntry(rules, base.items[i], child, path).value)
        + Fresh(base.items, child.items)))
      else None
    else Some(child)
  }

  /** A base entry after the extending array, which may or may not have an entry of its name. */
  function MergeEntry(rules: Rules, entry: Value, child: Value, path: Path): Option<Value>
    requires NamedArrayKey(entry).Some? && child.Array?
    decreases child, 0
  {
    var j := Index(child.items, NamedArrayKey(entry).value);
    if j < 0 then Some(entry) else Merge(rules, entry, child.items[j], path)
  }

  // ---- A merge seen one field or one entry at a time ----

  datatype Slot = Missing | Bad | Has(value: Value)

  function Field(fields: map<string, Value>, k: string): Slot {
    if k in fields then Has(fields[k]) else Missing
  }

  function Entry(items: seq<Value>, k: string): Slot {
    if Index(items, k) >= 0 then Has(items[Index(items, k)]) else Missing
  }

  function Join(rules: Rules, x: Slot, y: Slot, path: Path): Slot {
    if x.Bad? || y.Bad? then Bad
    else if y.Missing? then x
    else if x.Missing? then y
    else if Merge(rules, x.value, y.value, path).Some? then Has(Merge(rules, x.value, y.value, path).value)
    else Bad
  }

  function JoinField(rules: Rules, x: Slot, y: Slot, path: Path, k: string): Slot {
    if rules.atomic(path) && !x.Bad? && !y.Bad? then (if y.Missing? then x else y)
    else Join(rules, x, y, path + [k])
  }

  lemma MergeTables(rules: Rules, b: Value, c: Value, path: Path)
    requires b.Table? && c.Table?
    ensures Merge(rules, b, c, path).Some? <==>
      forall k :: JoinField(rules, Field(b.fields, k), Field(c.fields, k), path, k) != Bad
    ensures Merge(rules, b, c, path).Some? ==> Merge(rules, b, c, path).value.Table?
    ensures Merge(rules, b, c, path).Some? ==>
      forall k :: Field(Merge(rules, b, c, path).value.fields, k) ==
        JoinField(rules, Field(b.fields, k), Field(c.fields, k), path, k)
  {
    if Merge(rules, b, c, path).None? {
      var k :|
        && k in b.fields && k in c.fields && !rules.atomic(path)
        && Merge(rules, b.fields[k], c.fields[k], path + [k]).None?;
      assert JoinField(rules, Field(b.fields, k), Field(c.fields, k), path, k) == Bad;
    }
  }

  function Minus(a: seq<string>, b: seq<string>): seq<string> {
    if a == [] then []
    else Minus(a[..|a| - 1], b) + if a[|a| - 1] in b then [] else [a[|a| - 1]]
  }

  lemma EntryOfKey(items: seq<Value>, i: nat)
    requires Keyed(items) && i < |items|
    ensures Index(items, Keys(items)[i]) == i && Entry(items, Keys(items)[i]) == Has(items[i])
  {
  }

  lemma KeyedSnoc(items: seq<Value>, v: Value)
    requires Keyed(items) && NamedArrayKey(v).Some? && Index(items, NamedArrayKey(v).value) < 0
    ensures Keyed(items + [v]) && Keys(items + [v]) == Keys(items) + [NamedArrayKey(v).value]
    ensures forall k :: Entry(items + [v], k) == if k == NamedArrayKey(v).value then Has(v) else Entry(items, k)
  {
    assert (items + [v])[..|items|] == items;
  }

  lemma KeyedInit(items: seq<Value>)
    requires Keyed(items) && items != []
    ensures var rest := items[..|items| - 1]; var last := items[|items| - 1];
      && items == rest + [last] && Keyed(rest) && NamedArrayKey(last).Some?
      && Index(rest, NamedArrayKey(last).value) < 0
  {
  }

  lemma {:induction false} FreshKeys(base: seq<Value>, child: seq<Value>)
    requires Keyed(base) && Keyed(child)
    ensures Keyed(Fresh(base, child)) && Keys(Fresh(base, child)) == Minus(Keys(child), Keys(base))
    ensures forall k :: Entry(Fresh(base, child), k) == if Entry(base, k).Has? then Missing else Entry(child, k)
    decreases |child|
  {
    if child != [] {
      var rest, last := child[..|child| - 1], child[|child| - 1];
      var key := NamedArrayKey(last).value;
      KeyedInit(child);
      KeyedSnoc(rest, last);
      FreshKeys(base, rest);
      assert Keys(child)[..|child| - 1] == Keys(rest);
      if Index(base, key) < 0 {
        assert Entry(Fresh(base, rest), key).Missing?;
        KeyedSnoc(Fresh(base, rest), last);
      } else {
        assert Fresh(base, child) == Fresh(base, rest);
      }
    }
  }

  /** Two keyed arrays with the same names in the same order and the same entries are equal. */
  lemma KeyedExtensionality(a: seq<Value>, b: seq<Value>)
    requires Keyed(a) && Keyed(b) && Keys(a) == Keys(b)
    requires forall k :: Entry(a, k) == Entry(b, k)
    ensures a == b
  {
    forall i | 0 <= i < |a| ensures a[i] == b[i] {
      EntryOfKey(a, i);
      EntryOfKey(b, i);
    }
  }

  lemma KeyedConcat(u: seq<Value>, f: seq<Value>)
    requires Keyed(u) && Keyed(f) && forall k :: Entry(u, k).Missing? || Entry(f, k).Missing?
    ensures Keyed(u + f) && Keys(u + f) == Keys(u) + Keys(f)
    ensures forall k :: Entry(u + f, k) == if Entry(u, k).Has? then Entry(u, k) else Entry(f, k)
  {
    forall i, j | 0 <= i < |u| && 0 <= j < |f| ensures NamedArrayKey(u[i]) != NamedArrayKey(f[j]) {
      EntryOfKey(u, i);
      EntryOfKey(f, j);
    }
    assert Keyed(u + f);
    forall k ensures Entry(u + f, k) == if Entry(u, k).Has? then Entry(u, k) else Entry(f, k) {
      if Entry(u, k).Has? {
        EntryOfKey(u + f, Index(u, k));
      } else if Entry(f, k).Has? {
        EntryOfKey(u + f, |u| + Index(f, k));
      }
    }
  }

  lemma MergeKeepsName(rules: Rules, x: Value, y: Value, path: Path)
    requires NamedArrayKey(x).Some? && NamedArrayKey(x) == NamedArrayKey(y) && Merge(rules, x, y, path).Some?
    ensures NamedArrayKey(Merge(rules, x, y, path).value) == NamedArrayKey(x)
  {
  }

  /** The entries of the base array after the merge, before the new ones. */
  function Updated(rules: Rules, b: seq<Value>, c: Value, path: Path): (r: seq<Value>)
    requires c.Array?
    requires forall i :: 0 <= i < |b| ==> NamedArrayKey(b[i]).Some? && MergeEntry(rules, b[i], c, path).Some?
    ensures |r| == |b|
  {
    seq(|b|, i requires 0 <= i < |b| => MergeEntry(rules, b[i], c, path).value)
  }

  lemma UpdatedEntries(rules: Rules, b: seq<Value>, c: Value, path: Path)
    requires Keyed(b) && c.Array? && Keyed(c.items)
    requires forall i :: 0 <= i < |b| ==> MergeEntry(rules, b[i], c, path).Some?
    ensures var u := Updated(rules, b, c, path);
      && Keyed(u) && Keys(u) == Keys(b)
      && forall k ::
           Entry(u, k) == if Entry(b, k).Has? then Join(rules, Entry(b, k), Entry(c.items, k), path) else Missing
  {
    var u := Updated(rules, b, c, path);
    forall i | 0 <= i < |b| ensures NamedArrayKey(u[i]) == NamedArrayKey(b[i]) {
      var j := Index(c.items, NamedArrayKey(b[i]).value);
      if j >= 0 { MergeKeepsName(rules, b[i], c.items[j], path); }
    }
    forall k
      ensures Entry(u, k) == if Entry(b, k).Has? then Join(rules, Entry(b, k), Entry(c.items, k), path) else Missing
    {
      if Entry(b, k).Has? { EntryOfKey(u, Index(b, k)); }
    }
  }

  lemma MergeArrays(rules: Rules, b: Value, c: Value, path: Path)
    requires b.Array? && c.Array? && rules.named(path)
    ensures Merge(rules, b, c, path).Some? <==>
      Keyed(b.items) && Keyed(c.items) && forall k :: Join(rules, Entry(b.items, k), Entry(c.items, k), path) != Bad
    ensures Merge(rules, b, c, path).Some? ==> Merge(rules, b, c, path).value.Array?
    ensures Merge(rules, b, c, path).Some? ==>
      var r := Merge(rules, b, c, path).value.items;
      && Keyed(r) && Keys(r) == Keys(b.items) + Minus(Keys(c.items), Keys(b.items))
      && forall k :: Entry(r, k) == Join(rules, Entry(b.items, k), Entry(c.items, k), path)
  {
    if Keyed(b.items) && Keyed(c.items) {
      if i :| 0 <= i < |b.items| && MergeEntry(rules, b.items[i], c, path).None? {
        var k := Keys(b.items)[i];
        EntryOfKey(b.items, i);
        assert Join(rules, Entry(b.items, k), Entry(c.items, k), path) == Bad;
      } else {
        UpdatedEntries(rules, b.items, c, path);
        FreshKeys(b.items, c.items);
        KeyedConcat(Updated(rules, b.items, c, path), Fresh(b.items, c.items));
        assert Merge(rules, b, c, path).value.items == Updated(rules, b.items, c, path) + Fresh(b.items, c.items);
      }
    }
  }

  // ---- Laws ----

  /** What decides how a value at `path` is merged. */
  datatype Kind = TableKind | NamedKind | ReplaceKind

  function KindOf(rules: Rules, v: Value, path: Path): Kind {
    if v.Table? then TableKind
    else if v.Array? && rules.named(path) then NamedKind
    else ReplaceKind
  }

  /** Wherever all three have a value, the last two agree in kind. */
  ghost predicate Compatible(rules: Rules, a: Value, b: Value, c: Value, path: Path)
    decreases c
  {
    && KindOf(rules, b, path) == KindOf(rules, c, path)
    && (a.Table? && b.Table? && c.Table? && !rules.atomic(path) ==>
          forall k :: k in a.fields && k in b.fields && k in c.fields ==>
            Compatible(rules, a.fields[k], b.fields[k], c.fields[k], path + [k]))
    && (KindOf(rules, a, path).NamedKind? && KindOf(rules, b, path).NamedKind? && KindOf(rules, c, path).NamedKind? ==>
          forall k :: Index(a.items, k) >= 0 && Index(b.items, k) >= 0 && Index(c.items, k) >= 0 ==>
            Compatible(rules, a.items[Index(a.items, k)], b.items[Index(b.items, k)], c.items[Index(c.items, k)], path))
  }

  function MergeOpt(rules: Rules, x: Option<Value>, y: Option<Value>, path: Path): Option<Value> {
    if x.Some? && y.Some? then Merge(rules, x.value, y.value, path) else None
  }

  /** The two groupings of three values. */
  function MergeLeft(rules: Rules, a: Value, b: Value, c: Value, path: Path): Option<Value> {
    MergeOpt(rules, Merge(rules, a, b, path), Some(c), path)
  }

  function MergeRight(rules: Rules, a: Value, b: Value, c: Value, path: Path): Option<Value> {
    MergeOpt(rules, Some(a), Merge(rules, b, c, path), path)
  }

  lemma {:induction false} MinusMember(a: seq<string>, b: seq<string>)
    ensures forall k :: k in Minus(a, b) <==> k in a && k !in b
  {
    if a != [] { MinusMember(a[..|a| - 1], b); }
  }

  lemma {:induction false} MinusConcat(a: seq<string>, b: seq<string>, c: seq<string>)
    ensures Minus(a + b, c) == Minus(a, c) + Minus(b, c)
    decreases |b|
  {
    if b == [] {
      assert a + b == a;
    } else {
      assert (a + b)[..|a + b| - 1] == a + b[..|b| - 1];
      MinusConcat(a, b[..|b| - 1], c);
    }
  }

  lemma {:induction false} MinusTwice(a: seq<string>, b: seq<string>, c: seq<string>)
    ensures Minus(Minus(a, b), c) == Minus(a, c + Minus(b, c))
  {
    if a != [] {
      var rest, last := a[..|a| - 1], a[|a| - 1];
      MinusTwice(rest, b, c);
      MinusMember(b, c);
      MinusConcat(Minus(rest, b), [last], c);
      assert Minus(rest, b) + [] == Minus(rest, b);
      assert [last][..0] == [];
      assert Minus([last], c) == if last in c then [] else [last];
    }
  }

  lemma NameOrderAssociative(a: seq<string>, b: seq<string>, c: seq<string>)
    ensures var ab := a + Minus(b, a); var bc := b + Minus(c, b);
      ab + Minus(c, ab) == a + Minus(bc, a)
  {
    MinusConcat(b, Minus(c, b), a);
    MinusTwice(c, b, a);
  }

  function Join3Left(
    rules: Rules, a: map<string, Value>, b: map<string, Value>, c: map<string, Value>, path: Path, k: string): Slot {
    JoinField(rules, JoinField(rules, Field(a, k), Field(b, k), path, k), Field(c, k), path, k)
  }

  function Join3Right(
    rules: Rules, a: map<string, Value>, b: map<string, Value>, c: map<string, Value>, path: Path, k: string): Slot {
    JoinField(rules, Field(a, k), JoinField(rules, Field(b, k), Field(c, k), path, k), path, k)
  }

  lemma TablesLeft(rules: Rules, a: Value, b: Value, c: Value, path: Path)
    requires a.Table? && b.Table? && c.Table?
    ensures MergeLeft(rules, a, b, c, path).Some? <==>
      forall k :: Join3Left(rules, a.fields, b.fields, c.fields, path, k) != Bad
    ensures var m := MergeLeft(rules, a, b, c, path); m.Some? ==> m.value.Table?
    ensures var m := MergeLeft(rules, a, b, c, path);
      m.Some? ==> forall k ::
        Field(m.value.fields, k) == Join3Left(rules, a.fields, b.fields, c.fields, path, k)
  {
    var ab := Merge(rules, a, b, path);
    MergeTables(rules, a, b, path);
    if ab.Some? {
      MergeTables(rules, ab.value, c, path);
      assert forall k ::
        Join3Left(rules, a.fields, b.fields, c.fields, path, k) ==
          JoinField(rules, Field(ab.value.fields, k), Field(c.fields, k), path, k);
    } else {
      var k :| JoinField(rules, Field(a.fields, k), Field(b.fields, k), path, k) == Bad;
      assert Join3Left(rules, a.fields, b.fields, c.fields, path, k) == Bad;
    }
  }

  lemma TablesRight(rules: Rules, a: Value, b: Value, c: Value, path: Path)
    requires a.Table? && b.Table? && c.Table?
    ensures MergeRight(rules, a, b, c, path).Some? <==>
      forall k :: Join3Right(rules, a.fields, b.fields, c.fields, path, k) != Bad
    ensures var m := MergeRight(rules, a, b, c, path); m.Some? ==> m.value.Table?
    ensures var m := MergeRight(rules, a, b, c, path);
      m.Some? ==> forall k ::
        Field(m.value.fields, k) == Join3Right(rules, a.fields, b.fields, c.fields, path, k)
  {
    var bc := Merge(rules, b, c, path);
    MergeTables(rules, b, c, path);
    if bc.Some? {
      MergeTables(rules, a, bc.value, path);
      assert forall k ::
        Join3Right(rules, a.fields, b.fields, c.fields, path, k) ==
          JoinField(rules, Field(a.fields, k), Field(bc.value.fields, k), path, k);
    } else {
      var k :| JoinField(rules, Field(b.fields, k), Field(c.fields, k), path, k) == Bad;
      assert Join3Right(rules, a.fields, b.fields, c.fields, path, k) == Bad;
    }
  }

  lemma FieldExtensionality(a: map<string, Value>, b: map<string, Value>)
    requires forall k :: Field(a, k) == Field(b, k)
    ensures a == b
  {
    forall k ensures k in a <==> k in b { assert Field(a, k) == Field(b, k); }
    forall k | k in a ensures a[k] == b[k] { assert Field(a, k) == Field(b, k); }
  }

  ghost predicate SameField(
    rules: Rules, a: map<string, Value>, b: map<string, Value>, c: map<string, Value>, path: Path, k: string) {
    Join3Left(rules, a, b, c, path, k) == Join3Right(rules, a, b, c, path, k)
  }

  /** Unless both fail, tables agree exactly if they agree field by field. */
  lemma TablesAgree(rules: Rules, a: Value, b: Value, c: Value, path: Path)
    requires a.Table? && b.Table? && c.Table?
    requires MergeLeft(rules, a, b, c, path).Some? || MergeRight(rules, a, b, c, path).Some?
    ensures MergeLeft(rules, a, b, c, path) == MergeRight(rules, a, b, c, path)
      <==> forall k :: SameField(rules, a.fields, b.fields, c.fields, path, k)
  {
    TablesLeft(rules, a, b, c, path);
    TablesRight(rules, a, b, c, path);
    var l, r := MergeLeft(rules, a, b, c, path), MergeRight(rules, a, b, c, path);
    if forall k :: SameField(rules, a.fields, b.fields, c.fields, path, k) {
      forall k ensures
        Join3Left(rules, a.fields, b.fields, c.fields, path, k) ==
          Join3Right(rules, a.fields, b.fields, c.fields, path, k)
      {
        assert SameField(rules, a.fields, b.fields, c.fields, path, k);
      }
      FieldExtensionality(l.value.fields, r.value.fields);
    }
  }

  function Entry3Left(rules: Rules, a: seq<Value>, b: seq<Value>, c: seq<Value>, path: Path, k: string): Slot {
    Join(rules, Join(rules, Entry(a, k), Entry(b, k), path), Entry(c, k), path)
  }

  function Entry3Right(rules: Rules, a: seq<Value>, b: seq<Value>, c: seq<Value>, path: Path, k: string): Slot {
    Join(rules, Entry(a, k), Join(rules, Entry(b, k), Entry(c, k), path), path)
  }

  lemma ArraysLeft(rules: Rules, a: Value, b: Value, c: Value, path: Path)
    requires a.Array? && b.Array? && c.Array? && rules.named(path)
    ensures MergeLeft(rules, a, b, c, path).Some? <==>
      Keyed(a.items) && Keyed(b.items) && Keyed(c.items)
      && forall k :: Entry3Left(rules, a.items, b.items, c.items, path, k) != Bad
    ensures var m := MergeLeft(rules, a, b, c, path); m.Some? ==> m.value.Array? && Keyed(m.value.items)
    ensures var m := MergeLeft(rules, a, b, c, path);
      m.Some? ==> forall k ::
        Entry(m.value.items, k) == Entry3Left(rules, a.items, b.items, c.items, path, k)
    ensures MergeLeft(rules, a, b, c, path).Some? ==>
      var ab := Keys(a.items) + Minus(Keys(b.items), Keys(a.items));
      Keys(MergeLeft(rules, a, b, c, path).value.items) == ab + Minus(Keys(c.items), ab)
  {
    var ab := Merge(rules, a, b, path);
    MergeArrays(rules, a, b, path);
    if ab.Some? {
      MergeArrays(rules, ab.value, c, path);
      assert forall k ::
        Entry3Left(rules, a.items, b.items, c.items, path, k) ==
          Join(rules, Entry(ab.value.items, k), Entry(c.items, k), path);
    } else if Keyed(a.items) && Keyed(b.items) {
      var k :| Join(rules, Entry(a.items, k), Entry(b.items, k), path) == Bad;
      assert Entry3Left(rules, a.items, b.items, c.items, path, k) == Bad;
    }
  }

  lemma ArraysRight(rules: Rules, a: Value, b: Value, c: Value, path: Path)
    requires a.Array? && b.Array? && c.Array? && rules.named(path)
    ensures MergeRight(rules, a, b, c, path).Some? <==>
      Keyed(a.items) && Keyed(b.items) && Keyed(c.items)
      && forall k :: Entry3Right(rules, a.items, b.items, c.items, path, k) != Bad
    ensures var m := MergeRight(rules, a, b, c, path); m.Some? ==> m.value.Array? && Keyed(m.value.items)
    ensures var m := MergeRight(rules, a, b, c, path);
      m.Some? ==> forall k ::
        Entry(m.value.items, k) == Entry3Right(rules, a.items, b.items, c.items, path, k)
    ensures MergeRight(rules, a, b, c, path).Some? ==>
      var bc := Keys(b.items) + Minus(Keys(c.items), Keys(b.items));
      Keys(MergeRight(rules, a, b, c, path).value.items) == Keys(a.items) + Minus(bc, Keys(a.items))
  {
    var bc := Merge(rules, b, c, path);
    MergeArrays(rules, b, c, path);
    if bc.Some? {
      MergeArrays(rules, a, bc.value, path);
      assert forall k ::
        Entry3Right(rules, a.items, b.items, c.items, path, k) ==
          Join(rules, Entry(a.items, k), Entry(bc.value.items, k), path);
    } else if Keyed(b.items) && Keyed(c.items) {
      var k :| Join(rules, Entry(b.items, k), Entry(c.items, k), path) == Bad;
      assert Entry3Right(rules, a.items, b.items, c.items, path, k) == Bad;
    }
  }

  ghost predicate SameEntry(rules: Rules, a: seq<Value>, b: seq<Value>, c: seq<Value>, path: Path, k: string) {
    Entry3Left(rules, a, b, c, path, k) == Entry3Right(rules, a, b, c, path, k)
  }

  /** Unless both fail, named arrays agree exactly if they agree entry by entry. */
  lemma ArraysAgree(rules: Rules, a: Value, b: Value, c: Value, path: Path)
    requires a.Array? && b.Array? && c.Array? && rules.named(path)
    requires MergeLeft(rules, a, b, c, path).Some? || MergeRight(rules, a, b, c, path).Some?
    ensures MergeLeft(rules, a, b, c, path) == MergeRight(rules, a, b, c, path)
      <==> forall k :: SameEntry(rules, a.items, b.items, c.items, path, k)
  {
    ArraysLeft(rules, a, b, c, path);
    ArraysRight(rules, a, b, c, path);
    var l, r := MergeLeft(rules, a, b, c, path), MergeRight(rules, a, b, c, path);
    if forall k :: SameEntry(rules, a.items, b.items, c.items, path, k) {
      forall k ensures
        Entry3Left(rules, a.items, b.items, c.items, path, k) == Entry3Right(rules, a.items, b.items, c.items, path, k)
      {
        assert SameEntry(rules, a.items, b.items, c.items, path, k);
      }
      NameOrderAssociative(Keys(a.items), Keys(b.items), Keys(c.items));
      KeyedExtensionality(l.value.items, r.value.items);
    }
  }

  // ---- When a merge fails or changes nothing, and when grouping matters, told from the values alone ----

  /** The field or entry `k` of a value, where a merge may look inside. */
  function Part(rules: Rules, v: Value, path: Path, k: string): (r: Slot)
    ensures !r.Bad? && (r.Has? ==> r.value < v)
  {
    match KindOf(rules, v, path)
    case TableKind => if rules.atomic(path) then Missing else Field(v.fields, k)
    case NamedKind => Entry(v.items, k)
    case ReplaceKind => Missing
  }

  function Below(v: Value, path: Path, k: string): Path {
    if v.Table? then path + [k] else path
  }

  predicate NamesOk(rules: Rules, v: Value, path: Path) {
    KindOf(rules, v, path).NamedKind? ==> Keyed(v.items)
  }

  /** Two values of one kind, with a misnamed array among them or with parts of one name that clash. */
  ghost predicate Clashes(rules: Rules, b: Value, c: Value, path: Path)
    decreases c, 1
  {
    && KindOf(rules, b, path) == KindOf(rules, c, path)
    && (!NamesOk(rules, b, path) || !NamesOk(rules, c, path) || exists k :: PartsClash(rules, b, c, path, k))
  }

  ghost predicate PartsClash(rules: Rules, b: Value, c: Value, path: Path, k: string)
    decreases c, 0
  {
    var x, y := Part(rules, b, path, k), Part(rules, c, path, k);
    x.Has? && y.Has? && Clashes(rules, x.value, y.value, Below(c, path, k))
  }

  /** The last value clashes with what the first two leave of each part. */
  ghost predicate LeftClashes(rules: Rules, a: Value, b: Value, c: Value, path: Path)
    decreases c, 1
  {
    || Clashes(rules, a, b, path)
    || (KindOf(rules, b, path) == KindOf(rules, c, path) &&
        if KindOf(rules, a, path) != KindOf(rules, b, path) then Clashes(rules, b, c, path)
        else !NamesOk(rules, c, path) || exists k :: PartsClashLeft(rules, a, b, c, path, k))
  }

  ghost predicate PartsClashLeft(rules: Rules, a: Value, b: Value, c: Value, path: Path, k: string)
    decreases c, 0
  {
    var x, y, z := Part(rules, a, path, k), Part(rules, b, path, k), Part(rules, c, path, k);
    z.Has? &&
    if x.Has? && y.Has? then LeftClashes(rules, x.value, y.value, z.value, Below(c, path, k))
    else PartsClash(rules, a, c, path, k) || PartsClash(rules, b, c, path, k)
  }

  /** The first value clashes with what the last two leave of each part. */
  ghost predicate RightClashes(rules: Rules, a: Value, b: Value, c: Value, path: Path)
    decreases c, 1
  {
    || Clashes(rules, b, c, path)
    || (KindOf(rules, a, path) == KindOf(rules, c, path) &&
        if KindOf(rules, b, path) != KindOf(rules, c, path) then Clashes(rules, a, c, path)
        else !NamesOk(rules, a, path) || exists k :: PartsClashRight(rules, a, b, c, path, k))
  }

  ghost predicate PartsClashRight(rules: Rules, a: Value, b: Value, c: Value, path: Path, k: string)
    decreases c, 0
  {
    var x, y, z := Part(rules, a, path, k), Part(rules, b, path, k), Part(rules, c, path, k);
    x.Has? &&
    if y.Has? && z.Has? then RightClashes(rules, x.value, y.value, z.value, Below(c, path, k))
    else PartsClash(rules, a, b, path, k) || PartsClash(rules, a, c, path, k)
  }

  /** `c` has all that `a` has: every field, or the same first entries, and each of them absorbs its counterpart. */
  ghost predicate Absorbs(rules: Rules, a: Value, c: Value, path: Path)
    decreases c, 1
  {
    KindOf(rules, a, path) == KindOf(rules, c, path) ==>
      && NamesOk(rules, a, path) && NamesOk(rules, c, path) && NamesLead(rules, a, c, path)
      && forall k :: PartAbsorbs(rules, a, c, path, k)
  }

  predicate NamesLead(rules: Rules, a: Value, c: Value, path: Path)
    requires KindOf(rules, a, path) == KindOf(rules, c, path) && NamesOk(rules, a, path) && NamesOk(rules, c, path)
  {
    match KindOf(rules, c, path)
    case TableKind => a.fields.Keys <= c.fields.Keys
    case NamedKind => Keys(a.items) <= Keys(c.items)
    case ReplaceKind => true
  }

  ghost predicate PartAbsorbs(rules: Rules, a: Value, c: Value, path: Path, k: string)
    decreases c, 0
  {
    var x, z := Part(rules, a, path, k), Part(rules, c, path, k);
    x.Has? && z.Has? ==> Absorbs(rules, x.value, z.value, Below(c, path, k))
  }

  /**
   When the groupings agree. If `b` and `c` differ in kind, then `c` replaces `b`, so the left
   grouping forgets `a`: that is harmless if `a` is of a third kind, if it is of the kind of `b`
   and does not clash with it, or if `c` absorbs it. Values of one kind agree if both groupings
   clash, or if they agree where all three have a field or an entry. A value `a` of another kind
   than both is replaced either way.
   */
  ghost predicate Agrees(rules: Rules, a: Value, b: Value, c: Value, path: Path)
    decreases c, 1
  {
    var ka, kb, kc := KindOf(rules, a, path), KindOf(rules, b, path), KindOf(rules, c, path);
    if kb != kc then (ka == kb ==> !Clashes(rules, a, b, path)) && (ka == kc ==> Absorbs(rules, a, c, path))
    else ka == kb ==>
      || (LeftClashes(rules, a, b, c, path) && RightClashes(rules, a, b, c, path))
      || forall k :: PartsAgree(rules, a, b, c, path, k)
  }

  ghost predicate PartsAgree(rules: Rules, a: Value, b: Value, c: Value, path: Path, k: string)
    decreases c, 0
  {
    var x, y, z := Part(rules, a, path, k), Part(rules, b, path, k), Part(rules, c, path, k);
    x.Has? && y.Has? && z.Has? ==> Agrees(rules, x.value, y.value, z.value, Below(c, path, k))
  }

  function JoinParts(rules: Rules, b: Value, c: Value, path: Path, k: string): Slot {
    Join(rules, Part(rules, b, path, k), Part(rules, c, path, k), Below(c, path, k))
  }

  lemma MergeParts(rules: Rules, b: Value, c: Value, path: Path)
    requires KindOf(rules, b, path) == KindOf(rules, c, path)
    ensures Merge(rules, b, c, path).Some? <==>
      NamesOk(rules, b, path) && NamesOk(rules, c, path) && forall k :: JoinParts(rules, b, c, path, k) != Bad
  {
    match KindOf(rules, c, path)
    case TableKind =>
      MergeTables(rules, b, c, path);
      forall k ensures JoinParts(rules, b, c, path, k) == Bad
        <==> JoinField(rules, Field(b.fields, k), Field(c.fields, k), path, k) == Bad {}
    case NamedKind =>
      MergeArrays(rules, b, c, path);
      assert forall k :: JoinParts(rules, b, c, path, k) == Join(rules, Entry(b.items, k), Entry(c.items, k), path);
    case ReplaceKind =>
  }

  /** A merge fails exactly on values that clash. */
  lemma {:induction false} ClashesIff(rules: Rules, b: Value, c: Value, path: Path)
    ensures Merge(rules, b, c, path).None? <==> Clashes(rules, b, c, path)
    decreases c
  {
    if KindOf(rules, b, path) == KindOf(rules, c, path) {
      MergeParts(rules, b, c, path);
      forall k ensures JoinParts(rules, b, c, path, k) == Bad <==> PartsClash(rules, b, c, path, k) {
        var x, y := Part(rules, b, path, k), Part(rules, c, path, k);
        if x.Has? && y.Has? { ClashesIff(rules, x.value, y.value, Below(c, path, k)); }
      }
    }
  }

  function LeftPart(rules: Rules, a: Value, b: Value, c: Value, path: Path, k: string): Slot {
    Join(rules, JoinParts(rules, a, b, path, k), Part(rules, c, path, k), Below(c, path, k))
  }

  function RightPart(rules: Rules, a: Value, b: Value, c: Value, path: Path, k: string): Slot {
    Join(rules, Part(rules, a, path, k), JoinParts(rules, b, c, path, k), Below(c, path, k))
  }

  ghost predicate OneKind(rules: Rules, a: Value, b: Value, c: Value, path: Path) {
    KindOf(rules, a, path) == KindOf(rules, b, path) == KindOf(rules, c, path)
  }

  lemma LeftParts(rules: Rules, a: Value, b: Value, c: Value, path: Path)
    requires OneKind(rules, a, b, c, path)
    ensures MergeLeft(rules, a, b, c, path).Some? <==>
      && NamesOk(rules, a, path) && NamesOk(rules, b, path) && NamesOk(rules, c, path)
      && forall k :: LeftPart(rules, a, b, c, path, k) != Bad
  {
    match KindOf(rules, c, path)
    case TableKind =>
      TablesLeft(rules, a, b, c, path);
      forall k ensures LeftPart(rules, a, b, c, path, k) == Bad
        <==> Join3Left(rules, a.fields, b.fields, c.fields, path, k) == Bad {}
    case NamedKind =>
      ArraysLeft(rules, a, b, c, path);
      forall k ensures LeftPart(rules, a, b, c, path, k) == Entry3Left(rules, a.items, b.items, c.items, path, k) {}
    case ReplaceKind =>
  }

  lemma RightParts(rules: Rules, a: Value, b: Value, c: Value, path: Path)
    requires OneKind(rules, a, b, c, path)
    ensures MergeRight(rules, a, b, c, path).Some? <==>
      && NamesOk(rules, a, path) && NamesOk(rules, b, path) && NamesOk(rules, c, path)
      && forall k :: RightPart(rules, a, b, c, path, k) != Bad
  {
    match KindOf(rules, c, path)
    case TableKind =>
      TablesRight(rules, a, b, c, path);
      forall k ensures RightPart(rules, a, b, c, path, k) == Bad
        <==> Join3Right(rules, a.fields, b.fields, c.fields, path, k) == Bad {}
    case NamedKind =>
      ArraysRight(rules, a, b, c, path);
      forall k ensures RightPart(rules, a, b, c, path, k) == Entry3Right(rules, a.items, b.items, c.items, path, k) {}
    case ReplaceKind =>
  }

  /** Merging the first two and then the third fails exactly on values that clash this way. */
  lemma {:induction false} LeftClashesIff(rules: Rules, a: Value, b: Value, c: Value, path: Path)
    ensures MergeLeft(rules, a, b, c, path).None? <==> LeftClashes(rules, a, b, c, path)
    decreases c, 1
  {
    ClashesIff(rules, a, b, path);
    ClashesIff(rules, b, c, path);
    if OneKind(rules, a, b, c, path) {
      LeftParts(rules, a, b, c, path);
      MergeParts(rules, a, b, path);
      forall k ensures LeftPart(rules, a, b, c, path, k) == Bad
        <==> JoinParts(rules, a, b, path, k) == Bad || PartsClashLeft(rules, a, b, c, path, k)
      {
        LeftPartClashes(rules, a, b, c, path, k);
      }
    }
  }

  lemma {:induction false} LeftPartClashes(rules: Rules, a: Value, b: Value, c: Value, path: Path, k: string)
    requires OneKind(rules, a, b, c, path)
    ensures LeftPart(rules, a, b, c, path, k) == Bad
      <==> JoinParts(rules, a, b, path, k) == Bad || PartsClashLeft(rules, a, b, c, path, k)
    decreases c, 0
  {
    var x, y, z := Part(rules, a, path, k), Part(rules, b, path, k), Part(rules, c, path, k);
    if z.Has? {
      if x.Has? && y.Has? {
        LeftClashesIff(rules, x.value, y.value, z.value, Below(c, path, k));
      } else if x.Has? {
        ClashesIff(rules, x.value, z.value, Below(c, path, k));
      } else if y.Has? {
        ClashesIff(rules, y.value, z.value, Below(c, path, k));
      }
    }
  }

  /** Merging the last two and then the first with them fails exactly on values that clash this way. */
  lemma {:induction false} RightClashesIff(rules: Rules, a: Value, b: Value, c: Value, path: Path)
    ensures MergeRight(rules, a, b, c, path).None? <==> RightClashes(rules, a, b, c, path)
    decreases c, 1
  {
    ClashesIff(rules, b, c, path);
    ClashesIff(rules, a, c, path);
    if OneKind(rules, a, b, c, path) {
      RightParts(rules, a, b, c, path);
      MergeParts(rules, b, c, path);
      forall k ensures RightPart(rules, a, b, c, path, k) == Bad
        <==> JoinParts(rules, b, c, path, k) == Bad || PartsClashRight(rules, a, b, c, path, k)
      {
        RightPartClashes(rules, a, b, c, path, k);
      }
    }
  }

  lemma {:induction false} RightPartClashes(rules: Rules, a: Value, b: Value, c: Value, path: Path, k: string)
    requires OneKind(rules, a, b, c, path)
    ensures RightPart(rules, a, b, c, path, k) == Bad
      <==> JoinParts(rules, b, c, path, k) == Bad || PartsClashRight(rules, a, b, c, path, k)
    decreases c, 0
  {
    var x, y, z := Part(rules, a, path, k), Part(rules, b, path, k), Part(rules, c, path, k);
    if x.Has? {
      if y.Has? && z.Has? {
        RightClashesIff(rules, x.value, y.value, z.value, Below(c, path, k));
      } else if y.Has? {
        ClashesIff(rules, x.value, y.value, Below(c, path, k));
      } else if z.Has? {
        ClashesIff(rules, x.value, z.value, Below(c, path, k));
      }
    }
  }

  lemma {:induction false} MinusAll(a: seq<string>, b: seq<string>)
    requires forall k :: k in a ==> k in b
    ensures Minus(a, b) == []
  {
    if a != [] { MinusAll(a[..|a| - 1], b); }
  }

  lemma {:induction false} PrefixMinus(a: seq<string>, c: seq<string>)
    requires Distinct(c) && a <= c
    ensures a + Minus(c, a) == c
    decreases |c|
  {
    if a == c {
      MinusAll(c, a);
    } else {
      var rest, last := c[..|c| - 1], c[|c| - 1];
      PrefixMinus(a, rest);
      assert a + Minus(c, a) == (a + Minus(rest, a)) + [last];
    }
  }

  lemma AbsorbedTables(rules: Rules, a: Value, c: Value, path: Path)
    requires a.Table? && c.Table?
    ensures Merge(rules, a, c, path) == Some(c) <==>
      a.fields.Keys <= c.fields.Keys
      && forall k :: Part(rules, c, path, k).Has? ==> JoinParts(rules, a, c, path, k) == Part(rules, c, path, k)
  {
    MergeTables(rules, a, c, path);
    if Merge(rules, a, c, path) == Some(c) {
      forall k ensures JoinField(rules, Field(a.fields, k), Field(c.fields, k), path, k) == Field(c.fields, k) {}
    } else if a.fields.Keys <= c.fields.Keys
      && forall k :: Part(rules, c, path, k).Has? ==> JoinParts(rules, a, c, path, k) == Part(rules, c, path, k) {
      forall k ensures JoinField(rules, Field(a.fields, k), Field(c.fields, k), path, k) == Field(c.fields, k) {
        assert Part(rules, c, path, k).Has? ==> JoinParts(rules, a, c, path, k) == Part(rules, c, path, k);
      }
      FieldExtensionality(Merge(rules, a, c, path).value.fields, c.fields);
    }
  }

  lemma AbsorbedArrays(rules: Rules, a: Value, c: Value, path: Path)
    requires a.Array? && c.Array? && rules.named(path) && Keyed(a.items) && Keyed(c.items)
    ensures Merge(rules, a, c, path) == Some(c) <==>
      Keys(a.items) <= Keys(c.items)
      && forall k :: Part(rules, c, path, k).Has? ==> JoinParts(rules, a, c, path, k) == Part(rules, c, path, k)
  {
    MergeArrays(rules, a, c, path);
    if Merge(rules, a, c, path) == Some(c) {
      forall k ensures JoinParts(rules, a, c, path, k) == Part(rules, c, path, k) {}
    } else if Keys(a.items) <= Keys(c.items)
      && forall k :: Part(rules, c, path, k).Has? ==> JoinParts(rules, a, c, path, k) == Part(rules, c, path, k) {
      forall k ensures Join(rules, Entry(a.items, k), Entry(c.items, k), path) == Entry(c.items, k) {
        assert Part(rules, c, path, k).Has? ==> JoinParts(rules, a, c, path, k) == Part(rules, c, path, k);
        if Entry(a.items, k).Has? { EntryOfKey(c.items, Index(a.items, k)); }
      }
      PrefixMinus(Keys(a.items), Keys(c.items));
      KeyedExtensionality(Merge(rules, a, c, path).value.items, c.items);
    }
  }

  /** Merging into `c` gives back `c` exactly if `c` absorbs the base. */
  lemma {:induction false} AbsorbsIff(rules: Rules, a: Value, c: Value, path: Path)
    ensures Merge(rules, a, c, path) == Some(c) <==> Absorbs(rules, a, c, path)
    decreases c
  {
    if KindOf(rules, a, path) == KindOf(rules, c, path) && NamesOk(rules, a, path) && NamesOk(rules, c, path) {
      if c.Table? { AbsorbedTables(rules, a, c, path); }
      if KindOf(rules, c, path).NamedKind? { AbsorbedArrays(rules, a, c, path); }
      forall k ensures PartAbsorbs(rules, a, c, path, k) <==>
        (Part(rules, c, path, k).Has? ==> JoinParts(rules, a, c, path, k) == Part(rules, c, path, k))
      {
        var x, z := Part(rules, a, path, k), Part(rules, c, path, k);
        if x.Has? && z.Has? { AbsorbsIff(rules, x.value, z.value, Below(c, path, k)); }
      }
    }
  }

  /** Where a part is missing in one of the three, the groupings cannot differ; elsewhere the parts decide. */
  lemma SamePart(rules: Rules, a: Value, b: Value, c: Value, path: Path, k: string)
    requires OneKind(rules, a, b, c, path)
    ensures LeftPart(rules, a, b, c, path, k) == RightPart(rules, a, b, c, path, k) <==>
      var x, y, z := Part(rules, a, path, k), Part(rules, b, path, k), Part(rules, c, path, k);
      x.Has? && y.Has? && z.Has? ==>
        MergeLeft(rules, x.value, y.value, z.value, Below(c, path, k))
        == MergeRight(rules, x.value, y.value, z.value, Below(c, path, k))
  {
  }

  /** Unless both groupings fail, values of one kind agree exactly if they agree part by part. */
  lemma PartsDecide(rules: Rules, a: Value, b: Value, c: Value, path: Path)
    requires OneKind(rules, a, b, c, path)
    requires MergeLeft(rules, a, b, c, path).Some? || MergeRight(rules, a, b, c, path).Some?
    ensures MergeLeft(rules, a, b, c, path) == MergeRight(rules, a, b, c, path)
      <==> forall k :: LeftPart(rules, a, b, c, path, k) == RightPart(rules, a, b, c, path, k)
  {
    match KindOf(rules, c, path)
    case TableKind =>
      TablesAgree(rules, a, b, c, path);
      forall k ensures SameField(rules, a.fields, b.fields, c.fields, path, k) <==>
        LeftPart(rules, a, b, c, path, k) == RightPart(rules, a, b, c, path, k) {}
    case NamedKind =>
      ArraysAgree(rules, a, b, c, path);
      forall k ensures SameEntry(rules, a.items, b.items, c.items, path, k) <==>
        LeftPart(rules, a, b, c, path, k) == RightPart(rules, a, b, c, path, k) {}
    case ReplaceKind =>
  }

  /** Grouping does not matter exactly under `Agrees`: same failure or same value, entry order included. */
  lemma {:induction false} AssociativeIff(rules: Rules, a: Value, b: Value, c: Value, path: Path)
    ensures MergeLeft(rules, a, b, c, path) == MergeRight(rules, a, b, c, path) <==> Agrees(rules, a, b, c, path)
    decreases c
  {
    LeftClashesIff(rules, a, b, c, path);
    RightClashesIff(rules, a, b, c, path);
    if KindOf(rules, b, path) != KindOf(rules, c, path) {
      MixedKinds(rules, a, b, c, path);
      ClashesIff(rules, a, b, path);
      AbsorbsIff(rules, a, c, path);
    } else if OneKind(rules, a, b, c, path)
      && (MergeLeft(rules, a, b, c, path).Some? || MergeRight(rules, a, b, c, path).Some?) {
      PartsDecide(rules, a, b, c, path);
      forall k ensures LeftPart(rules, a, b, c, path, k) == RightPart(rules, a, b, c, path, k)
        <==> PartsAgree(rules, a, b, c, path, k)
      {
        SamePart(rules, a, b, c, path, k);
        var x, y, z := Part(rules, a, path, k), Part(rules, b, path, k), Part(rules, c, path, k);
        if x.Has? && y.Has? && z.Has? { AssociativeIff(rules, x.value, y.value, z.value, Below(c, path, k)); }
      }
    }
  }

  lemma {:induction false} CompatibleAgrees(rules: Rules, a: Value, b: Value, c: Value, path: Path)
    requires Compatible(rules, a, b, c, path)
    ensures Agrees(rules, a, b, c, path)
    decreases c
  {
    forall k ensures KindOf(rules, a, path) == KindOf(rules, b, path) ==> PartsAgree(rules, a, b, c, path, k) {
      var x, y, z := Part(rules, a, path, k), Part(rules, b, path, k), Part(rules, c, path, k);
      if KindOf(rules, a, path) == KindOf(rules, b, path) && x.Has? && y.Has? && z.Has? {
        CompatibleAgrees(rules, x.value, y.value, z.value, Below(c, path, k));
      }
    }
  }

  /** In particular both groupings agree, failures included, if the last two values agree in kind throughout. */
  lemma MergeAssociative(rules: Rules, a: Value, b: Value, c: Value, path: Path)
    requires Compatible(rules, a, b, c, path)
    ensures MergeLeft(rules, a, b, c, path) == MergeRight(rules, a, b, c, path)
  {
    CompatibleAgrees(rules, a, b, c, path);
    AssociativeIff(rules, a, b, c, path);
  }

  /** A middle value of another kind than the last is forgotten on the left only. */
  lemma MixedKinds(rules: Rules, a: Value, b: Value, c: Value, path: Path)
    requires KindOf(rules, b, path) != KindOf(rules, c, path)
    ensures MergeLeft(rules, a, b, c, path) == if Merge(rules, a, b, path).Some? then Some(c) else None
    ensures MergeRight(rules, a, b, c, path) == Merge(rules, a, c, path)
  {
  }

  /** Three files that differ in one field: a scalar between two tables makes the left grouping lose the base's. */
  lemma GroupingMatters(k: string, text: string) returns (a: Value, b: Value, c: Value)
    ensures a.Table? && b.Table? && c.Table?
    ensures var left, right := MergeLeft(GatewayRules(), a, b, c, []), MergeRight(GatewayRules(), a, b, c, []);
      left.Some? && right.Some? && left != right
  {
    var rules := GatewayRules();
    var x, y, z := Table(map["cwd" := Text(text)]), Text(text), Table(map[]);
    a, b, c := Table(map[k := x]), Table(map[k := y]), Table(map[k := z]);
    EmptyTableIsUnit(rules, x, [k]);
    MixedKinds(rules, x, y, z, [k]);
    OneField(rules, k, x, y, z);
    assert "cwd" in x.fields && "cwd" !in z.fields;
  }

  /** Three tables with one field are merged as their values are. */
  lemma OneField(rules: Rules, k: string, x: Value, y: Value, z: Value)
    requires !rules.atomic([])
    requires MergeLeft(rules, x, y, z, [k]).Some? && MergeRight(rules, x, y, z, [k]).Some?
    ensures var a, b, c := Table(map[k := x]), Table(map[k := y]), Table(map[k := z]);
      && MergeLeft(rules, a, b, c, []).Some? && MergeRight(rules, a, b, c, []).Some?
      && Field(MergeLeft(rules, a, b, c, []).value.fields, k) == Has(MergeLeft(rules, x, y, z, [k]).value)
      && Field(MergeRight(rules, a, b, c, []).value.fields, k) == Has(MergeRight(rules, x, y, z, [k]).value)
  {
    assert [] + [k] == [k];
    TablesLeft(rules, Table(map[k := x]), Table(map[k := y]), Table(map[k := z]), []);
    TablesRight(rules, Table(map[k := x]), Table(map[k := y]), Table(map[k := z]), []);
  }

  /** The empty table is a unit for tables, and a left unit for everything. */
  lemma EmptyTableIsUnit(rules: Rules, v: Value, path: Path)
    ensures Merge(rules, Table(map[]), v, path) == Some(v)
    ensures v.Table? ==> Merge(rules, v, Table(map[]), path) == Some(v)
  {
    if v.Table? {
      assert forall k :: k in v.fields ==> k in Merge(rules, v, Table(map[]), path).value.fields;
      FieldExtensionality(Merge(rules, v, Table(map[]), path).value.fields, v.fields);
      FieldExtensionality(Merge(rules, Table(map[]), v, path).value.fields, v.fields);
    }
  }

  /** Named arrays have unique string names, wherever a merge looks inside. */
  ghost predicate WellNamed(rules: Rules, v: Value, path: Path) {
    && (v.Table? && !rules.atomic(path) ==> forall k :: k in v.fields ==> WellNamed(rules, v.fields[k], path + [k]))
    && (KindOf(rules, v, path).NamedKind? ==>
          Keyed(v.items) && forall i :: 0 <= i < |v.items| ==> WellNamed(rules, v.items[i], path))
  }

  /** Merging a value with itself succeeds exactly when it is well named, and changes nothing. */
  lemma {:induction false} MergeIdempotent(rules: Rules, v: Value, path: Path)
    ensures Merge(rules, v, v, path) == if WellNamed(rules, v, path) then Some(v) else None
  {
    if v.Table? {
      if !rules.atomic(path) {
        forall k | k in v.fields
          ensures Merge(rules, v.fields[k], v.fields[k], path + [k])
            == if WellNamed(rules, v.fields[k], path + [k]) then Some(v.fields[k]) else None
        {
          MergeIdempotent(rules, v.fields[k], path + [k]);
        }
      }
      if Merge(rules, v, v, path).Some? { FieldExtensionality(Merge(rules, v, v, path).value.fields, v.fields); }
    } else if KindOf(rules, v, path).NamedKind? && Keyed(v.items) {
      forall i | 0 <= i < |v.items|
        ensures MergeEntry(rules, v.items[i], v, path) ==
          if WellNamed(rules, v.items[i], path) then Some(v.items[i]) else None
      {
        EntryOfKey(v.items, i);
        MergeIdempotent(rules, v.items[i], path);
      }
      NothingFresh(v.items, v.items);
      if Merge(rules, v, v, path).Some? { assert Merge(rules, v, v, path).value.items == v.items; }
    }
  }

  lemma {:induction false} NothingFresh(base: seq<Value>, child: seq<Value>)
    requires Keyed(child) && forall v :: v in child ==> v in base
    ensures Fresh(base, child) == []
    decreases |child|
  {
    if child != [] {
      var last := child[|child| - 1];
      assert last in child;
      NothingFresh(base, child[..|child| - 1]);
    }
  }

  /** Entries of an atomic map are replaced whole, never merged. */
  lemma AtomicMapsOverride(rules: Rules, b: map<string, Value>, c: map<string, Value>, path: Path)
    requires rules.atomic(path)
    ensures Merge(rules, Table(b), Table(c), path) == Some(Table(b + c))
  {
    FieldExtensionality(Merge(rules, Table(b), Table(c), path).value.fields, b + c);
  }

  /** `tail` below the defaults of all targets, below one target template, or below one target. */
  predicate InTarget(path: Path, tail: Path) {
    || path == ["target_defaults"] + tail
    || (|path| >= 2 && (path[0] == "target_templates" || path[0] == "targets") && path[2..] == tail)
  }

  predicate InLaunch(path: Path, tail: Path) {
    || path == ["launch_defaults"] + tail
    || (|path| >= 2 && (path[0] == "launch_templates" || path[0] == "launches") && path[2..] == tail)
  }

  predicate Literal(p: Path) {
    forall i :: 0 <= i < |p| ==> p[i] != "*"
  }

  lemma MatchExactly(path: Path, pattern: Path)
    requires Literal(pattern)
    ensures MatchesPath(path, pattern) <==> path == pattern
  {
  }

  lemma MatchUnder(path: Path, owner: string, tail: Path)
    requires owner != "*" && Literal(tail)
    ensures MatchesPath(path, [owner, "*"] + tail) <==> |path| >= 2 && path[0] == owner && path[2..] == tail
  {
    var pattern := [owner, "*"] + tail;
    assert pattern[2..] == tail;
    if MatchesPath(path, pattern) {
      assert forall i :: 0 <= i < |tail| ==> path[2..][i] == pattern[i + 2];
    }
    if |path| >= 2 && path[0] == owner && path[2..] == tail {
      assert forall i :: 2 <= i < |path| ==> path[i] == path[2..][i - 2];
    }
  }

  lemma TargetPatterns(path: Path, tail: Path)
    requires Literal(tail)
    ensures InTarget(path, tail) <==>
      || MatchesPath(path, ["target_defaults"] + tail)
      || MatchesPath(path, ["target_templates", "*"] + tail) || MatchesPath(path, ["targets", "*"] + tail)
  {
    assert Literal(["target_defaults"] + tail);
    MatchExactly(path, ["target_defaults"] + tail);
    MatchUnder(path, "target_templates", tail);
    MatchUnder(path, "targets", tail);
  }

  lemma LaunchPatterns(path: Path, tail: Path)
    requires Literal(tail)
    ensures InLaunch(path, tail) <==>
      || MatchesPath(path, ["launch_defaults"] + tail)
      || MatchesPath(path, ["launch_templates", "*"] + tail) || MatchesPath(path, ["launches", "*"] + tail)
  {
    assert Literal(["launch_defaults"] + tail);
    MatchExactly(path, ["launch_defaults"] + tail);
    MatchUnder(path, "launch_templates", tail);
    MatchUnder(path, "launches", tail);
  }

  lemma TargetPattern(path: Path, name: string)
    requires name != "*"
    ensures InTarget(path, [name]) <==>
      || MatchesPath(path, ["target_defaults", name])
      || MatchesPath(path, ["target_templates", "*", name]) || MatchesPath(path, ["targets", "*", name])
  {
    TargetPatterns(path, [name]);
    assert ["target_defaults"] + [name] == ["target_defaults", name];
    assert ["target_templates", "*"] + [name] == ["target_templates", "*", name];
    assert ["targets", "*"] + [name] == ["targets", "*", name];
  }

  /** Exactly the services and the three kinds of steps of targets and the steps of launches are merged by name. */
  lemma NamedArrayPlaces(path: Path)
    ensures GatewayRules().named(path) <==>
      || InTarget(path, ["container_agent", "services"]) || InTarget(path, ["lifecycle_steps"])
      || InTarget(path, ["host_steps"]) || InTarget(path, ["container_bootstrap_steps"])
      || InLaunch(path, ["steps"])
  {
    TargetPatterns(path, ["container_agent", "services"]);
    assert ["target_defaults"] + ["container_agent", "services"] == ["target_defaults", "container_agent", "services"];
    assert ["target_templates", "*"] + ["container_agent", "services"]
        == ["target_templates", "*", "container_agent", "services"];
    assert ["targets", "*"] + ["container_agent", "services"] == ["targets", "*", "container_agent", "services"];
    TargetPattern(path, "lifecycle_steps");
    TargetPattern(path, "host_steps");
    TargetPattern(path, "container_bootstrap_steps");
    LaunchPatterns(path, ["steps"]);
    assert ["launch_defaults"] + ["steps"] == ["launch_defaults", "steps"];
    assert ["launch_templates", "*"] + ["steps"] == ["launch_templates", "*", "steps"];
    assert ["launches", "*"] + ["steps"] == ["launches", "*", "steps"];
  }

  /** Exactly the environments of a target's services and its socket exposures are replaced entry by entry. */
  lemma AtomicMapPlaces(path: Path)
    ensures GatewayRules().atomic(path) <==>
      InTarget(path, ["container_agent", "services", "env"]) || InTarget(path, ["host_socket_exposures"])
  {
    var tail := ["container_agent", "services", "env"];
    TargetPatterns(path, tail);
    assert ["target_defaults"] + tail == ["target_defaults", "container_agent", "services", "env"];
    assert ["target_templates", "*"] + tail == ["target_templates", "*", "container_agent", "services", "env"];
    assert ["targets", "*"] + tail == ["targets", "*", "container_agent", "services", "env"];
    TargetPattern(path, "host_socket_exposures");
  }

  lemma ServicePaths(target: string)
    ensures var services := ["targets", target, "container_agent", "services"];
      GatewayRules().named(services) && !GatewayRules().atomic(services) && GatewayRules().atomic(services + ["env"])
  {
    var services := ["targets", target, "container_agent", "services"];
    assert MatchesPath(services, ["targets", "*", "container_agent", "services"]);
    assert MatchesPath(services + ["env"], ["targets", "*", "container_agent", "services", "env"]);
    var defaults := ["target_defaults", "container_agent", "services", "env"];
    assert services[0] != defaults[0] && defaults[0] != "*" by {
      assert |services[0]| == 7 && |defaults[0]| == 15;
    }
    assert !MatchesPath(services, defaults);
  }

  /**
   Two services of one name in a target: the merged service has the environment of the base with
   each variable that the extending file sets replaced whole, whatever kind of value it has.
   */
  lemma ServiceEnvIsReplaced(target: string, b: seq<Value>, c: seq<Value>, name: string)
    requires Keyed(b) && Keyed(c) && Index(b, name) >= 0 && Index(c, name) >= 0
    requires HasEnv(b[Index(b, name)]) && HasEnv(c[Index(c, name)])
    requires Merge(GatewayRules(), Array(b), Array(c), ["targets", target, "container_agent", "services"]).Some?
    ensures
      var r := Merge(GatewayRules(), Array(b), Array(c), ["targets", target, "container_agent", "services"]).value;
      && r.Array? && Index(r.items, name) >= 0 && HasEnv(r.items[Index(r.items, name)])
      && EnvOf(r.items[Index(r.items, name)]) == EnvOf(b[Index(b, name)]) + EnvOf(c[Index(c, name)])
  {
    ServicePaths(target);
    var services := ["targets", target, "container_agent", "services"];
    EntryEnvIsReplaced(GatewayRules(), b, c, services, name);
  }

  predicate HasEnv(service: Value) {
    service.Table? && "env" in service.fields && service.fields["env"].Table?
  }

  function EnvOf(service: Value): map<string, Value>
    requires HasEnv(service)
  {
    service.fields["env"].fields
  }

  lemma EntryEnvIsReplaced(rules: Rules, b: seq<Value>, c: seq<Value>, path: Path, name: string)
    requires rules.named(path) && !rules.atomic(path) && rules.atomic(path + ["env"])
    requires Keyed(b) && Keyed(c) && Index(b, name) >= 0 && Index(c, name) >= 0
    requires HasEnv(b[Index(b, name)]) && HasEnv(c[Index(c, name)])
    requires Merge(rules, Array(b), Array(c), path).Some?
    ensures var r := Merge(rules, Array(b), Array(c), path).value;
      && r.Array? && Index(r.items, name) >= 0 && HasEnv(r.items[Index(r.items, name)])
      && EnvOf(r.items[Index(r.items, name)]) == EnvOf(b[Index(b, name)]) + EnvOf(c[Index(c, name)])
  {
    var x, y := b[Index(b, name)], c[Index(c, name)];
    MergeArrays(rules, Array(b), Array(c), path);
    var r := Merge(rules, Array(b), Array(c), path).value.items;
    assert Entry(r, name) == Join(rules, Entry(b, name), Entry(c, name), path);
    AtomicMapsOverride(rules, EnvOf(x), EnvOf(y), path + ["env"]);
    assert x.fields["env"] == Table(EnvOf(x)) && y.fields["env"] == Table(EnvOf(y));
    MergeTables(rules, x, y, path);
    assert Field(Merge(rules, x, y, path).value.fields, "env")
        == JoinField(rules, Field(x.fields, "env"), Field(y.fields, "env"), path, "env");
  }

  // ---- Chains ----

  /** The files of an `extends` chain, the most basic first, merged as the loader does. */
  function Fold(rules: Rules, chain: seq<Value>): Option<Value>
    requires chain != []
  {
    if |chain| == 1 then Some(chain[0])
    else MergeOpt(rules, Fold(rules, chain[..|chain| - 1]), Some(chain[|chain| - 1]), [])
  }

  /**
   `shape` says of every place what kind of value belongs there. A place is the path with the
   name of each array entry on the way, so entries of different names may differ in shape.
   */
  ghost predicate Conforms(rules: Rules, v: Value, path: Path, place: Path, shape: Path -> Kind) {
    && KindOf(rules, v, path) == shape(place)
    && (v.Table? && !rules.atomic(path) ==>
          forall k :: k in v.fields ==> Conforms(rules, v.fields[k], path + [k], place + [k], shape))
    && (KindOf(rules, v, path).NamedKind? && !rules.atomic(path) ==>
          forall i, k :: 0 <= i < |v.items| && NamedArrayKey(v.items[i]).Some? && k in v.items[i].fields ==>
            Conforms(rules, v.items[i].fields[k], path + [k], EntryPlace(place, v.items[i]) + [k], shape))
  }

  function EntryPlace(place: Path, e: Value): Path
    requires NamedArrayKey(e).Some?
  {
    place + [NamedArrayKey(e).value]
  }

  ghost predicate FieldsConform(rules: Rules, v: Value, path: Path, place: Path, shape: Path -> Kind) {
    && v.Table?
    && (!rules.atomic(path) ==>
          forall k :: k in v.fields ==> Conforms(rules, v.fields[k], path + [k], place + [k], shape))
  }

  lemma {:induction false} FieldsCompatible(
    rules: Rules, a: Value, b: Value, c: Value, path: Path, place: Path, shape: Path -> Kind)
    requires FieldsConform(rules, a, path, place, shape)
    requires FieldsConform(rules, b, path, place, shape)
    requires FieldsConform(rules, c, path, place, shape)
    ensures Compatible(rules, a, b, c, path)
    decreases c, 0
  {
    if !rules.atomic(path) {
      forall k | k in a.fields && k in b.fields && k in c.fields
        ensures Compatible(rules, a.fields[k], b.fields[k], c.fields[k], path + [k])
      {
        ConformsCompatible(rules, a.fields[k], b.fields[k], c.fields[k], path + [k], place + [k], shape);
      }
    }
  }

  lemma {:induction false} ConformsCompatible(
    rules: Rules, a: Value, b: Value, c: Value, path: Path, place: Path, shape: Path -> Kind)
    requires Conforms(rules, a, path, place, shape)
    requires Conforms(rules, b, path, place, shape)
    requires Conforms(rules, c, path, place, shape)
    ensures Compatible(rules, a, b, c, path)
    decreases c, 1
  {
    if c.Table? {
      FieldsCompatible(rules, a, b, c, path, place, shape);
    } else if KindOf(rules, c, path).NamedKind? {
      forall k | Index(a.items, k) >= 0 && Index(b.items, k) >= 0 && Index(c.items, k) >= 0
        ensures Compatible(
          rules, a.items[Index(a.items, k)], b.items[Index(b.items, k)], c.items[Index(c.items, k)], path)
      {
        var x, y, z := a.items[Index(a.items, k)], b.items[Index(b.items, k)], c.items[Index(c.items, k)];
        ConformingEntry(rules, a, Index(a.items, k), path, place, shape);
        ConformingEntry(rules, b, Index(b.items, k), path, place, shape);
        ConformingEntry(rules, c, Index(c.items, k), path, place, shape);
        FieldsCompatible(rules, x, y, z, path, place + [k], shape);
      }
    }
  }

  lemma ConformingEntry(rules: Rules, v: Value, i: nat, path: Path, place: Path, shape: Path -> Kind)
    requires Conforms(rules, v, path, place, shape) && KindOf(rules, v, path).NamedKind?
    requires i < |v.items| && NamedArrayKey(v.items[i]).Some?
    ensures FieldsConform(rules, v.items[i], path, EntryPlace(place, v.items[i]), shape)
  {
  }

  lemma {:induction false} MergeFieldsConform(
    rules: Rules, a: Value, b: Value, path: Path, place: Path, shape: Path -> Kind)
    requires FieldsConform(rules, a, path, place, shape) && FieldsConform(rules, b, path, place, shape)
    requires Merge(rules, a, b, path).Some?
    ensures FieldsConform(rules, Merge(rules, a, b, path).value, path, place, shape)
    decreases b, 0
  {
    if !rules.atomic(path) {
      var r := Merge(rules, a, b, path).value;
      forall k | k in r.fields ensures Conforms(rules, r.fields[k], path + [k], place + [k], shape) {
        if k in a.fields && k in b.fields {
          MergeConforms(rules, a.fields[k], b.fields[k], path + [k], place + [k], shape);
        }
      }
    }
  }

  lemma {:induction false} FreshSubset(base: seq<Value>, child: seq<Value>)
    requires Keyed(child)
    ensures forall v :: v in Fresh(base, child) ==> v in child
    decreases |child|
  {
    if child != [] { FreshSubset(base, child[..|child| - 1]); }
  }

  ghost predicate ItemsConform(rules: Rules, items: seq<Value>, path: Path, place: Path, shape: Path -> Kind) {
    forall i :: 0 <= i < |items| && NamedArrayKey(items[i]).Some? ==>
      FieldsConform(rules, items[i], path, EntryPlace(place, items[i]), shape)
  }

  lemma {:induction false} EntryConforms(rules: Rules, e: Value, b: Value, path: Path, place: Path, shape: Path -> Kind)
    requires NamedArrayKey(e).Some? && FieldsConform(rules, e, path, EntryPlace(place, e), shape)
    requires b.Array? && ItemsConform(rules, b.items, path, place, shape) && MergeEntry(rules, e, b, path).Some?
    ensures var r := MergeEntry(rules, e, b, path).value;
      NamedArrayKey(r) == NamedArrayKey(e) && FieldsConform(rules, r, path, EntryPlace(place, e), shape)
    decreases b, 0
  {
    var j := Index(b.items, NamedArrayKey(e).value);
    if j >= 0 {
      assert FieldsConform(rules, b.items[j], path, EntryPlace(place, b.items[j]), shape);
      MergeFieldsConform(rules, e, b.items[j], path, EntryPlace(place, e), shape);
      MergeKeepsName(rules, e, b.items[j], path);
    }
  }

  lemma {:induction false} MergeItemsConform(
    rules: Rules, a: Value, b: Value, path: Path, place: Path, shape: Path -> Kind)
    requires KindOf(rules, a, path).NamedKind? && KindOf(rules, b, path).NamedKind? && Merge(rules, a, b, path).Some?
    requires ItemsConform(rules, a.items, path, place, shape) && ItemsConform(rules, b.items, path, place, shape)
    ensures ItemsConform(rules, Merge(rules, a, b, path).value.items, path, place, shape)
    decreases b, 1
  {
    var r := Merge(rules, a, b, path).value.items;
    FreshSubset(a.items, b.items);
    forall i | 0 <= i < |r| && NamedArrayKey(r[i]).Some?
      ensures FieldsConform(rules, r[i], path, EntryPlace(place, r[i]), shape)
    {
      if i < |a.items| {
        EntryConforms(rules, a.items[i], b, path, place, shape);
      } else {
        assert r[i] in Fresh(a.items, b.items);
      }
    }
  }

  lemma ArrayConformsIff(rules: Rules, v: Value, path: Path, place: Path, shape: Path -> Kind)
    requires KindOf(rules, v, path).NamedKind?
    ensures Conforms(rules, v, path, place, shape)
      <==> shape(place).NamedKind? && ItemsConform(rules, v.items, path, place, shape)
  {
    if ItemsConform(rules, v.items, path, place, shape) && !rules.atomic(path) {
      forall i, k | 0 <= i < |v.items| && NamedArrayKey(v.items[i]).Some? && k in v.items[i].fields
        ensures Conforms(rules, v.items[i].fields[k], path + [k], EntryPlace(place, v.items[i]) + [k], shape)
      {
        assert FieldsConform(rules, v.items[i], path, EntryPlace(place, v.items[i]), shape);
      }
    }
  }

  /** A shape is kept by merging, so every grouping of a conforming chain is a legal one. */
  lemma {:induction false} MergeConforms(rules: Rules, a: Value, b: Value, path: Path, place: Path, shape: Path -> Kind)
    requires Conforms(rules, a, path, place, shape) && Conforms(rules, b, path, place, shape)
    requires Merge(rules, a, b, path).Some?
    ensures Conforms(rules, Merge(rules, a, b, path).value, path, place, shape)
    decreases b, 2
  {
    if b.Table? {
      MergeFieldsConform(rules, a, b, path, place, shape);
    } else if KindOf(rules, b, path).NamedKind? {
      ArrayConformsIff(rules, a, path, place, shape);
      ArrayConformsIff(rules, b, path, place, shape);
      MergeItemsConform(rules, a, b, path, place, shape);
      ArrayConformsIff(rules, Merge(rules, a, b, path).value, path, place, shape);
    }
  }

  /** Any way of grouping the merges of a chain, as a binary tree. */
  datatype Grouping = One(file: Value) | Pair(left: Grouping, right: Grouping)

  function Evaluate(rules: Rules, g: Grouping): Option<Value> {
    match g
    case One(v) => Some(v)
    case Pair(l, r) => MergeOpt(rules, Evaluate(rules, l), Evaluate(rules, r), [])
  }

  function Files(g: Grouping): (r: seq<Value>)
    ensures r != []
  {
    match g
    case One(v) => [v]
    case Pair(l, r) => Files(l) + Files(r)
  }

  ghost predicate AllConform(rules: Rules, chain: seq<Value>, shape: Path -> Kind) {
    forall v :: v in chain ==> Conforms(rules, v, [], [], shape)
  }

  lemma {:induction false} FoldConforms(rules: Rules, chain: seq<Value>, shape: Path -> Kind)
    requires chain != [] && AllConform(rules, chain, shape) && Fold(rules, chain).Some?
    ensures Conforms(rules, Fold(rules, chain).value, [], [], shape)
    decreases |chain|
  {
    if |chain| > 1 {
      FoldConforms(rules, chain[..|chain| - 1], shape);
      MergeConforms(rules, Fold(rules, chain[..|chain| - 1]).value, chain[|chain| - 1], [], [], shape);
    }
  }

  lemma {:induction false} FoldConcat(rules: Rules, xs: seq<Value>, ys: seq<Value>, shape: Path -> Kind)
    requires xs != [] && ys != [] && AllConform(rules, xs, shape) && AllConform(rules, ys, shape)
    ensures Fold(rules, xs + ys) == MergeOpt(rules, Fold(rules, xs), Fold(rules, ys), [])
    decreases |ys|
  {
    var init, last := ys[..|ys| - 1], ys[|ys| - 1];
    assert (xs + ys)[..|xs + ys| - 1] == xs + init;
    if init == [] {
      assert xs + init == xs;
    } else {
      FoldConcat(rules, xs, init, shape);
      if Fold(rules, xs).Some? && Fold(rules, init).Some? {
        FoldConforms(rules, xs, shape);
        FoldConforms(rules, init, shape);
        ConformsCompatible(rules, Fold(rules, xs).value, Fold(rules, init).value, last, [], [], shape);
        MergeAssociative(rules, Fold(rules, xs).value, Fold(rules, init).value, last, []);
      }
    }
  }

  /** Files of one shape may be merged in any grouping: same result, same success. */
  lemma {:induction false} ChainGrouping(rules: Rules, g: Grouping, shape: Path -> Kind)
    requires AllConform(rules, Files(g), shape)
    ensures Evaluate(rules, g) == Fold(rules, Files(g))
  {
    if g.Pair? {
      ChainGrouping(rules, g.left, shape);
      ChainGrouping(rules, g.right, shape);
      FoldConcat(rules, Files(g.left), Files(g.right), shape);
    }
  }

  // ---- The loader's loops ----

  method MergeValues(rules: Rules, base: Value, child: Value, path: Path) returns (r: Option<Value>)
    ensures r == Merge(rules, base, child, path)
    decreases child, 2
  {
    if base.Table? && child.Table? {
      r := MergeTablesInPlace(rules, base.fields, child, path);
    } else if base.Array? && child.Array? && rules.named(path) {
      r := MergeNamedArrays(rules, base.items, child, path);
    } else {
      r := Some(child);
    }
  }

  method MergeTablesInPlace(
    rules: Rules, base0: map<string, Value>, child: Value, path: Path) returns (r: Option<Value>)
    requires child.Table?
    ensures r == Merge(rules, Table(base0), child, path)
    decreases child, 1
  {
    var base := base0;
    var keys := child.fields.Keys;
    while keys != {}
      invariant keys <= child.fields.Keys
      invariant forall k ::
        Field(base, k) ==
          if k in keys then Field(base0, k) else JoinField(rules, Field(base0, k), Field(child.fields, k), path, k)
      decreases keys
    {
      var key :| key in keys;
      assert Field(base, key) == Field(base0, key);
      var value := child.fields[key];
      if rules.atomic(path) {
        base := base[key := value];
      } else if key in base {
        var inherited := base[key];
        base := base - {key};
        var merged := MergeValues(rules, inherited, value, path + [key]);
        if merged.None? { return None; }
        base := base[key := merged.value];
      } else {
        base := base[key := value];
      }
      keys := keys - {key};
    }
    MergeTables(rules, Table(base0), child, path);
    forall k ensures JoinField(rules, Field(base0, k), Field(child.fields, k), path, k) != Bad {
      assert Field(base, k) != Bad;
    }
    FieldExtensionality(base, Merge(rules, Table(base0), child, path).value.fields);
    r := Some(Table(base));
  }

  lemma EntryUpdate(items: seq<Value>, i: nat, v: Value)
    requires Keyed(items) && i < |items| && NamedArrayKey(v) == NamedArrayKey(items[i])
    ensures Keyed(items[i := v]) && Keys(items[i := v]) == Keys(items)
    ensures forall k :: Entry(items[i := v], k) == if Some(k) == NamedArrayKey(v) then Has(v) else Entry(items, k)
  {
    var u := items[i := v];
    assert Keyed(u) && Keys(u) == Keys(items);
    forall k ensures Entry(u, k) == if Some(k) == NamedArrayKey(v) then Has(v) else Entry(items, k) {
      if Entry(u, k).Has? {
        EntryOfKey(u, Index(items, k));
      }
    }
  }

  /** `x` comes after the extending entries `prefix`, whose merge into `base` gave `soFar`. */
  ghost predicate OneMore(rules: Rules, base: seq<Value>, prefix: seq<Value>, x: Value, path: Path, soFar: seq<Value>) {
    && rules.named(path) && Keyed(base) && Keyed(prefix) && NamedArrayKey(x).Some?
    && Index(prefix, NamedArrayKey(x).value) < 0
    && Merge(rules, Array(base), Array(prefix), path) == Some(Array(soFar))
  }

  lemma OneMoreEntries(rules: Rules, base: seq<Value>, prefix: seq<Value>, x: Value, path: Path, soFar: seq<Value>)
    requires OneMore(rules, base, prefix, x, path, soFar)
    ensures Keyed(soFar) && Keyed(prefix + [x])
    ensures Entry(soFar, NamedArrayKey(x).value) == Entry(base, NamedArrayKey(x).value)
    ensures Keys(base) + Minus(Keys(prefix + [x]), Keys(base))
      == Keys(soFar) + if Entry(soFar, NamedArrayKey(x).value).Has? then [] else [NamedArrayKey(x).value]
    ensures forall k :: k != NamedArrayKey(x).value ==>
      Entry(soFar, k) == Join(rules, Entry(base, k), Entry(prefix + [x], k), path)
    ensures Entry(prefix + [x], NamedArrayKey(x).value) == Has(x)
  {
    var key := NamedArrayKey(x).value;
    MergeArrays(rules, Array(base), Array(prefix), path);
    KeyedSnoc(prefix, x);
    assert Keys(prefix + [x])[..|prefix|] == Keys(prefix);
    assert Keys(soFar) + [] == Keys(soFar);
  }

  /** A list with the right keys and entries is the merge. */
  lemma MergeIs(rules: Rules, base: seq<Value>, items: seq<Value>, path: Path, result: seq<Value>)
    requires rules.named(path) && Keyed(base) && Keyed(items) && Keyed(result)
    requires Keys(result) == Keys(base) + Minus(Keys(items), Keys(base))
    requires forall k :: Entry(result, k) == Join(rules, Entry(base, k), Entry(items, k), path)
    ensures Merge(rules, Array(base), Array(items), path) == Some(Array(result))
  {
    MergeArrays(rules, Array(base), Array(items), path);
    forall k ensures Join(rules, Entry(base, k), Entry(items, k), path) != Bad { assert !Entry(result, k).Bad?; }
    KeyedExtensionality(Merge(rules, Array(base), Array(items), path).value.items, result);
  }

  lemma MergeNewEntry(rules: Rules, base: seq<Value>, prefix: seq<Value>, x: Value, path: Path, soFar: seq<Value>)
    requires OneMore(rules, base, prefix, x, path, soFar) && Index(soFar, NamedArrayKey(x).value) < 0
    ensures Merge(rules, Array(base), Array(prefix + [x]), path) == Some(Array(soFar + [x]))
  {
    OneMoreEntries(rules, base, prefix, x, path, soFar);
    KeyedSnoc(soFar, x);
    forall k ensures Entry(soFar + [x], k) == Join(rules, Entry(base, k), Entry(prefix + [x], k), path) {}
    MergeIs(rules, base, prefix + [x], path, soFar + [x]);
  }

  /** An entry that cannot be merged into the one of its name fails the whole merge. */
  lemma MergeKnownFails(rules: Rules, base: seq<Value>, prefix: seq<Value>, x: Value, path: Path, soFar: seq<Value>)
    requires OneMore(rules, base, prefix, x, path, soFar) && Index(soFar, NamedArrayKey(x).value) >= 0
    requires Merge(rules, soFar[Index(soFar, NamedArrayKey(x).value)], x, path).None?
    ensures Merge(rules, Array(base), Array(prefix + [x]), path).None?
  {
    var key := NamedArrayKey(x).value;
    OneMoreEntries(rules, base, prefix, x, path, soFar);
    MergeArrays(rules, Array(base), Array(prefix + [x]), path);
    assert Entry(soFar, key) == Has(soFar[Index(soFar, key)]);
    assert Join(rules, Entry(base, key), Entry(prefix + [x], key), path) == Bad;
  }

  lemma MergeKnownEntry(rules: Rules, base: seq<Value>, prefix: seq<Value>, x: Value, path: Path, soFar: seq<Value>)
    requires OneMore(rules, base, prefix, x, path, soFar) && Index(soFar, NamedArrayKey(x).value) >= 0
    requires Merge(rules, soFar[Index(soFar, NamedArrayKey(x).value)], x, path).Some?
    ensures var i := Index(soFar, NamedArrayKey(x).value);
      Merge(rules, Array(base), Array(prefix + [x]), path) ==
        Some(Array(soFar[i := Merge(rules, soFar[i], x, path).value]))
  {
    var key := NamedArrayKey(x).value;
    var i := Index(soFar, key);
    var merged := Merge(rules, soFar[i], x, path);
    OneMoreEntries(rules, base, prefix, x, path, soFar);
    assert Entry(soFar, key) == Has(soFar[i]);
    MergeKeepsName(rules, soFar[i], x, path);
    EntryUpdate(soFar, i, merged.value);
    forall k
      ensures Entry(soFar[i := merged.value], k) == Join(rules, Entry(base, k), Entry(prefix + [x], k), path) {}
    MergeIs(rules, base, prefix + [x], path, soFar[i := merged.value]);
  }

  predicate HasDuplicates(keys: seq<string>) {
    exists i, j :: 0 <= i < j < |keys| && keys[i] == keys[j]
  }

  /** An entry with a new name, merged in place if the base has the name and appended otherwise. */
  method MergeIntoEntries(
    rules: Rules, ghost base0: seq<Value>, ghost prefix: seq<Value>, item: Value, path: Path, soFar: seq<Value>,
    keys0: seq<string>) returns (r: Option<seq<Value>>, keys: seq<string>)
    requires OneMore(rules, base0, prefix, item, path, soFar) && Keyed(soFar) && keys0 == Keys(soFar)
    ensures r.None? ==> Merge(rules, Array(base0), Array(prefix + [item]), path).None?
    ensures r.Some? ==> Merge(rules, Array(base0), Array(prefix + [item]), path) == Some(Array(r.value))
    ensures r.Some? ==> Keyed(r.value) && keys == Keys(r.value)
    ensures Keyed(prefix + [item])
    decreases item, 3
  {
    OneMoreEntries(rules, base0, prefix, item, path, soFar);
    keys := keys0;
    var key := NamedArrayKey(item).value;
    var index := IndexOf(keys, key);
    if index >= 0 {
      EntryOfKey(soFar, index);
      var merged := MergeValues(rules, soFar[index], item, path);
      if merged.None? {
        MergeKnownFails(rules, base0, prefix, item, path, soFar);
        return None, keys;
      }
      MergeKnownEntry(rules, base0, prefix, item, path, soFar);
      MergeKeepsName(rules, soFar[index], item, path);
      EntryUpdate(soFar, index, merged.value);
      r := Some(soFar[index := merged.value]);
      keys := keys[index := key];
    } else {
      MergeNewEntry(rules, base0, prefix, item, path, soFar);
      KeyedSnoc(soFar, item);
      r := Some(soFar + [item]);
      keys := keys + [key];
    }
  }

  method InheritedNames(base: seq<Value>) returns (r: Option<seq<string>>)
    ensures r == if Keyed(base) then Some(Keys(base)) else None
  {
    var keys: seq<string> := [];
    for i := 0 to |base|
      invariant |keys| == i && forall j :: 0 <= j < i ==> NamedArrayKey(base[j]) == Some(keys[j])
    {
      var key := NamedArrayKey(base[i]);
      if key.None? { return None; }
      keys := keys + [key.value];
    }
    if HasDuplicates(keys) { return None; }
    assert Keyed(base) && keys == Keys(base);
    r := Some(keys);
  }

  /** The first `n` extending entries are merged into `base0`: the result is `base`, with the names `keys`. */
  ghost predicate MergedUpTo(rules: Rules, base0: seq<Value>, items: seq<Value>, n: nat, path: Path,
    base: seq<Value>, keys: seq<string>, childKeys: set<string>)
  {
    && rules.named(path) && n <= |items| && Keyed(base0) && Keyed(items[..n]) && Keyed(base)
    && keys == Keys(base) && childKeys == Elems(Keys(items[..n]))
    && Merge(rules, Array(base0), Array(items[..n]), path) == Some(Array(base))
  }

  /** One more extending entry; its name must be a string that did not occur before. */
  method MergeNamedItem(rules: Rules, ghost base0: seq<Value>, items: seq<Value>, n: nat, path: Path, soFar: seq<Value>,
    keys0: seq<string>, childKeys0: set<string>)
    returns (ok: bool, base: seq<Value>, keys: seq<string>, childKeys: set<string>)
    requires MergedUpTo(rules, base0, items, n, path, soFar, keys0, childKeys0) && n < |items|
    ensures if ok then MergedUpTo(rules, base0, items, n + 1, path, base, keys, childKeys)
      else Merge(rules, Array(base0), Array(items), path).None?
    decreases items, 4
  {
    base, keys, childKeys := soFar, keys0, childKeys0;
    var key := NamedArrayKey(items[n]);
    if key.None? { return false, base, keys, childKeys; }
    if key.value in childKeys {
      RepeatedName(items, n);
      return false, base, keys, childKeys;
    }
    childKeys := childKeys + {key.value};
    NewName(items, n);
    var step;
    step, keys := MergeIntoEntries(rules, base0, items[..n], items[n], path, base, keys);
    if step.None? {
      PrefixFails(rules, base0, items, n + 1, path);
      return false, base, keys, childKeys;
    }
    ok, base := true, step.value;
  }

  method MergeNamedArrays(rules: Rules, base0: seq<Value>, child: Value, path: Path) returns (r: Option<Value>)
    requires child.Array? && rules.named(path)
    ensures r == Merge(rules, Array(base0), child, path)
    decreases child, 1
  {
    var inherited := InheritedNames(base0);
    if inherited.None? { return None; }
    var base, keys := base0, inherited.value;
    var childKeys: set<string> := {};
    MergeNothing(rules, base, path);
    assert child.items[..0] == [];
    for n := 0 to |child.items|
      invariant MergedUpTo(rules, base0, child.items, n, path, base, keys, childKeys)
    {
      var ok;
      ok, base, keys, childKeys := MergeNamedItem(rules, base0, child.items, n, path, base, keys, childKeys);
      if !ok { return None; }
    }
    assert child.items[..|child.items|] == child.items;
    r := Some(Array(base));
  }

  lemma NewName(items: seq<Value>, n: nat)
    requires n < |items| && Keyed(items[..n])
    requires NamedArrayKey(items[n]).Some? && NamedArrayKey(items[n]).value !in Keys(items[..n])
    ensures items[..n + 1] == items[..n] + [items[n]] && Index(items[..n], NamedArrayKey(items[n]).value) < 0
    ensures Keyed(items[..n + 1])
    ensures Elems(Keys(items[..n + 1])) == Elems(Keys(items[..n])) + {NamedArrayKey(items[n]).value}
  {
    var prefix, key := items[..n], NamedArrayKey(items[n]).value;
    assert forall i :: 0 <= i < n ==> Keys(prefix)[i] in Keys(prefix);
    KeyedSnoc(prefix, items[n]);
    assert items[..n + 1] == prefix + [items[n]];
  }

  lemma RepeatedName(items: seq<Value>, n: nat)
    requires n < |items| && Keyed(items[..n])
    requires NamedArrayKey(items[n]).Some? && NamedArrayKey(items[n]).value in Keys(items[..n])
    ensures !Keyed(items)
  {
    var i :| 0 <= i < n && Keys(items[..n])[i] == NamedArrayKey(items[n]).value;
    assert NamedArrayKey(items[i]) == NamedArrayKey(items[n]);
  }

  lemma MergeNothing(rules: Rules, base: seq<Value>, path: Path)
    requires Keyed(base) && rules.named(path)
    ensures Merge(rules, Array(base), Array([]), path) == Some(Array(base))
  {
    MergeArrays(rules, Array(base), Array([]), path);
    assert Minus([], Keys(base)) == [];
    assert Keys(base) + [] == Keys(base);
    KeyedExtensionality(Merge(rules, Array(base), Array([]), path).value.items, base);
  }

  /** A failure on a prefix of the extending entries is a failure. */
  lemma PrefixFails(rules: Rules, base: seq<Value>, items: seq<Value>, n: nat, path: Path)
    requires rules.named(path) && n <= |items| && Keyed(base) && Keyed(items[..n])
    requires Merge(rules, Array(base), Array(items[..n]), path).None?
    ensures Merge(rules, Array(base), Array(items), path).None?
  {
    MergeArrays(rules, Array(base), Array(items[..n]), path);
    MergeArrays(rules, Array(base), Array(items), path);
    var k :| Join(rules, Entry(base, k), Entry(items[..n], k), path) == Bad;
    if Keyed(items) {
      EntryOfKey(items, Index(items[..n], k));
      assert Entry(items, k) == Entry(items[..n], k);
      assert Join(rules, Entry(base, k), Entry(items, k), path) == Bad;
    }
  }

  // ---- The loader ----

  const MAX_EXTENDS_DEPTH: nat := 64

  /** A file after its includes are composed and its loader fields stripped. */
  datatype File = File(value: Value, extended: Option<string>)

  /** The values along the `extends` links from `path`, or `None` where the loader refuses. */
  function Chain(files: map<string, File>, path: string, stack: set<string>): (r: Option<seq<Value>>)
    requires |stack| <= MAX_EXTENDS_DEPTH
    ensures r.Some? ==> r.value != []
    decreases MAX_EXTENDS_DEPTH - |stack|
  {
    if |stack| == MAX_EXTENDS_DEPTH || path !in files || path in stack then None
    else if files[path].extended.None? then Some([files[path].value])
    else
      var base := Chain(files, files[path].extended.value, stack + {path});
      if base.Some? then Some(base.value + [files[path].value]) else None
  }

  method LoadGatewayRootInner(files: map<string, File>, path: string, stack: set<string>) returns (r: Option<Value>)
    requires |stack| <= MAX_EXTENDS_DEPTH
    ensures r == match Chain(files, path, stack) case None => None case Some(chain) => Fold(GatewayRules(), chain)
    decreases MAX_EXTENDS_DEPTH - |stack|
  {
    if |stack| >= MAX_EXTENDS_DEPTH { return None; }
    if path !in files { return None; }
    if path in stack { return None; }
    var file := files[path];
    if file.extended.Some? {
      var base := LoadGatewayRootInner(files, file.extended.value, stack + {path});
      ghost var chain := Chain(files, file.extended.value, stack + {path});
      if chain.Some? {
        assert (chain.value + [file.value])[..|chain.value|] == chain.value;
      }
      if base.None? { return None; }
      r := MergeValues(GatewayRules(), base.value, file.value, []);
    } else {
      r := Some(file.value);
    }
  }

  /** `names` follows the `extends` links from `path` to a file that extends nothing. */
  ghost predicate Links(files: map<string, File>, path: string, names: seq<string>)
    decreases |names|
  {
    && names != [] && names[0] == path && path in files
    && if |names| == 1 then files[path].extended.None?
       else files[path].extended.Some? && Links(files, files[path].extended.value, names[1..])
  }

  lemma {:induction false} LinksUnique(files: map<string, File>, path: string, a: seq<string>, b: seq<string>)
    requires Links(files, path, a) && Links(files, path, b)
    ensures a == b
    decreases |a|
  {
    if |a| > 1 { LinksUnique(files, files[path].extended.value, a[1..], b[1..]); }
  }

  lemma {:induction false} LinksSuffix(files: map<string, File>, path: string, a: seq<string>, i: nat)
    requires Links(files, path, a) && i < |a|
    ensures Links(files, a[i], a[i..])
    decreases i
  {
    if i > 0 {
      LinksSuffix(files, files[path].extended.value, a[1..], i - 1);
      assert a[1..][i - 1..] == a[i..];
    }
  }

  lemma {:induction false} ChainFollowsLinks(
    files: map<string, File>, path: string, stack: set<string>) returns (names: seq<string>)
    requires |stack| <= MAX_EXTENDS_DEPTH && Chain(files, path, stack).Some?
    ensures Links(files, path, names) && |names| + |stack| <= MAX_EXTENDS_DEPTH
    decreases MAX_EXTENDS_DEPTH - |stack|
  {
    if files[path].extended.None? {
      names := [path];
    } else {
      var rest := ChainFollowsLinks(files, files[path].extended.value, stack + {path});
      names := [path] + rest;
      assert names[1..] == rest;
    }
  }

  lemma {:induction false} LinksKnown(files: map<string, File>, path: string, names: seq<string>)
    requires Links(files, path, names)
    ensures forall n :: n in names ==> n in files
    decreases |names|
  {
    if |names| > 1 { LinksKnown(files, files[path].extended.value, names[1..]); }
  }

  /** The values of the named files, the last first: the most basic file comes first. */
  function BasicFirst(files: map<string, File>, names: seq<string>): (r: seq<Value>)
    requires forall n :: n in names ==> n in files
    ensures |r| == |names| && forall i :: 0 <= i < |r| ==> r[i] == files[names[|names| - 1 - i]].value
  {
    seq(|names|, i requires 0 <= i < |names| => files[names[|names| - 1 - i]].value)
  }

  /** The accepted chain holds each file's own value, the most basic file first. */
  lemma {:induction false} LinksLoad(files: map<string, File>, path: string, names: seq<string>, stack: set<string>)
    requires Links(files, path, names) && |names| + |stack| <= MAX_EXTENDS_DEPTH
    requires forall n :: n in names ==> n !in stack
    ensures forall n :: n in names ==> n in files
    ensures Chain(files, path, stack) == Some(BasicFirst(files, names))
    decreases |names|
  {
    LinksKnown(files, path, names);
    assert path in names;
    if |names| == 1 {
      assert BasicFirst(files, names) == [files[path].value];
    } else {
      var rest := names[1..];
      assert forall n :: n in rest ==> n in names;
      assert BasicFirst(files, names) == BasicFirst(files, rest) + [files[path].value];
      forall n | n in rest ensures n !in stack + {path} {
        var i :| 0 <= i < |rest| && rest[i] == n;
        assert names[i + 1] == n;
        if n == path {
          LinksSuffix(files, path, names, i + 1);
          LinksUnique(files, path, names, names[i + 1..]);
        }
      }
      LinksLoad(files, files[path].extended.value, rest, stack + {path});
    }
  }

  /** The links of `path` end within the allowed depth. */
  ghost predicate LinksEnd(files: map<string, File>, path: string) {
    exists names :: Links(files, path, names) && |names| <= 64
  }

  /** Loading merges the files along the links, each extending file over those below it. */
  method LoadGatewayRoot(files: map<string, File>, path: string) returns (r: Option<Value>)
    ensures forall names :: Links(files, path, names) && |names| <= 64 ==>
      (forall n :: n in names ==> n in files) && r == Fold(GatewayRules(), BasicFirst(files, names))
    ensures !LinksEnd(files, path) ==> r.None?
  {
    r := LoadGatewayRootInner(files, path, {});
    ChainAcceptedIff(files, path);
    forall names | Links(files, path, names) && |names| <= MAX_EXTENDS_DEPTH
      ensures (forall n :: n in names ==> n in files) && r == Fold(GatewayRules(), BasicFirst(files, names))
    {
      LinksLoad(files, path, names, {});
    }
  }

  /** A setting that is replaced as a whole comes from the last file that has it. */
  lemma {:induction false} LastMentionWins(rules: Rules, chain: seq<Value>, i: nat, k: string)
    requires i < |chain| && forall v :: v in chain ==> v.Table?
    requires Fold(rules, chain).Some?
    requires k in chain[i].fields && KindOf(rules, chain[i].fields[k], [k]).ReplaceKind?
    requires forall j :: i < j < |chain| ==> k !in chain[j].fields
    ensures Fold(rules, chain).value.Table?
    ensures Field(Fold(rules, chain).value.fields, k) == Has(chain[i].fields[k])
    decreases |chain|
  {
    assert chain[0] in chain;
    if |chain| > 1 {
      var init, last := chain[..|chain| - 1], chain[|chain| - 1];
      assert last in chain && forall v :: v in init ==> v in chain;
      FoldIsTable(rules, init);
      MergeTables(rules, Fold(rules, init).value, last, []);
      assert [] + [k] == [k];
      if i < |init| { LastMentionWins(rules, init, i, k); }
    }
  }

  lemma {:induction false} FoldIsTable(rules: Rules, chain: seq<Value>)
    requires chain != [] && (forall v :: v in chain ==> v.Table?) && Fold(rules, chain).Some?
    ensures Fold(rules, chain).value.Table?
    decreases |chain|
  {
    assert chain[|chain| - 1] in chain;
    if |chain| > 1 {
      assert forall v :: v in chain[..|chain| - 1] ==> v in chain;
      FoldIsTable(rules, chain[..|chain| - 1]);
    }
  }

  /** The chain is accepted exactly when its links end within 64 files; a cycle never does. */
  lemma ChainAcceptedIff(files: map<string, File>, path: string)
    ensures Chain(files, path, {}).Some? <==> LinksEnd(files, path)
  {
    if Chain(files, path, {}).Some? {
      var names := ChainFollowsLinks(files, path, {});
    }
    if names :| Links(files, path, names) && |names| <= MAX_EXTENDS_DEPTH {
      LinksLoad(files, path, names, {});
    }
  }
}