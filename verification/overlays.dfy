/**
 Overlaying launch inputs: single values of the later input win, maps are extended, and lists of
 named steps (and of services) are merged by name.
 */
module Overlays {
  import opened TemplateChains
  import opened Options
  import opened Sequences

  datatype Item<+B> = Item(name: string, body: B)

  function Names<B>(items: seq<Item<B>>): (r: seq<string>)
    ensures |r| == |items| && forall i :: 0 <= i < |r| ==> r[i] == items[i].name
  {
    seq(|items|, i requires 0 <= i < |items| => items[i].name)
  }

  predicate Unique<B>(items: seq<Item<B>>) {
    forall i, j :: 0 <= i < j < |items| ==> items[i].name != items[j].name
  }

  function PlaceOf<B>(items: seq<Item<B>>, name: string): (r: int)
    ensures -1 <= r < |items| && (r >= 0 ==> items[r].name == name && forall j :: 0 <= j < r ==> items[j].name != name)
    ensures r < 0 ==> forall j :: 0 <= j < |items| ==> items[j].name != name
  {
    IndexOf(Names(items), name)
  }

  /** An item takes the place of the one of its name, or goes to the end. */
  function Put<B>(items: seq<Item<B>>, x: Item<B>): seq<Item<B>> {
    var i := PlaceOf(items, x.name);
    if i >= 0 then items[i := x] else items + [x]
  }

  function PutAll<B>(items: seq<Item<B>>, later: seq<Item<B>>): seq<Item<B>> {
    if later == [] then items else Put(PutAll(items, later[..|later| - 1]), later[|later| - 1])
  }

  function MergeByName<B>(inherited: seq<Item<B>>, later: seq<Item<B>>): Option<seq<Item<B>>> {
    if Unique(inherited) then Some(PutAll(inherited, later)) else None
  }

  /** The merge of services and of launch steps, with the vector of keys kept beside the items. */
  method MergeNamed<B>(inherited0: seq<Item<B>>, later: seq<Item<B>>) returns (r: Option<seq<Item<B>>>)
    ensures r == MergeByName(inherited0, later)
  {
    var inherited, keys := inherited0, Names(inherited0);
    NamesCount(inherited0);
    if |set k | k in keys| != |keys| { return None; }
    for n := 0 to |later|
      invariant inherited == PutAll(inherited0, later[..n]) && keys == Names(inherited)
    {
      assert later[..n + 1][..n] == later[..n];
      var x := later[n];
      var index := IndexOf(keys, x.name);
      if index >= 0 {
        inherited := inherited[index := x];
        assert Names(inherited) == keys;
      } else {
        keys := keys + [x.name];
        inherited := inherited + [x];
        assert Names(inherited) == keys;
      }
    }
    assert later[..|later|] == later;
    r := Some(inherited);
  }

  /** The merge counts the distinct keys to see whether they are unique. */
  lemma {:induction false} NamesCount<B>(items: seq<Item<B>>)
    ensures |set k | k in Names(items)| <= |items|
    ensures |set k | k in Names(items)| == |items| <==> Unique(items)
  {
    if items == [] {
      assert (set k | k in Names(items)) == {};
    } else {
      var front, last := items[..|items| - 1], items[|items| - 1];
      NamesCount(front);
      assert Names(items) == Names(front) + [last.name];
      assert (set k | k in Names(items)) == (set k | k in Names(front)) + {last.name};
      if last.name in Names(front) {
        var i :| 0 <= i < |front| && Names(front)[i] == last.name;
        assert items[i].name == items[|items| - 1].name;
      }
    }
  }

  // ---- Merging by name is associative ----

  lemma PutUnique<B>(items: seq<Item<B>>, x: Item<B>)
    requires Unique(items)
    ensures Unique(Put(items, x))
  {
  }

  lemma {:induction false} PutAllUnique<B>(items: seq<Item<B>>, later: seq<Item<B>>)
    requires Unique(items)
    ensures Unique(PutAll(items, later))
  {
    if later != [] {
      PutAllUnique(items, later[..|later| - 1]);
      PutUnique(PutAll(items, later[..|later| - 1]), later[|later| - 1]);
    }
  }

  lemma {:induction false} PutAllConcat<B>(items: seq<Item<B>>, a: seq<Item<B>>, b: seq<Item<B>>)
    ensures PutAll(items, a + b) == PutAll(PutAll(items, a), b)
  {
    if b == [] {
      assert a + b == a;
    } else {
      var front := b[..|b| - 1];
      assert (a + b)[..|a + b| - 1] == a + front;
      PutAllConcat(items, a, front);
    }
  }

  lemma PlaceIs<B>(items: seq<Item<B>>, i: nat)
    requires Unique(items) && i < |items|
    ensures PlaceOf(items, items[i].name) == i
  {
  }

  /** A second item of the same name replaces the first where it stands. */
  lemma PutTwice<B>(items: seq<Item<B>>, x: Item<B>, y: Item<B>)
    requires Unique(items) && x.name == y.name
    ensures Put(Put(items, x), y) == Put(items, y)
  {
    PutUnique(items, x);
    var once := Put(items, x);
    var i := PlaceOf(items, x.name);
    PlaceIs(once, if i >= 0 then i else |items|);
  }

  lemma PutAt<B>(items: seq<Item<B>>, x: Item<B>, i: nat)
    requires Unique(items) && i < |items| && items[i].name == x.name
    ensures Put(items, x) == items[i := x] && PlaceOf(items, x.name) == i
  {
  }

  lemma PutNew<B>(items: seq<Item<B>>, x: Item<B>)
    requires forall i :: 0 <= i < |items| ==> items[i].name != x.name
    ensures Put(items, x) == items + [x]
  {
  }

  /** Items of different names do not get in each other's way once one of them has its place. */
  lemma PutCommutes<B>(items: seq<Item<B>>, x: Item<B>, y: Item<B>)
    requires Unique(items) && x.name != y.name && PlaceOf(items, x.name) >= 0
    ensures Put(Put(items, y), x) == Put(Put(items, x), y)
    ensures PlaceOf(Put(items, y), x.name) >= 0
  {
    var i, j := PlaceOf(items, x.name), PlaceOf(items, y.name);
    PutUnique(items, x);
    PutUnique(items, y);
    PutAt(Put(items, y), x, i);
    if j >= 0 {
      PutAt(items[i := x], y, j);
      assert items[j := y][i := x] == items[i := x][j := y];
    } else {
      PutNew(items[i := x], y);
      assert (items + [y])[i := x] == items[i := x] + [y];
    }
  }

  lemma {:induction false} PutCommutesAll<B>(items: seq<Item<B>>, x: Item<B>, later: seq<Item<B>>)
    requires Unique(items) && PlaceOf(items, x.name) >= 0
    requires forall y :: y in later ==> y.name != x.name
    ensures Put(PutAll(items, later), x) == PutAll(Put(items, x), later)
    ensures PlaceOf(PutAll(items, later), x.name) >= 0
  {
    if later != [] {
      var front, last := later[..|later| - 1], later[|later| - 1];
      PutCommutesAll(items, x, front);
      PutAllUnique(items, front);
      PutCommutes(PutAll(items, front), x, last);
    }
  }

  lemma PutFound<B>(items: seq<Item<B>>, x: Item<B>)
    ensures PlaceOf(Put(items, x), x.name) >= 0
  {
    var i := PlaceOf(items, x.name);
    assert Put(items, x)[if i >= 0 then i else |items|] == x;
  }

  lemma PlaceSplits<B>(items: seq<Item<B>>, x: Item<B>)
    requires Unique(items) && PlaceOf(items, x.name) >= 0
    ensures var i := PlaceOf(items, x.name);
      var before, after := items[..i], items[i + 1..];
      && items == before + [items[i]] + after && Put(items, x) == before + [x] + after
      && items[i].name == x.name && forall y :: y in after ==> y.name != x.name
  {
  }

  /** Replacing an item in the later list replaces it in the result. */
  lemma PutReplaces<B>(a: seq<Item<B>>, before: seq<Item<B>>, was: Item<B>, after: seq<Item<B>>, x: Item<B>)
    requires Unique(a) && was.name == x.name && forall y :: y in after ==> y.name != x.name
    ensures PutAll(a, before + [x] + after) == Put(PutAll(a, before + [was] + after), x)
  {
    var start := PutAll(a, before);
    PutSplit(a, before, was, after);
    PutSplit(a, before, x, after);
    PutAllUnique(a, before);
    PutUnique(start, was);
    PutFound(start, was);
    PutCommutesAll(Put(start, was), x, after);
    PutTwice(start, was, x);
  }

  /** Putting one more item into the later list is putting it into the result. */
  lemma PutIntoLater<B>(a: seq<Item<B>>, later: seq<Item<B>>, x: Item<B>)
    requires Unique(a) && Unique(later)
    ensures PutAll(a, Put(later, x)) == Put(PutAll(a, later), x)
  {
    var i := PlaceOf(later, x.name);
    if i >= 0 {
      PlaceSplits(later, x);
      PutReplaces(a, later[..i], later[i], later[i + 1..], x);
    } else {
      PutAppends(a, later, x);
    }
  }

  lemma PutAppends<B>(a: seq<Item<B>>, later: seq<Item<B>>, x: Item<B>)
    ensures PutAll(a, later + [x]) == Put(PutAll(a, later), x)
  {
    assert (later + [x])[..|later|] == later;
  }

  lemma PutSplit<B>(a: seq<Item<B>>, before: seq<Item<B>>, x: Item<B>, after: seq<Item<B>>)
    ensures PutAll(a, before + [x] + after) == PutAll(Put(PutAll(a, before), x), after)
  {
    PutAllConcat(a, before + [x], after);
    PutAppends(a, before, x);
  }

  lemma {:induction false} PutAllAssociative<B>(a: seq<Item<B>>, b: seq<Item<B>>, c: seq<Item<B>>)
    requires Unique(a) && Unique(b)
    ensures PutAll(a, PutAll(b, c)) == PutAll(PutAll(a, b), c)
  {
    if c != [] {
      var front := c[..|c| - 1];
      PutAllAssociative(a, b, front);
      PutAllUnique(b, front);
      PutIntoLater(a, PutAll(b, front), c[|c| - 1]);
    }
  }

  lemma {:induction false} PutAllIntoNothing<B>(b: seq<Item<B>>)
    requires Unique(b)
    ensures PutAll([], b) == b
  {
    if b != [] {
      var front, last := b[..|b| - 1], b[|b| - 1];
      PutAllIntoNothing(front);
      assert PlaceOf(front, last.name) < 0;
      assert b == front + [last];
    }
  }

  // ---- Overlaying launch inputs ----

  datatype Input<+B, +V> = Input(
    uses: seq<string>,
    target: Option<string>,
    description: Option<string>,
    allowArgs: Option<bool>,
    cwd: Option<string>,
    env: map<string, string>,
    command: Option<seq<string>>,
    vars: map<string, V>,
    steps: seq<Item<B>>)

  function DefaultInput<B, V>(): Input<B, V> {
    Input([], None, None, None, None, map[], None, map[], [])
  }

  function Later<T>(a: Option<T>, b: Option<T>): Option<T> {
    if b.Some? then b else a
  }

  function Combined<B, V>(a: Input<B, V>, b: Input<B, V>): Input<B, V> {
    Input(a.uses, Later(a.target, b.target), Later(a.description, b.description), Later(a.allowArgs, b.allowArgs),
      Later(a.cwd, b.cwd), a.env + b.env, Later(a.command, b.command), a.vars + b.vars, PutAll(a.steps, b.steps))
  }

  function Overlay<B, V>(a: Input<B, V>, b: Input<B, V>): Option<Input<B, V>> {
    if Unique(a.steps) then Some(Combined(a, b)) else None
  }

  method OverlayLaunch<B, V>(input0: Input<B, V>, later: Input<B, V>) returns (r: Option<Input<B, V>>)
    ensures r == Overlay(input0, later)
  {
    var input := input0;
    if later.target.Some? { input := input.(target := later.target); }
    if later.description.Some? { input := input.(description := later.description); }
    if later.allowArgs.Some? { input := input.(allowArgs := later.allowArgs); }
    if later.cwd.Some? { input := input.(cwd := later.cwd); }
    input := input.(env := input.env + later.env);
    if later.command.Some? { input := input.(command := later.command); }
    input := input.(vars := input.vars + later.vars);
    var steps := MergeNamed(input.steps, later.steps);
    if steps.None? { return None; }
    r := Some(input.(steps := steps.value));
  }

  lemma ExtendAssociative<V>(a: map<string, V>, b: map<string, V>, c: map<string, V>)
    ensures a + (b + c) == a + b + c
  {
  }

  lemma ExtendUnit<V>(a: map<string, V>)
    ensures map[] + a == a && a + map[] == a
  {
  }

  lemma CombinedAssociative<B, V>(a: Input<B, V>, b: Input<B, V>, c: Input<B, V>)
    requires Unique(a.steps) && Unique(b.steps)
    ensures Combined(a, Combined(b, c)) == Combined(Combined(a, b), c)
  {
    PutAllAssociative(a.steps, b.steps, c.steps);
    ExtendAssociative(a.env, b.env, c.env);
    ExtendAssociative(a.vars, b.vars, c.vars);
  }

  function OverlayOpt<B, V>(a: Option<Input<B, V>>, b: Option<Input<B, V>>): Option<Input<B, V>> {
    if a.Some? && b.Some? then Overlay(a.value, b.value) else None
  }

  /** The later setting if there is one, otherwise the earlier one. */
  ghost predicate LaterWins<T>(a: Option<T>, b: Option<T>, r: Option<T>) {
    (b.Some? ==> r == b) && (b.None? ==> r == a)
  }

  ghost predicate LaterEntriesWin<V>(a: map<string, V>, b: map<string, V>, r: map<string, V>) {
    && r.Keys == a.Keys + b.Keys
    && (forall k :: k in b ==> r[k] == b[k]) && (forall k :: k in a && k !in b ==> r[k] == a[k])
  }

  /** The last item of a name. */
  function LastOf<B>(items: seq<Item<B>>, name: string): Option<Item<B>> {
    if items == [] then None
    else if items[|items| - 1].name == name then Some(items[|items| - 1])
    else LastOf(items[..|items| - 1], name)
  }

  /** The names of `later` that are not known, each once, in the order in which they first occur. */
  function NewNames(known: seq<string>, later: seq<string>): seq<string> {
    if later == [] then []
    else
      var before, last := NewNames(known, later[..|later| - 1]), later[|later| - 1];
      if last in known + before then before else before + [last]
  }

  /** The items of the earlier list keep their places, new ones follow, and of each name the last body counts. */
  ghost predicate LaterItemsWin<B>(a: seq<Item<B>>, b: seq<Item<B>>, r: seq<Item<B>>) {
    && Names(r) == Names(a) + NewNames(Names(a), Names(b)) && Unique(r)
    && forall x :: x in r ==> LastOf(b, x.name) == Some(x) || (LastOf(b, x.name) == None && x in a)
  }

  lemma PutNames<B>(items: seq<Item<B>>, x: Item<B>)
    ensures Names(Put(items, x)) == Names(items) + if x.name in Names(items) then [] else [x.name]
  {
    var i := PlaceOf(items, x.name);
    if i >= 0 {
      assert Names(items)[i] == x.name;
      assert Names(items[i := x]) == Names(items);
    }
  }

  lemma PutMembers<B>(items: seq<Item<B>>, x: Item<B>)
    requires Unique(items)
    ensures forall y :: y in Put(items, x) ==> y == x || (y in items && y.name != x.name)
  {
    var next, i := Put(items, x), PlaceOf(items, x.name);
    forall y | y in next ensures y == x || (y in items && y.name != x.name) {
      var j :| 0 <= j < |next| && next[j] == y;
      if i < 0 { assert forall k :: 0 <= k < |items| ==> items[k].name != x.name; }
    }
  }

  lemma NewNamesNext(known: seq<string>, later: seq<string>, name: string)
    ensures var before := NewNames(known, later);
      NewNames(known, later + [name]) == before + if name in known + before then [] else [name]
  {
    assert (later + [name])[..|later|] == later;
  }

  lemma PutChooses<B>(a: seq<Item<B>>, later: seq<Item<B>>, x: Item<B>, r: seq<Item<B>>)
    requires LaterItemsWin(a, later, r)
    ensures LaterItemsWin(a, later + [x], Put(r, x))
  {
    PutUnique(r, x);
    PutNames(r, x);
    PutMembers(r, x);
    NewNamesNext(Names(a), Names(later), x.name);
    assert Names(later + [x]) == Names(later) + [x.name];
    assert (later + [x])[..|later|] == later;
  }

  lemma {:induction false} PutAllChooses<B>(a: seq<Item<B>>, later: seq<Item<B>>)
    requires Unique(a)
    ensures LaterItemsWin(a, later, PutAll(a, later))
  {
    if later == [] {
      assert Names(a) + [] == Names(a);
    } else {
      var front := later[..|later| - 1];
      PutAllChooses(a, front);
      PutChooses(a, front, later[|later| - 1], PutAll(a, front));
      assert front + [later[|later| - 1]] == later;
    }
  }

  /** Overlaying lets the later input win, setting by setting, entry by entry and step by step. */
  lemma OverlayChooses<B, V>(a: Input<B, V>, b: Input<B, V>)
    requires Unique(a.steps)
    ensures Overlay(a, b).Some?
    ensures var r := Overlay(a, b).value;
      && r.uses == a.uses
      && LaterWins(a.target, b.target, r.target) && LaterWins(a.description, b.description, r.description)
      && LaterWins(a.allowArgs, b.allowArgs, r.allowArgs) && LaterWins(a.cwd, b.cwd, r.cwd)
      && LaterWins(a.command, b.command, r.command)
      && LaterEntriesWin(a.env, b.env, r.env) && LaterEntriesWin(a.vars, b.vars, r.vars)
      && LaterItemsWin(a.steps, b.steps, r.steps)
  {
    PutAllChooses(a.steps, b.steps);
  }

  /**
   Overlaying one after the other or the combination of the later two agree exactly when the
   middle input's own step names are unique, or the first input's are not and both orders fail.
   */
  lemma OverlayAssociative<B, V>(a: Input<B, V>, b: Input<B, V>, c: Input<B, V>)
    ensures OverlayOpt(Overlay(a, b), Some(c)) == OverlayOpt(Some(a), Overlay(b, c))
      <==> Unique(b.steps) || !Unique(a.steps)
    ensures Unique(a.steps) ==> OverlayOpt(Overlay(a, b), Some(c)) == Some(Combined(Combined(a, b), c))
  {
    if Unique(a.steps) {
      PutAllUnique(a.steps, b.steps);
      if Unique(b.steps) { CombinedAssociative(a, b, c); }
    }
  }

  /**
   Overlaying taken alone: with a middle input that repeats a step name one order succeeds and the
   other is refused. The partial validation of inputs refuses such a middle input beforehand.
   */
  lemma RepeatedStepMatters<B, V>(name: string, first: B, second: B)
    returns (a: Input<B, V>, b: Input<B, V>, c: Input<B, V>)
    ensures OverlayOpt(Overlay(a, b), Some(c)).Some? && OverlayOpt(Some(a), Overlay(b, c)).None?
  {
    a, c := DefaultInput(), DefaultInput();
    b := a.(steps := [Item(name, first), Item(name, second)]);
    assert b.steps[0].name == b.steps[1].name;
    OverlayAssociative(a, b, c);
  }

  /** The empty input changes nothing, on either side; only the list of used templates is the earlier one. */
  lemma EmptyInputIsUnit<B, V>(a: Input<B, V>)
    requires Unique(a.steps)
    ensures Overlay(a, DefaultInput()) == Some(a)
    ensures Overlay(DefaultInput(), a) == Some(a.(uses := []))
  {
    PutAllIntoNothing(a.steps);
    ExtendUnit(a.env);
    ExtendUnit(a.vars);
  }

  /** A resolver of launch templates, as the configuration builds it. */
  ghost predicate LaunchResolver<B(!new), V(!new)>(r: Resolver<Input<B, V>>) {
    && (forall a, b :: r.overlay(a, b) == Overlay(a, b))
    && forall n :: n in r.templates ==> Unique(r.templates[n].steps)
  }

  /**
   Overlaying a whole chain of templates is overlaying one template, the chain overlaid on the
   empty input; it cannot fail.
   */
  lemma {:induction false} ChainIsOneOverlay<B(!new), V(!new)>(
    r: Resolver<Input<B, V>>, base: Input<B, V>, names: seq<string>)
    requires LaunchResolver(r) && Unique(base.steps) && forall n :: n in names ==> n in r.templates
    ensures var chain := Fold(r, DefaultInput(), names);
      && chain.Ok? && Unique(chain.value.steps)
      && Fold(r, base, names) == Ok(Combined(base, chain.value))
    decreases |names|
  {
    if names == [] {
      assert Combined(base, DefaultInput()) == base;
    } else {
      var front, last := names[..|names| - 1], names[|names| - 1];
      assert names == front + [last] && last in names;
      assert forall n :: n in front ==> n in names;
      ChainIsOneOverlay(r, base, front);
      FoldConcat(r, base, front, [last]);
      FoldConcat(r, DefaultInput(), front, [last]);
      var chain := Fold(r, DefaultInput(), front).value;
      OneTemplate(r, Combined(base, chain), last);
      OneTemplate(r, chain, last);
      PutAllUnique(base.steps, chain.steps);
      PutAllUnique(chain.steps, r.templates[last].steps);
      OverlayAssociative(base, chain, r.templates[last]);
    }
  }

  lemma OneTemplate<B(!new), V(!new)>(r: Resolver<Input<B, V>>, base: Input<B, V>, name: string)
    requires LaunchResolver(r) && name in r.templates
    ensures Unique(base.steps) ==> Fold(r, base, [name]) == Ok(Combined(base, r.templates[name]))
  {
    if Unique(base.steps) {
      assert r.overlay(base, r.templates[name]) == Overlay(base, r.templates[name]);
      assert Fold(r, base, [name]) == Fold(r, Combined(base, r.templates[name]), []);
    }
  }
}
