/**
 Composing a gateway configuration from its include files: a depth-first walk that rejects
 cycles, reads each file once and moves its definitions into the root's tables.
 */
module Includes {
  import opened Graphs
  import opened Options
  import opened Sequences

  datatype Section = TargetTemplates | LaunchTemplates | Targets | Launches

  type Defs = map<string, string>

  /**
   `wellFormed` says the file parses, has only the four sections and `includes`, and its
   sections are tables; `includes` is the expanded list, `None` if a pattern matches nothing.
   */
  datatype IncludeFile = IncludeFile(wellFormed: bool, includes: Option<seq<string>>, sections: map<Section, Defs>)

  /**
   `root` holds the root's own tables, `blocked` the sections that it defines as something else;
   `rootIncludes` is its expanded include list, `None` if a pattern matches nothing.
   */
  datatype Config = Config(
    files: map<string, IncludeFile>,
    rootPath: string,
    rootIncludes: Option<seq<string>>,
    root: map<Section, Defs>,
    blocked: set<Section>)

  datatype State = State(root: map<Section, Defs>, seen: set<string>)

  predicate Readable(f: IncludeFile) {
    f.wellFormed && f.includes.Some?
  }

  function Get(m: map<Section, Defs>, s: Section): Defs {
    if s in m then m[s] else map[]
  }

  predicate Clash(a: map<Section, Defs>, b: map<Section, Defs>, s: Section, n: string) {
    n in Get(a, s) && n in Get(b, s)
  }

  ghost predicate Insertable(c: Config, root: map<Section, Defs>, sections: map<Section, Defs>) {
    sections.Keys !! c.blocked && forall s, n :: !Clash(root, sections, s, n)
  }

  ghost function Union(root: map<Section, Defs>, sections: map<Section, Defs>): map<Section, Defs> {
    map s | s in root.Keys + sections.Keys :: Get(root, s) + Get(sections, s)
  }

  ghost function Visit(c: Config, path: string, st: State, trail: seq<string>): (r: Option<State>)
    ensures r.Some? ==> st.seen <= r.value.seen && path in r.value.seen - Elems(trail)
    ensures r.Some? ==> (r.value.seen - st.seen) !! Elems(trail)
    decreases c.files.Keys - st.seen, 0
  {
    if path !in c.files || path in trail then None
    else if path in st.seen then Some(st)
    else if !Readable(c.files[path]) then None
    else
      assert Elems(trail + [path]) == Elems(trail) + {path};
      var inner := VisitAll(c, c.files[path].includes.value, st.(seen := st.seen + {path}), trail + [path]);
      if inner.None? || !Insertable(c, inner.value.root, c.files[path].sections) then None
      else Some(inner.value.(root := Union(inner.value.root, c.files[path].sections)))
  }

  ghost function VisitAll(c: Config, work: seq<string>, st: State, trail: seq<string>): (r: Option<State>)
    ensures r.Some? ==> st.seen <= r.value.seen && forall p :: p in work ==> p in r.value.seen - Elems(trail)
    ensures r.Some? ==> (r.value.seen - st.seen) !! Elems(trail)
    decreases c.files.Keys - st.seen, 1 + |work|
  {
    if work == [] then Some(st)
    else
      var next := Visit(c, work[0], st, trail);
      if next.None? then None
      else
        assert c.files.Keys - next.value.seen <= c.files.Keys - st.seen;
        VisitAll(c, work[1..], next.value, trail)
  }

  function RootIncludes(c: Config): seq<string> {
    if c.rootIncludes.Some? then c.rootIncludes.value else []
  }

  /** The composed tables, or `None` when the walk reports an error. */
  ghost function Compose(c: Config): Option<map<Section, Defs>> {
    var r := VisitAll(c, RootIncludes(c), State(c.root, {}), [c.rootPath]);
    if c.rootIncludes.Some? && r.Some? then Some(r.value.root) else None
  }

  // ---- The include composer's walk ----

  /** No name is defined on both sides. */
  predicate Apart(a: Defs, b: Defs) {
    forall n :: n in a ==> n !in b
  }

  /** One section of an include is added name by name; a name that is already there is refused. */
  method InsertSection(table0: Defs, definitions: Defs) returns (r: Option<Defs>)
    ensures r == if Apart(table0, definitions) then Some(table0 + definitions) else None
  {
    var table, names := table0, definitions.Keys;
    while names != {}
      invariant names <= definitions.Keys && forall n :: n in definitions && n !in names ==> n !in table0
      invariant table == table0 + (map n | n in definitions && n !in names :: definitions[n])
      decreases names
    {
      var name :| name in names;
      if name in table { return None; }
      table := table[name := definitions[name]];
      names := names - {name};
    }
    assert table == table0 + definitions;
    r := Some(table);
  }

  /** The state of the root's tables once the sections in `order` have been inserted. */
  ghost predicate Inserted(
    root0: map<Section, Defs>, sections: map<Section, Defs>, order: seq<Section>, root: map<Section, Defs>) {
    && (forall s :: s in root <==> s in root0 || (s in order && s in sections))
    && forall s :: Get(root, s) == if s in order then Get(root0, s) + Get(sections, s) else Get(root0, s)
  }

  lemma InsertedAll(
    c: Config, root0: map<Section, Defs>, sections: map<Section, Defs>, order: seq<Section>, root: map<Section, Defs>)
    requires Inserted(root0, sections, order, root) && forall s: Section :: s in order
    requires Accepted(c, root0, sections, order)
    ensures Insertable(c, root0, sections) && root == Union(root0, sections)
  {
    forall s, n ensures !Clash(root0, sections, s, n) { assert s in order; }
    var u := Union(root0, sections);
    assert forall s :: s in root <==> s in u;
    forall s | s in root ensures root[s] == u[s] { assert root[s] == Get(root, s) && s in order; }
  }

  /** What the loop has checked of the sections already inserted. */
  ghost predicate Accepted(c: Config, root0: map<Section, Defs>, sections: map<Section, Defs>, order: seq<Section>) {
    forall s :: s in order && s in sections ==> s !in c.blocked && Apart(Get(root0, s), sections[s])
  }

  lemma InsertedNext(
    root0: map<Section, Defs>, sections: map<Section, Defs>, order: seq<Section>, root: map<Section, Defs>,
    key: Section)
    requires Inserted(root0, sections, order, root) && key !in order
    ensures Get(root, key) == Get(root0, key)
    ensures key !in sections ==> Inserted(root0, sections, order + [key], root)
    ensures key in sections ==>
      Inserted(root0, sections, order + [key], root[key := Get(root0, key) + sections[key]])
  {
    assert forall s :: s in order + [key] <==> s in order || s == key;
  }

  method InsertInOrder(c: Config, root0: map<Section, Defs>, sections: map<Section, Defs>, order: seq<Section>)
    returns (r: Option<map<Section, Defs>>)
    requires Distinct(order) && forall s: Section :: s in order
    ensures r == if Insertable(c, root0, sections) then Some(Union(root0, sections)) else None
  {
    var root := root0;
    for i := 0 to |order|
      invariant Inserted(root0, sections, order[..i], root)
      invariant Accepted(c, root0, sections, order[..i])
    {
      var key := order[i];
      assert key !in order[..i];
      assert order[..i + 1] == order[..i] + [key];
      InsertedNext(root0, sections, order[..i], root, key);
      if key in sections {
        if key in c.blocked { return None; }
        var table := InsertSection(Get(root, key), sections[key]);
        if table.None? {
          var name :| name in Get(root0, key) && name in sections[key];
          assert Clash(root0, sections, key, name);
          return None;
        }
        root := root[key := table.value];
      }
    }
    assert order[..|order|] == order;
    InsertedAll(c, root0, sections, order, root);
    r := Some(root);
  }

  /** Every section is inserted, or the first problem stops the walk. */
  method InsertDefinitions(c: Config, root: map<Section, Defs>, sections: map<Section, Defs>)
    returns (r: Option<map<Section, Defs>>)
    ensures r == if Insertable(c, root, sections) then Some(Union(root, sections)) else None
  {
    var order := [TargetTemplates, LaunchTemplates, Targets, Launches];
    forall s: Section ensures s in order {
      assert order[0] == TargetTemplates && order[1] == LaunchTemplates && order[2] == Targets && order[3] == Launches;
      match s case TargetTemplates => case LaunchTemplates => case Targets => case Launches =>
    }
    r := InsertInOrder(c, root, sections, order);
  }

  method ComposeInPlace(
    c: Config, paths: seq<string>, root0: map<Section, Defs>, seen0: set<string>, stack0: set<string>,
    ghost trail: seq<string>) returns (ok: bool, root: map<Section, Defs>, seen: set<string>, stack: set<string>)
    requires stack0 == Elems(trail)
    ensures ok <==> VisitAll(c, paths, State(root0, seen0), trail).Some?
    ensures ok ==> VisitAll(c, paths, State(root0, seen0), trail) == Some(State(root, seen)) && stack == stack0
    decreases c.files.Keys - seen0
  {
    root, seen, stack := root0, seen0, stack0;
    for i := 0 to |paths|
      invariant seen0 <= seen && stack == stack0
      invariant VisitAll(c, paths, State(root0, seen0), trail) == VisitAll(c, paths[i..], State(root, seen), trail)
    {
      assert paths[i..][1..] == paths[i + 1..];
      var path := paths[i];
      if path !in c.files { return false, root, seen, stack; }
      if path in stack { return false, root, seen, stack; }
      if path !in seen {
        var file := c.files[path];
        if !Readable(file) { return false, root, seen, stack; }
        assert Elems(trail + [path]) == Elems(trail) + {path};
        assert c.files.Keys - (seen + {path}) < c.files.Keys - seen0 by {
          assert path in c.files.Keys - seen0;
        }
        ok, root, seen, stack :=
          ComposeInPlace(c, file.includes.value, root, seen + {path}, stack + {path}, trail + [path]);
        if !ok { return; }
        var inserted := InsertDefinitions(c, root, file.sections);
        if inserted.None? { return false, root, seen, stack; }
        root := inserted.value;
        stack := stack - {path};
        assert stack == stack0;
      }
    }
    ok := true;
  }

  method ComposeGatewayIncludes(c: Config) returns (r: Option<map<Section, Defs>>)
    ensures r == Compose(c)
  {
    if c.rootIncludes.None? { return None; }
    assert {c.rootPath} == Elems([c.rootPath]);
    var ok, root, seen, stack := ComposeInPlace(c, c.rootIncludes.value, c.root, {}, {c.rootPath}, [c.rootPath]);
    r := if ok then Some(root) else None;
  }

  // ---- When composition succeeds, and what it yields ----

  ghost function IncludeGraph(c: Config): Graph<string> {
    (map p | p in c.files && Readable(c.files[p]) :: c.files[p].includes.value)[c.rootPath := RootIncludes(c)]
  }

  ghost predicate Included(c: Config, p: string) {
    Reaches(IncludeGraph(c), c.rootPath, p)
  }

  /** The definitions of the root, or of an include file. */
  function DefsOf(c: Config, p: string): map<Section, Defs> {
    if p == c.rootPath then c.root else if p in c.files then c.files[p].sections else map[]
  }

  ghost predicate Contributes(c: Config, p: string) {
    p == c.rootPath || Included(c, p)
  }

  ghost predicate MissingOrMalformed(c: Config, p: string) {
    Included(c, p) && (p !in c.files || !Readable(c.files[p]))
  }

  ghost predicate ReachableCycle(c: Config, cycle: seq<string>) {
    IsCycle(IncludeGraph(c), cycle) && Contributes(c, cycle[0])
  }

  ghost predicate DefinedTwice(c: Config, p: string, q: string, s: Section, n: string) {
    p != q && Contributes(c, p) && Contributes(c, q) && Clash(DefsOf(c, p), DefsOf(c, q), s, n)
  }

  ghost predicate IntoNonTable(c: Config, p: string, s: Section) {
    Included(c, p) && s in DefsOf(c, p) && s in c.blocked
  }

  ghost predicate Faulty(c: Config) {
    || c.rootIncludes.None?
    || (exists p :: MissingOrMalformed(c, p))
    || (exists cycle :: ReachableCycle(c, cycle))
    || (exists p, q, s, n :: DefinedTwice(c, p, q, s, n))
    || (exists p, s :: IntoNonTable(c, p, s))
  }

  ghost predicate Provides(c: Config, p: string, s: Section, n: string) {
    n in Get(DefsOf(c, p), s)
  }

  /** `root` has the sections and the names of the files `from`, and no others. */
  ghost predicate OnlyFrom(c: Config, root: map<Section, Defs>, from: set<string>) {
    && (forall s :: s in root <==> exists p :: p in from && s in DefsOf(c, p))
    && (forall s, n :: n in Get(root, s) ==> exists p :: p in from && Provides(c, p, s, n))
  }

  /** Every definition of `from` is in `root` with its own value. */
  ghost predicate AllOf(c: Config, root: map<Section, Defs>, from: set<string>) {
    forall p, s, n :: p in from && Provides(c, p, s, n) ==>
      n in Get(root, s) && Get(root, s)[n] == Get(DefsOf(c, p), s)[n]
  }

  /** No name is provided by two of the files. */
  ghost predicate ProvidedOnce(c: Config, from: set<string>) {
    forall p, q, s, n :: p in from && q in from && Provides(c, p, s, n) && Provides(c, q, s, n) ==> p == q
  }

  /** `root` is the disjoint union of the definitions of `from`. */
  ghost predicate Represents(c: Config, root: map<Section, Defs>, from: set<string>) {
    OnlyFrom(c, root, from) && AllOf(c, root, from) && ProvidedOnce(c, from)
  }

  lemma RepresentsMore(c: Config, root: map<Section, Defs>, from: set<string>, path: string)
    requires Represents(c, root, from) && path !in from
    requires forall s, n :: !Clash(root, DefsOf(c, path), s, n)
    ensures Represents(c, Union(root, DefsOf(c, path)), from + {path})
  {
    var next, more := Union(root, DefsOf(c, path)), from + {path};
    assert AllOf(c, next, more) by {
      forall p, s, n | p in more && Provides(c, p, s, n)
        ensures n in Get(next, s) && Get(next, s)[n] == Get(DefsOf(c, p), s)[n]
      {
        assert p != path ==> n in Get(root, s);
        assert !Clash(root, DefsOf(c, path), s, n);
      }
    }
    assert ProvidedOnce(c, more) by {
      forall p, q, s, n | p in more && q in more && Provides(c, p, s, n) && Provides(c, q, s, n) ensures p == q {
        assert !Clash(root, DefsOf(c, path), s, n);
      }
    }
  }

  ghost predicate Settled(c: Config, done: set<string>) {
    && Closed(IncludeGraph(c), done)
    && (forall cycle :: IsCycle(IncludeGraph(c), cycle) ==> cycle[0] !in done)
    && forall p :: p in done ==>
      Included(c, p) && p in c.files && Readable(c.files[p]) && c.files[p].sections.Keys !! c.blocked
  }

  ghost predicate Inv(c: Config, st: State, trail: seq<string>) {
    var done := st.seen - Elems(trail);
    && IsPath(IncludeGraph(c), trail) && trail[0] == c.rootPath
    && Settled(c, done) && Represents(c, st.root, {c.rootPath} + done)
  }

  lemma TrailIncludes(c: Config, trail: seq<string>, path: string)
    requires IsPath(IncludeGraph(c), trail) && trail[0] == c.rootPath
    requires path in Succ(IncludeGraph(c), trail[|trail| - 1])
    ensures IsPath(IncludeGraph(c), trail + [path]) && Included(c, path)
  {
    PathSnoc(IncludeGraph(c), trail, path);
    assert PathBetween(IncludeGraph(c), c.rootPath, path, trail + [path]);
  }

  lemma {:induction false} VisitSound(c: Config, path: string, st: State, trail: seq<string>)
    requires Inv(c, st, trail) && path in Succ(IncludeGraph(c), trail[|trail| - 1])
    ensures var r := Visit(c, path, st, trail); if r.Some? then Inv(c, r.value, trail) else Faulty(c)
    decreases c.files.Keys - st.seen, 0
  {
    var g := IncludeGraph(c);
    TrailIncludes(c, trail, path);
    if path !in c.files {
      assert MissingOrMalformed(c, path);
    } else if path in trail {
      var k :| 0 <= k < |trail| && trail[k] == path;
      PathSuffix(g, trail + [path], k);
      assert ReachableCycle(c, (trail + [path])[k..]);
    } else if path in st.seen {
    } else if !Readable(c.files[path]) {
      assert MissingOrMalformed(c, path);
    } else {
      var st1, trail1 := st.(seen := st.seen + {path}), trail + [path];
      assert st1.seen - Elems(trail1) == st.seen - Elems(trail);
      VisitAllSound(c, c.files[path].includes.value, st1, trail1);
      var inner := VisitAll(c, c.files[path].includes.value, st1, trail1);
      if inner.Some? {
        if Insertable(c, inner.value.root, c.files[path].sections) {
          VisitFinishes(c, path, inner.value, trail);
        } else {
          InsertionFails(c, path, inner.value.root, inner.value.seen - Elems(trail1));
        }
      }
    }
  }

  /** All includes of `path` are done and its own definitions are inserted. */
  lemma VisitFinishes(c: Config, path: string, st: State, trail: seq<string>)
    requires path in c.files && Readable(c.files[path]) && path != c.rootPath && path !in trail && trail != []
    requires Inv(c, st, trail + [path]) && Included(c, path) && path in st.seen && IsPath(IncludeGraph(c), trail)
    requires forall p :: p in c.files[path].includes.value ==> p in st.seen - Elems(trail + [path])
    requires Insertable(c, st.root, c.files[path].sections)
    ensures Inv(c, st.(root := Union(st.root, c.files[path].sections)), trail)
  {
    var g := IncludeGraph(c);
    var done := st.seen - Elems(trail + [path]);
    assert Elems(trail + [path]) == Elems(trail) + {path};
    assert st.seen - Elems(trail) == done + {path};
    AddFinishedNode(g, done, path);
    RepresentsMore(c, st.root, {c.rootPath} + done, path);
    assert {c.rootPath} + done + {path} == {c.rootPath} + (done + {path});
  }

  /** A file that cannot be inserted clashes with some contributor or with a root field. */
  lemma InsertionFails(c: Config, path: string, root: map<Section, Defs>, done: set<string>)
    requires path in c.files && path != c.rootPath && path !in done && Included(c, path)
    requires Represents(c, root, {c.rootPath} + done) && forall p :: p in done ==> Included(c, p)
    requires !Insertable(c, root, c.files[path].sections)
    ensures Faulty(c)
  {
    if s :| s in c.files[path].sections && s in c.blocked {
      assert IntoNonTable(c, path, s);
    } else {
      var s, n :| Clash(root, c.files[path].sections, s, n);
      var p :| p in {c.rootPath} + done && Provides(c, p, s, n);
      assert DefinedTwice(c, p, path, s, n);
    }
  }

  lemma {:induction false} VisitAllSound(c: Config, work: seq<string>, st: State, trail: seq<string>)
    requires Inv(c, st, trail) && forall p :: p in work ==> p in Succ(IncludeGraph(c), trail[|trail| - 1])
    ensures var r := VisitAll(c, work, st, trail); if r.Some? then Inv(c, r.value, trail) else Faulty(c)
    decreases c.files.Keys - st.seen, 1 + |work|
  {
    if work != [] {
      assert work[0] in work && forall p :: p in work[1..] ==> p in work;
      VisitSound(c, work[0], st, trail);
      var next := Visit(c, work[0], st, trail);
      if next.Some? {
        assert c.files.Keys - next.value.seen <= c.files.Keys - st.seen;
        VisitAllSound(c, work[1..], next.value, trail);
      }
    }
  }

  /** Everything included lies in a settled set that holds the root's own includes. */
  lemma IncludedIsDone(c: Config, done: set<string>, p: string)
    requires Settled(c, done) && Included(c, p) && forall q :: q in RootIncludes(c) ==> q in done
    ensures p in done
  {
    var path :| PathBetween(IncludeGraph(c), c.rootPath, p, path);
    assert Step(IncludeGraph(c), path, 0);
    ClosedPath(IncludeGraph(c), done, path, 1, |path| - 1);
  }

  /**
   Composition succeeds exactly when the root's patterns all match, no included file is missing or malformed, no include
   cycle is reachable, no name is defined twice in a section, and no section of an include
   meets a root field that is not a table.
   */
  lemma ComposeSucceedsIff(c: Config)
    ensures Compose(c).Some? <==> !Faulty(c)
    ensures Compose(c).Some? ==>
      forall s :: s in Compose(c).value <==> exists p :: Contributes(c, p) && s in DefsOf(c, p)
    ensures Compose(c).Some? ==> forall p, s, n :: Contributes(c, p) && Provides(c, p, s, n) ==>
      n in Get(Compose(c).value, s) && Get(Compose(c).value, s)[n] == Get(DefsOf(c, p), s)[n]
    ensures Compose(c).Some? ==> forall s, n :: n in Get(Compose(c).value, s) ==>
      exists p :: Contributes(c, p) && Provides(c, p, s, n)
  {
    var st, trail := State(c.root, {}), [c.rootPath];
    assert Represents(c, c.root, {c.rootPath}) by {
      assert DefsOf(c, c.rootPath) == c.root;
    }
    assert {c.rootPath} + (st.seen - Elems(trail)) == {c.rootPath};
    VisitAllSound(c, RootIncludes(c), st, trail);
    var r := VisitAll(c, RootIncludes(c), st, trail);
    if c.rootIncludes.Some? && r.Some? {
      var done := r.value.seen - Elems(trail);
      assert c.rootPath in Elems(trail);
      forall p | Included(c, p) ensures p in done { IncludedIsDone(c, done, p); }
      assert forall p :: Contributes(c, p) <==> p in {c.rootPath} + done;
      NoFault(c, done, r.value.root);
    }
  }

  lemma NoFault(c: Config, done: set<string>, root: map<Section, Defs>)
    requires Settled(c, done) && Represents(c, root, {c.rootPath} + done) && c.rootPath !in done
    requires forall p :: Contributes(c, p) <==> p in {c.rootPath} + done
    requires c.rootIncludes.Some? && forall p :: Included(c, p) ==> p in done
    ensures !Faulty(c)
  {
    forall cycle | IsCycle(IncludeGraph(c), cycle) ensures Reaches(IncludeGraph(c), cycle[0], cycle[0]) {
      assert PathBetween(IncludeGraph(c), cycle[0], cycle[0], cycle);
    }
    forall p, q, s, n ensures !DefinedTwice(c, p, q, s, n) {
      if Contributes(c, p) && Contributes(c, q) && Clash(DefsOf(c, p), DefsOf(c, q), s, n) {
        assert Provides(c, p, s, n) && Provides(c, q, s, n);
      }
    }
  }

  /** The same files with the same definitions, whose include lists may be in another order. */
  ghost predicate SameUpToOrder(c: Config, d: Config) {
    && c.rootPath == d.rootPath && c.root == d.root && c.blocked == d.blocked
    && c.rootIncludes.Some? == d.rootIncludes.Some? && Elems(RootIncludes(c)) == Elems(RootIncludes(d))
    && c.files.Keys == d.files.Keys
    && forall p :: p in c.files ==> SameFile(c.files[p], d.files[p])
  }

  ghost predicate SameFile(f: IncludeFile, h: IncludeFile) {
    && f.wellFormed == h.wellFormed && f.sections == h.sections && f.includes.Some? == h.includes.Some?
    && (f.includes.Some? ==> Elems(f.includes.value) == Elems(h.includes.value))
  }

  lemma SamePaths(c: Config, d: Config, path: seq<string>)
    requires SameUpToOrder(c, d) && IsPath(IncludeGraph(c), path)
    ensures IsPath(IncludeGraph(d), path)
  {
    forall i | 0 <= i < |path| - 1 ensures Step(IncludeGraph(d), path, i) {
      assert Step(IncludeGraph(c), path, i);
      var p, q := path[i], path[i + 1];
      if p == c.rootPath { assert q in Elems(RootIncludes(d)); } else { assert q in Elems(d.files[p].includes.value); }
    }
  }

  lemma SameContributors(c: Config, d: Config)
    requires SameUpToOrder(c, d)
    ensures forall p :: Included(c, p) ==> Included(d, p)
    ensures Faulty(c) ==> Faulty(d)
  {
    forall p | Included(c, p) ensures Included(d, p) {
      var path :| PathBetween(IncludeGraph(c), c.rootPath, p, path);
      SamePaths(c, d, path);
      assert PathBetween(IncludeGraph(d), d.rootPath, p, path);
    }
    if p :| MissingOrMalformed(c, p) {
      assert MissingOrMalformed(d, p);
    } else if cycle :| ReachableCycle(c, cycle) {
      SamePaths(c, d, cycle);
      assert ReachableCycle(d, cycle);
    } else if p, q, s, n :| DefinedTwice(c, p, q, s, n) {
      assert DefinedTwice(d, p, q, s, n);
    } else if p, s :| IntoNonTable(c, p, s) {
      assert IntoNonTable(d, p, s);
    }
  }

  /** The order in which files list their includes never changes the outcome. */
  lemma TraversalOrderIrrelevant(c: Config, d: Config)
    requires SameUpToOrder(c, d)
    ensures Compose(c) == Compose(d)
  {
    assert SameUpToOrder(d, c);
    SameContributors(c, d);
    SameContributors(d, c);
    ComposeSucceedsIff(c);
    ComposeSucceedsIff(d);
    if !Faulty(c) {
      var a, b := Compose(c).value, Compose(d).value;
      assert forall p :: Contributes(c, p) ==> Contributes(d, p) && DefsOf(c, p) == DefsOf(d, p);
      assert forall p :: Contributes(d, p) ==> Contributes(c, p);
      forall s ensures s in a <==> s in b {
        if s in a { var p :| Contributes(c, p) && s in DefsOf(c, p); assert s in DefsOf(d, p); }
        if s in b { var p :| Contributes(d, p) && s in DefsOf(d, p); assert s in DefsOf(c, p); }
      }
      assert a.Keys == b.Keys;
      forall s | s in a ensures a[s] == b[s] {
        forall n | n in a[s] ensures n in b[s] && a[s][n] == b[s][n] {
          assert n in Get(a, s);
          var p :| Contributes(c, p) && Provides(c, p, s, n);
          assert Contributes(d, p) && Provides(d, p, s, n);
        }
        forall n | n in b[s] ensures n in a[s] {
          assert n in Get(b, s);
          var p :| Contributes(d, p) && Provides(d, p, s, n);
          assert Contributes(c, p) && Provides(c, p, s, n);
          assert n in Get(a, s);
        }
        assert a[s] == b[s];
      }
      assert a == b;
    }
  }
}
