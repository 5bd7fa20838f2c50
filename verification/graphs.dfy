/**
 Finite directed graphs given by successor lists, as the configuration code walks them:
 service dependencies, include files and template chains. A node that is not a key has no
 successors.
 */
module Graphs {
  import opened Sequences

  type Graph<K> = map<K, seq<K>>

  function Succ<K>(g: Graph<K>, n: K): seq<K> {
    if n in g then g[n] else []
  }

  /** Every node the graph mentions. */
  function Nodes<K>(g: Graph<K>): set<K> {
    g.Keys + set k, d | k in g.Keys && d in g[k] :: d
  }

  /** Consecutive elements `i` and `i + 1` of `p` are joined by an edge. */
  ghost predicate Step<K>(g: Graph<K>, p: seq<K>, i: int)
    requires 0 <= i < |p| - 1
  {
    p[i + 1] in Succ(g, p[i])
  }

  ghost predicate IsPath<K>(g: Graph<K>, p: seq<K>) {
    |p| > 0 && forall i :: 0 <= i < |p| - 1 ==> Step(g, p, i)
  }

  ghost predicate IsCycle<K>(g: Graph<K>, c: seq<K>) {
    IsPath(g, c) && |c| >= 2 && c[0] == c[|c| - 1]
  }

  ghost predicate Acyclic<K(!new)>(g: Graph<K>) {
    forall c :: !IsCycle(g, c)
  }

  /** `b` can be reached from `a` along at least one edge. */
  ghost predicate Reaches<K(!new)>(g: Graph<K>, a: K, b: K) {
    exists p :: PathBetween(g, a, b, p)
  }

  ghost predicate PathBetween<K>(g: Graph<K>, a: K, b: K, p: seq<K>) {
    IsPath(g, p) && |p| >= 2 && p[0] == a && p[|p| - 1] == b
  }

  /** A set that no edge leaves. */
  ghost predicate Closed<K(!new)>(g: Graph<K>, s: set<K>) {
    forall n, m :: n in s && m in Succ(g, n) ==> m in s
  }

  lemma PathSnoc<K>(g: Graph<K>, p: seq<K>, n: K)
    requires IsPath(g, p) && n in Succ(g, p[|p| - 1])
    ensures IsPath(g, p + [n])
  {
    var q := p + [n];
    forall i | 0 <= i < |q| - 1 ensures Step(g, q, i) {
      if i < |p| - 1 { assert Step(g, p, i); }
    }
  }

  lemma PathSuffix<K>(g: Graph<K>, p: seq<K>, k: nat)
    requires IsPath(g, p) && k < |p|
    ensures IsPath(g, p[k..])
  {
    forall i | 0 <= i < |p[k..]| - 1 ensures Step(g, p[k..], i) {
      assert Step(g, p, k + i);
    }
  }

  lemma ReachesEdge<K(!new)>(g: Graph<K>, a: K, b: K)
    requires b in Succ(g, a)
    ensures Reaches(g, a, b)
  {
    assert Step(g, [a, b], 0);
    assert PathBetween(g, a, b, [a, b]);
  }

  lemma ReachesSnoc<K(!new)>(g: Graph<K>, a: K, b: K, c: K)
    requires Reaches(g, a, b) && c in Succ(g, b)
    ensures Reaches(g, a, c)
  {
    var p :| PathBetween(g, a, b, p);
    PathSnoc(g, p, c);
    assert PathBetween(g, a, c, p + [c]);
  }

  lemma ReachesSelfIsCycle<K(!new)>(g: Graph<K>, a: K)
    requires Reaches(g, a, a)
    ensures !Acyclic(g)
  {
    var p :| PathBetween(g, a, a, p);
    assert IsCycle(g, p);
  }

  /** A path that enters a closed set stays in it. */
  lemma {:induction false} ClosedPath<K(!new)>(g: Graph<K>, s: set<K>, p: seq<K>, i: nat, j: nat)
    requires IsPath(g, p) && Closed(g, s) && i <= j < |p| && p[i] in s
    ensures p[j] in s
    decreases j
  {
    if i < j {
      ClosedPath(g, s, p, i, j - 1);
      assert Step(g, p, j - 1);
    }
  }

  /** A closed acyclic part stays acyclic when a node whose successors lie in it is added. */
  lemma AddFinishedNode<K(!new)>(g: Graph<K>, s: set<K>, n: K)
    requires Closed(g, s) && n !in s && forall m :: m in Succ(g, n) ==> m in s
    requires forall c :: IsCycle(g, c) ==> c[0] !in s
    ensures Closed(g, s + {n})
    ensures forall c :: IsCycle(g, c) ==> c[0] !in s + {n}
  {
    forall c | IsCycle(g, c) ensures c[0] != n {
      assert Step(g, c, 0);
      if c[0] == n { ClosedPath(g, s, c, 1, |c| - 1); }
    }
  }

  lemma DistinctSize<K>(p: seq<K>)
    requires Distinct(p)
    ensures |Elems(p)| == |p|
  {
    if p != [] {
      var q, last := p[..|p| - 1], p[|p| - 1];
      DistinctSize(q);
      assert last !in q;
      assert p == q + [last];
      assert Elems(p) == Elems(q) + {last};
    } else {
      assert Elems(p) == {};
    }
  }

  lemma SubsetSize<K>(a: set<K>, b: set<K>)
    requires a <= b
    ensures |a| <= |b|
  {
    assert b == a + (b - a);
  }

  lemma AcyclicPathDistinct<K(!new)>(g: Graph<K>, p: seq<K>)
    requires Acyclic(g) && IsPath(g, p)
    ensures Distinct(p)
  {
    forall i, j | 0 <= i < j < |p| ensures p[i] != p[j] {
      if p[i] == p[j] {
        var c := p[i..j + 1];
        forall k | 0 <= k < |c| - 1 ensures Step(g, c, k) { assert Step(g, p, i + k); }
        assert IsCycle(g, c);
      }
    }
  }

  /** In an acyclic graph every nonempty finite set has a member with no successor in the set. */
  lemma MinimalMember<K(!new)>(g: Graph<K>, s: set<K>) returns (x: K)
    requires Acyclic(g) && s != {}
    ensures x in s && forall m :: m in Succ(g, x) ==> m !in s
  {
    var start :| start in s;
    x := Descend(g, s, [start]);
  }

  lemma Descend<K(!new)>(g: Graph<K>, s: set<K>, p: seq<K>) returns (x: K)
    requires Acyclic(g) && IsPath(g, p) && Elems(p) <= s
    ensures x in s && forall m :: m in Succ(g, x) ==> m !in s
    decreases |s| - |p|
  {
    AcyclicPathDistinct(g, p);
    DistinctSize(p);
    SubsetSize(Elems(p), s);
    x := p[|p| - 1];
    if m :| m in Succ(g, x) && m in s {
      PathSnoc(g, p, m);
      AcyclicPathDistinct(g, p + [m]);
      DistinctSize(p + [m]);
      SubsetSize(Elems(p + [m]), s);
      x := Descend(g, s, p + [m]);
    }
  }

  /** Turning every edge around keeps a graph acyclic. */
  lemma ReverseAcyclic<K(!new)>(g: Graph<K>, h: Graph<K>)
    requires Acyclic(h) && forall a, b :: b in Succ(g, a) ==> a in Succ(h, b)
    ensures Acyclic(g)
  {
    forall c | IsCycle(g, c) ensures false {
      var r := seq(|c|, i requires 0 <= i < |c| => c[|c| - 1 - i]);
      forall i | 0 <= i < |r| - 1 ensures Step(h, r, i) {
        assert Step(g, c, |c| - 2 - i);
      }
      assert IsCycle(h, r);
    }
  }
}
