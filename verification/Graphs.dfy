/** Reachability in a graph given by the direct successors of its nodes. */
module Graphs {

  /** `graph.get(n, [])` */
  function Next<T>(g: map<T, set<T>>, n: T): set<T> {
    if n in g then g[n] else {}
  }

  /** Each node of `p` is a direct successor of the one before. */
  ghost predicate Trail<T>(g: map<T, set<T>>, p: seq<T>) {
    forall i :: 0 <= i < |p| - 1 ==> p[i + 1] in Next(g, p[i])
  }

  /** `b` is reached from `a` in one step or more. */
  ghost predicate Reaches<T(!new)>(g: map<T, set<T>>, a: T, b: T) {
    exists p :: Trail(g, p) && |p| >= 2 && p[0] == a && p[|p| - 1] == b
  }

  lemma ReachesNext<T(!new)>(g: map<T, set<T>>, a: T, b: T)
    requires b in Next(g, a)
    ensures Reaches(g, a, b)
  {
    var p := [a, b];
    assert Trail(g, p);
  }

  lemma ReachesOn<T(!new)>(g: map<T, set<T>>, a: T, b: T, c: T)
    requires Reaches(g, a, b) && c in Next(g, b)
    ensures Reaches(g, a, c)
  {
    var p :| Trail(g, p) && |p| >= 2 && p[0] == a && p[|p| - 1] == b;
    var q := p + [c];
    assert Trail(g, q);
  }

  lemma {:induction false} TrailStaysIn<T(!new)>(g: map<T, set<T>>, s: set<T>, p: seq<T>)
    requires p != [] && Trail(g, p) && p[0] in s
    requires forall x :: x in s ==> Next(g, x) <= s
    ensures p[|p| - 1] in s
    decreases |p|
  {
    if |p| > 1 {
      assert p[1] in Next(g, p[0]);
      TrailStaysIn(g, s, p[1..]);
    }
  }

  /** A set that holds the successors of `a` and of all its elements holds all that `a` reaches. */
  lemma ReachesStaysIn<T(!new)>(g: map<T, set<T>>, s: set<T>, a: T, b: T)
    requires Reaches(g, a, b)
    requires Next(g, a) <= s && forall x :: x in s ==> Next(g, x) <= s
    ensures b in s
  {
    var p :| Trail(g, p) && |p| >= 2 && p[0] == a && p[|p| - 1] == b;
    assert p[1] in Next(g, p[0]);
    TrailStaysIn(g, s, p[1..]);
  }

  lemma ReachesTrans<T(!new)>(g: map<T, set<T>>, a: T, b: T, c: T)
    requires Reaches(g, a, b) && Reaches(g, b, c)
    ensures Reaches(g, a, c)
  {
    var p :| Trail(g, p) && |p| >= 2 && p[0] == a && p[|p| - 1] == b;
    var q :| Trail(g, q) && |q| >= 2 && q[0] == b && q[|q| - 1] == c;
    var r := p + q[1..];
    forall i | 0 <= i < |r| - 1
      ensures r[i + 1] in Next(g, r[i])
    {
      if i >= |p| - 1 {
        assert r[i] == q[i - |p| + 1] && r[i + 1] == q[i - |p| + 2];
      }
    }
    assert Trail(g, r);
  }

  function Nodes<T>(g: map<T, set<T>>): set<T> {
    g.Keys + set n, m | n in g && m in g[n] :: m
  }

  lemma NextInNodes<T>(g: map<T, set<T>>, n: T)
    ensures Next(g, n) <= Nodes(g)
  {
  }
}
