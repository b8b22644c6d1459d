/** The layered topological sort (`topsort`), its layers as dependency depths, and when it reports a cycle. */
module TopSort {
  import opened Graphs

  type Deps<T(==)> = map<T, set<T>>

  // ---------- the graph that is sorted ----------

  function Mentioned<T>(g: Deps<T>): set<T> {
    set n, m | n in g && m in g[n] :: m
  }

  /** No node depends on itself, and every node that is mentioned is a key. */
  function Completed<T>(g: Deps<T>): Deps<T> {
    map n | n in g.Keys + Mentioned(g) :: if n in g then g[n] - {n} else {}
  }

  ghost predicate Complete<T(!new)>(g: Deps<T>) {
    forall n, m :: n in g && m in g[n] ==> m in g && m != n
  }

  // ---------- paths, depth and cycles ----------

  /** A trail in the graph, of which every node is a key: each node depends on the next one. */
  ghost predicate Path<T>(g: Deps<T>, p: seq<T>) {
    p != [] && Trail(g, p) && forall i :: 0 <= i < |p| ==> p[i] in g
  }

  ghost predicate Cycle<T>(g: Deps<T>, p: seq<T>) {
    Path(g, p) && |p| >= 2 && p[0] == p[|p| - 1]
  }

  ghost predicate Cyclic<T(!new)>(g: Deps<T>) {
    exists p :: Cycle(g, p)
  }

  /** The longest chain of dependencies that starts at `n` has `k` links. */
  ghost predicate DepthIs<T(!new)>(g: Deps<T>, n: T, k: nat) {
    && (exists p :: Path(g, p) && p[0] == n && |p| == k + 1)
    && forall p :: Path(g, p) && p[0] == n ==> |p| <= k + 1
  }

  // ---------- layers ----------

  ghost predicate In<T>(layers: seq<seq<T>>, k: int, n: T) {
    0 <= k < |layers| && n in layers[k]
  }

  ghost predicate Below<T>(layers: seq<seq<T>>, k: int, n: T) {
    exists j :: 0 <= j < k && In(layers, j, n)
  }

  /** No node occurs twice, in one layer or in two. */
  ghost predicate Distinct<T(!new)>(layers: seq<seq<T>>) {
    && (forall i, j, x :: In(layers, i, x) && In(layers, j, x) ==> i == j)
    && forall i, a, b :: 0 <= i < |layers| && 0 <= a < b < |layers[i]| ==> layers[i][a] != layers[i][b]
  }

  /** `n` depends on a node of the layer just before layer `k`. */
  ghost predicate Tight<T(!new)>(g: Deps<T>, layers: seq<seq<T>>, k: int, n: T) {
    n in g && exists m :: m in g[n] && In(layers, k - 1, m)
  }

  /** The dependencies of a node lie in earlier layers, one of them in the layer just before. */
  ghost predicate Layered<T(!new)>(g: Deps<T>, layers: seq<seq<T>>) {
    && Distinct(layers)
    && (forall k, n :: In(layers, k, n) ==> n in g)
    && (forall k, n, m :: In(layers, k, n) && n in g && m in g[n] ==> Below(layers, k, m))
    && forall k, n {:trigger Tight(g, layers, k, n)} :: In(layers, k, n) && k > 0 ==> Tight(g, layers, k, n)
  }

  ghost predicate Sorted<T>(layers: seq<seq<T>>, n: T) {
    exists k :: In(layers, k, n)
  }

  lemma {:induction false} PathsAreShort<T(!new)>(g: Deps<T>, layers: seq<seq<T>>, k: nat, p: seq<T>)
    requires Layered(g, layers) && Path(g, p) && In(layers, k, p[0])
    ensures |p| <= k + 1
    ensures forall i :: 1 <= i < |p| ==> Below(layers, k, p[i])
    decreases |p|
  {
    if |p| > 1 {
      assert Below(layers, k, p[1]);
      var j :| 0 <= j < k && In(layers, j, p[1]);
      assert Path(g, p[1..]);
      PathsAreShort(g, layers, j, p[1..]);
      forall i | 2 <= i < |p|
        ensures Below(layers, k, p[i])
      {
        assert p[i] == p[1..][i - 1];
      }
    }
  }

  lemma {:induction false} LongPath<T(!new)>(g: Deps<T>, layers: seq<seq<T>>, k: nat, n: T) returns (p: seq<T>)
    requires Layered(g, layers) && In(layers, k, n)
    ensures Path(g, p) && p[0] == n && |p| == k + 1
    decreases k
  {
    if k == 0 {
      p := [n];
    } else {
      assert Tight(g, layers, k, n);
      var m :| m in g[n] && In(layers, k - 1, m);
      p := LongPath(g, layers, k - 1, m);
      p := [n] + p;
    }
  }

  /** The layer of a node is its longest dependency depth. */
  lemma LayerIsDepth<T(!new)>(g: Deps<T>, layers: seq<seq<T>>, k: nat, n: T)
    requires Layered(g, layers) && In(layers, k, n)
    ensures DepthIs(g, n, k)
  {
    var p := LongPath(g, layers, k, n);
    forall p | Path(g, p) && p[0] == n
      ensures |p| <= k + 1
    {
      PathsAreShort(g, layers, k, p);
    }
  }

  lemma LayersHaveNoCycle<T(!new)>(g: Deps<T>, layers: seq<seq<T>>, p: seq<T>)
    requires Layered(g, layers) && Path(g, p) && |p| >= 2 && Sorted(layers, p[0])
    ensures p[0] != p[|p| - 1]
  {
    var k :| In(layers, k, p[0]);
    PathsAreShort(g, layers, k, p);
    assert Below(layers, k, p[|p| - 1]);
  }

  /** A graph whose nodes are all in layers has no cycle. */
  lemma LayersAreAcyclic<T(!new)>(g: Deps<T>, layers: seq<seq<T>>)
    requires Layered(g, layers) && forall n :: n in g ==> Sorted(layers, n)
    ensures !Cyclic(g)
  {
    forall p | Path(g, p) && |p| >= 2
      ensures p[0] != p[|p| - 1]
    {
      LayersHaveNoCycle(g, layers, p);
    }
  }

  // ---------- nodes that each depend on one of themselves ----------

  ghost predicate Trapped<T>(g: Deps<T>, rest: set<T>) {
    forall n :: n in rest ==> n in g && g[n] * rest != {}
  }

  lemma {:induction false} Walk<T(!new)>(g: Deps<T>, rest: set<T>, n: T, len: nat) returns (p: seq<T>)
    requires Trapped(g, rest) && n in rest
    ensures Path(g, p) && |p| == len + 1 && p[0] == n
    ensures forall i :: 0 <= i < |p| ==> p[i] in rest
    decreases len
  {
    if len == 0 {
      p := [n];
    } else {
      var m :| m in g[n] * rest;
      var q := Walk(g, rest, m, len - 1);
      p := [n] + q;
      assert forall i :: 1 <= i < |p| ==> p[i] == q[i - 1];
    }
  }

  lemma {:induction false} DistinctFit<T>(p: seq<T>, s: set<T>)
    requires forall i, j :: 0 <= i < j < |p| ==> p[i] != p[j]
    requires forall i :: 0 <= i < |p| ==> p[i] in s
    ensures |p| <= |s|
    decreases |p|
  {
    if p != [] {
      DistinctFit(p[1..], s - {p[0]});
    }
  }

  lemma Repeats<T>(p: seq<T>, s: set<T>) returns (i: nat, j: nat)
    requires |p| > |s| && forall i :: 0 <= i < |p| ==> p[i] in s
    ensures i < j < |p| && p[i] == p[j]
  {
    if forall i, j :: 0 <= i < j < |p| ==> p[i] != p[j] {
      DistinctFit(p, s);
      assert false;
    }
    i, j :| 0 <= i < j < |p| && p[i] == p[j];
  }

  /** A walk among finitely many nodes meets one of them twice. */
  lemma TrappedIsCyclic<T(!new)>(g: Deps<T>, rest: set<T>)
    requires Trapped(g, rest) && rest != {}
    ensures Cyclic(g)
  {
    var n :| n in rest;
    var p := Walk(g, rest, n, |rest|);
    var i, j := Repeats(p, rest);
    var c := p[i..j + 1];
    assert forall k :: 0 <= k < |c| ==> c[k] == p[i + k];
    assert Cycle(g, c);
  }

  // ---------- the algorithm ----------

  /** The nodes of `s` in some order. */
  method Listed<T>(s: set<T>) returns (r: seq<T>)
    ensures forall x :: x in r <==> x in s
    ensures forall a, b :: 0 <= a < b < |r| ==> r[a] != r[b]
  {
    r := [];
    var left := s;
    while left != {}
      invariant left <= s
      invariant forall x :: x in r <==> x in s - left
      invariant forall a, b :: 0 <= a < b < |r| ==> r[a] != r[b]
    {
      var x :| x in left;
      assert x !in r;
      r := r + [x];
      left := left - {x};
    }
  }

  /** The graph at hand: the unsorted nodes with their unsorted dependencies. */
  ghost predicate Remaining<T(!new)>(full: Deps<T>, layers: seq<seq<T>>, g: Deps<T>) {
    && (forall n :: n in g <==> n in full && !Sorted(layers, n))
    && forall n, m :: n in g ==> (m in g[n] <==> m in full[n] && m in g)
  }

  /** Every unsorted node has an unsorted dependency or one in the last layer. */
  ghost predicate Held<T(!new)>(full: Deps<T>, layers: seq<seq<T>>, g: Deps<T>) {
    forall n {:trigger full[n]} :: n in g && n in full ==>
      exists m :: m in full[n] && (m in g || In(layers, |layers| - 1, m))
  }

  lemma LeafDeps<T(!new)>(full: Deps<T>, layers: seq<seq<T>>, g: Deps<T>, n: T, m: T)
    requires Complete(full) && Remaining(full, layers, g)
    requires n in g && g[n] == {} && m in full[n]
    ensures m !in g && Sorted(layers, m)
  {
  }

  lemma SortedMore<T(!new)>(layers: seq<seq<T>>, layer: seq<T>, n: T)
    ensures Sorted(layers + [layer], n) <==> Sorted(layers, n) || n in layer
  {
    var next := layers + [layer];
    if n in layer {
      assert In(next, |layers|, n);
    }
    if k :| In(layers, k, n) {
      assert In(next, k, n);
    }
    if k :| In(next, k, n) {
      assert k < |layers| ==> In(layers, k, n);
    }
  }

  lemma AddBelow<T(!new)>(full: Deps<T>, layers: seq<seq<T>>, g: Deps<T>, layer: seq<T>, k: int, n: T, m: T)
    requires Complete(full) && Layered(full, layers) && Remaining(full, layers, g)
    requires forall x :: x in layer ==> x in g && g[x] == {}
    requires In(layers + [layer], k, n) && n in full && m in full[n]
    ensures Below(layers + [layer], k, m)
  {
    if k < |layers| {
      assert In(layers, k, n);
      var j :| 0 <= j < k && In(layers, j, m);
      assert In(layers + [layer], j, m);
    } else {
      LeafDeps(full, layers, g, n, m);
      var j :| In(layers, j, m);
      assert In(layers + [layer], j, m);
    }
  }

  lemma AddTight<T(!new)>(full: Deps<T>, layers: seq<seq<T>>, g: Deps<T>, layer: seq<T>, k: int, n: T)
    requires Layered(full, layers) && Remaining(full, layers, g)
    requires |layers| > 0 ==> Held(full, layers, g)
    requires forall x :: x in layer ==> x in g && g[x] == {}
    requires In(layers + [layer], k, n) && k > 0
    ensures Tight(full, layers + [layer], k, n)
  {
    if k < |layers| {
      assert In(layers, k, n) && Tight(full, layers, k, n);
      var m :| m in full[n] && In(layers, k - 1, m);
      assert In(layers + [layer], k - 1, m);
    } else {
      assert n in full;
      var m :| m in full[n] && (m in g || In(layers, k - 1, m));
      assert m !in g[n];
      assert In(layers + [layer], k - 1, m);
    }
  }

  /** One round of the loop: the leaves become a layer, the other nodes lose them. */
  lemma AddLayer<T(!new)>(full: Deps<T>, layers: seq<seq<T>>, g: Deps<T>, layer: seq<T>)
    requires Complete(full) && Layered(full, layers) && Remaining(full, layers, g)
    requires |layers| > 0 ==> Held(full, layers, g)
    requires forall n :: n in layer <==> n in g && g[n] == {}
    requires forall a, b :: 0 <= a < b < |layer| ==> layer[a] != layer[b]
    ensures Layered(full, layers + [layer])
  {
    var next := layers + [layer];
    forall k, n | In(next, k, n)
      ensures n in full
      ensures k > 0 ==> Tight(full, next, k, n)
    {
      if k > 0 {
        AddTight(full, layers, g, layer, k, n);
      }
      assert k < |layers| ==> In(layers, k, n);
    }
    forall k, n, m | In(next, k, n) && n in full && m in full[n]
      ensures Below(next, k, m)
    {
      AddBelow(full, layers, g, layer, k, n, m);
    }
    forall n | n in layer
      ensures !Sorted(layers, n)
    {
      assert n in g;
    }
    DistinctAdd(layers, layer);
  }

  lemma AfterLayer<T(!new)>(full: Deps<T>, layers: seq<seq<T>>, g: Deps<T>, layer: seq<T>, h: Deps<T>)
    requires Remaining(full, layers, g)
    requires forall n :: n in layer <==> n in g && g[n] == {}
    requires h.Keys == set n | n in g && n !in layer
    requires forall n :: n in h ==> h[n] == g[n] - set m | m in layer
    ensures Remaining(full, layers + [layer], h)
    ensures Held(full, layers + [layer], h)
  {
    var next := layers + [layer];
    forall n
      ensures n in h <==> n in full && !Sorted(next, n)
    {
      SortedMore(layers, layer, n);
    }
    forall n | n in h
      ensures exists m :: m in full[n] && (m in h || In(next, |layers|, m))
    {
      var m :| m in g[n];
      assert m in full[n] && (m in h || m in layer);
    }
  }

  lemma DistinctAdd<T(!new)>(layers: seq<seq<T>>, layer: seq<T>)
    requires Distinct(layers) && forall n :: n in layer ==> !Sorted(layers, n)
    requires forall a, b :: 0 <= a < b < |layer| ==> layer[a] != layer[b]
    ensures Distinct(layers + [layer])
  {
    var next := layers + [layer];
    forall i, j, x | In(next, i, x) && In(next, j, x)
      ensures i == j
    {
      assert i < |layers| ==> In(layers, i, x);
      assert j < |layers| ==> In(layers, j, x);
    }
  }

  lemma StartsRemaining<T(!new)>(graph: Deps<T>)
    ensures Complete(Completed(graph)) && Layered(Completed(graph), [])
    ensures Remaining(Completed(graph), [], Completed(graph))
  {
  }

  /** What is left over depends on something left over. */
  lemma LeftoverIsTrapped<T(!new)>(full: Deps<T>, layers: seq<seq<T>>, g: Deps<T>, n: T)
    requires Remaining(full, layers, g) && n in g && g[n] != {}
    ensures n in full && full[n] * g.Keys != {}
  {
    var m :| m in g[n];
    assert m in full[n] && m in g.Keys;
    assert m in full[n] * g.Keys;
  }

  lemma Outcome<T(!new)>(full: Deps<T>, layers: seq<seq<T>>, g: Deps<T>)
    requires Layered(full, layers) && Remaining(full, layers, g)
    requires forall n :: n in g ==> g[n] != {}
    ensures g != map[] <==> Cyclic(full)
    ensures g == map[] ==> forall n :: n in full ==> Sorted(layers, n)
  {
    if g == map[] {
      forall n | n in full
        ensures Sorted(layers, n)
      {
        assert n !in g;
      }
      LayersAreAcyclic(full, layers);
    } else {
      forall n | n in g.Keys
        ensures n in full && full[n] * g.Keys != {}
      {
        LeftoverIsTrapped(full, layers, g, n);
      }
      TrappedIsCyclic(full, g.Keys);
    }
  }

  /**
   * `full` is the caller's graph as the sort leaves it. The layers come first; what is left over then is
   * empty, or the cyclic part that the exception carries.
   */
  method Sort<T(!new)>(graph: Deps<T>) returns (full: Deps<T>, layers: seq<seq<T>>, leftover: Deps<T>)
    ensures full == Completed(graph)
    ensures Layered(full, layers) && Remaining(full, layers, leftover)
    ensures forall n :: n in leftover ==> leftover[n] != {}
    ensures leftover != map[] <==> Cyclic(full)
    ensures leftover == map[] ==> forall n :: n in full ==> Sorted(layers, n)
  {
    full := Completed(graph);
    layers := [];
    leftover := full;
    StartsRemaining(graph);
    var leaves := set n | n in leftover && leftover[n] == {};
    while leaves != {}
      invariant Layered(full, layers) && Remaining(full, layers, leftover)
      invariant |layers| > 0 ==> Held(full, layers, leftover)
      invariant leaves == set n | n in leftover && leftover[n] == {}
      decreases leftover.Keys
    {
      var layer := Listed(leaves);
      var rest := map n | n in leftover && n !in leaves :: leftover[n] - leaves;
      NextLayer(full, layers, leftover, layer, leaves, rest);
      layers := layers + [layer];
      leftover := rest;
      leaves := set n | n in leftover && leftover[n] == {};
    }
    assert forall n :: n in leftover ==> n !in leaves;
    Outcome(full, layers, leftover);
  }

  lemma NextLayer<T(!new)>(full: Deps<T>, layers: seq<seq<T>>, g: Deps<T>, layer: seq<T>, leaves: set<T>, h: Deps<T>)
    requires Complete(full) && Layered(full, layers) && Remaining(full, layers, g) &&
      (|layers| > 0 ==> Held(full, layers, g))
    requires leaves == (set n | n in g && g[n] == {}) && leaves != {} && forall n :: n in layer <==> n in leaves
    requires forall a, b :: 0 <= a < b < |layer| ==> layer[a] != layer[b]
    requires h == map n | n in g && n !in leaves :: g[n] - leaves
    ensures Layered(full, layers + [layer]) && Remaining(full, layers + [layer], h) && Held(full, layers + [layer], h)
    ensures h.Keys < g.Keys
  {
    assert leaves == set m | m in layer;
    AddLayer(full, layers, g, layer);
    AfterLayer(full, layers, g, layer, h);
    var leaf :| leaf in leaves;
    assert leaf in g.Keys && leaf !in h.Keys;
  }
}
