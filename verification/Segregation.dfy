/** Splitting the phases that mix Puppet tasks and callbacks (`_segregate_callback_tasks`). */
module Segregation {
  import opened Tasks

  predicate Mixed(phase: Phase) {
    (exists t :: t in phase && t.kind.Config?) && exists t :: t in phase && t.kind.Callback?
  }

  function CallbacksOf(phase: Phase): Phase {
    Select((t: Task) => t.kind.Callback?, phase)
  }

  /** What is moved out of a mixed phase. */
  function OthersOf(phase: Phase): Phase {
    Select((t: Task) => !t.kind.Callback?, phase)
  }

  /** Some task of `next` depends on one of the moved tasks. */
  predicate CommonDeps(next: Phase, moved: Phase, g: Graph) {
    exists t, d :: t in next && t in g && d in g[t] && d in moved
  }

  predicate Reusable(next: Phase, moved: Phase, g: Graph) {
    (forall t :: t in next ==> t.kind.Config?) && !CommonDeps(next, moved, g) && (AnyNet(moved) <==> AnyNet(next))
  }

  /** The phase after `k` takes the moved tasks. */
  predicate Merges(phases: seq<Phase>, k: nat, g: Graph)
    requires k < |phases|
  {
    k + 1 < |phases| && Reusable(phases[k + 1], OthersOf(phases[k]), g)
  }

  /** One mixed phase is split: its callbacks stay, the rest joins the next phase or forms a new one. */
  function Split(phases: seq<Phase>, k: nat, g: Graph): seq<Phase>
    requires k < |phases|
  {
    var p := phases[k];
    if Merges(phases, k, g) then phases[k := CallbacksOf(p)][k + 1 := phases[k + 1] + OthersOf(p)]
    else phases[..k] + [CallbacksOf(p), OthersOf(p)] + phases[k + 1..]
  }

  function MixedCount(phases: seq<Phase>): nat {
    if phases == [] then 0 else (if Mixed(phases[0]) then 1 else 0) + MixedCount(phases[1..])
  }

  lemma MergedIsNotMixed(next: Phase, moved: Phase)
    requires forall t :: t in next ==> t.kind.Config?
    requires forall t :: t in moved ==> !t.kind.Callback?
    ensures !Mixed(next + moved) && !Mixed(moved) && !Mixed(next)
  {
  }

  /** The loop over the list it inserts into ends: what is left plus its mixed phases shrinks. */
  lemma SplitMeasure(phases: seq<Phase>, k: nat, g: Graph)
    requires k < |phases| && Mixed(phases[k])
    ensures k + 1 <= |Split(phases, k, g)|
    ensures |Split(phases, k, g)| - (k + 1) + MixedCount(Split(phases, k, g)[k + 1..])
      < |phases| - k + MixedCount(phases[k..])
  {
    var q := Split(phases, k, g);
    var p := phases[k];
    assert phases[k..] == [p] + phases[k + 1..];
    if Merges(phases, k, g) {
      MergedIsNotMixed(phases[k + 1], OthersOf(p));
      assert phases[k + 1..] == [phases[k + 1]] + phases[k + 2..];
      assert q[k + 1..] == [phases[k + 1] + OthersOf(p)] + phases[k + 2..];
    } else {
      MergedIsNotMixed([], OthersOf(p));
      assert q[k + 1..] == [OthersOf(p)] + phases[k + 1..];
    }
  }

  /** The list as the loop leaves it, from index `k` on. */
  function Segregate(phases: seq<Phase>, g: Graph, k: nat): seq<Phase>
    requires k <= |phases|
    decreases |phases| - k + MixedCount(phases[k..])
  {
    if k == |phases| then phases
    else if Mixed(phases[k]) then
      SplitMeasure(phases, k, g);
      Segregate(Split(phases, k, g), g, k + 1)
    else
      assert phases[k..][1..] == phases[k + 1..];
      Segregate(phases, g, k + 1)
  }

  /** The next phase holds Puppet tasks only, none of which depends on what is moved, and net tasks as what is moved. */
  ghost predicate TakesOthers(phases: seq<Phase>, k: nat, g: Graph)
    requires k < |phases|
  {
    && k + 1 < |phases| && (forall t :: t in phases[k + 1] ==> t.kind.Config?)
    && (forall t, d :: t in phases[k + 1] && t in g && d in g[t] && d in phases[k] ==> d.kind.Callback?)
    && ((exists t :: t in phases[k] && t.net && !t.kind.Callback?) <==> exists t :: t in phases[k + 1] && t.net)
  }

  lemma MergesIs(phases: seq<Phase>, k: nat, g: Graph)
    requires k < |phases|
    ensures Merges(phases, k, g) <==> TakesOthers(phases, k, g)
  {
    var others := OthersOf(phases[k]);
    assert AnyNet(others) <==> exists t :: t in phases[k] && t.net && !t.kind.Callback?;
    if k + 1 < |phases| {
      assert CommonDeps(phases[k + 1], others, g) <==>
        exists t, d :: t in phases[k + 1] && t in g && d in g[t] && d in phases[k] && !d.kind.Callback?;
    }
  }

  /** Where the rest of a split phase goes: to the next phase if that takes it, else to a phase of its own between. */
  lemma SplitIs(phases: seq<Phase>, k: nat, g: Graph)
    requires k < |phases|
    ensures var q := Split(phases, k, g);
      k + 1 < |q| && q[..k] == phases[..k] && (forall t :: t in q[k] <==> t in phases[k] && t.kind.Callback?) &&
      if TakesOthers(phases, k, g) then
        |q| == |phases| && q[k + 2..] == phases[k + 2..] &&
        forall t :: t in q[k + 1] <==> (t in phases[k] && !t.kind.Callback?) || t in phases[k + 1]
      else
        |q| == |phases| + 1 && q[k + 2..] == phases[k + 1..] &&
        forall t :: t in q[k + 1] <==> t in phases[k] && !t.kind.Callback?
  {
    var q, others := Split(phases, k, g), OthersOf(phases[k]);
    MergesIs(phases, k, g);
    if Merges(phases, k, g) {
      assert q[k + 1] == phases[k + 1] + others;
    } else {
      assert q[k + 1] == others;
    }
  }

  // ---------- positions ----------

  /** Where an occurrence of `x` in phase `i` moves when phase `k` is split. */
  ghost function Move(phases: seq<Phase>, k: nat, g: Graph, i: nat, x: Task): nat
    requires k < |phases|
  {
    if i < k then i
    else if i == k then (if x.kind.Callback? then k else k + 1)
    else if Merges(phases, k, g) then i
    else i + 1
  }

  lemma SplitFrom(phases: seq<Phase>, k: nat, g: Graph, j: nat, x: Task) returns (i: nat)
    requires k < |phases| && j < |Split(phases, k, g)| && x in Split(phases, k, g)[j]
    ensures i < |phases| && x in phases[i] && j == Move(phases, k, g, i, x)
  {
    if Merges(phases, k, g) {
      i := if j == k + 1 && x !in phases[j] then k else j;
    } else {
      i := if j <= k then j else j - 1;
    }
  }

  /** A dependency in an earlier phase than its dependent stays in an earlier phase. */
  lemma MoveKeepsPrecedence(phases: seq<Phase>, k: nat, g: Graph, i: nat, d: Task, j: nat, t: Task)
    requires k < |phases| && i < j < |phases| && d in phases[i] && t in phases[j] && t in g && d in g[t]
    ensures Move(phases, k, g, i, d) < Move(phases, k, g, j, t)
  {
    if i == k && j == k + 1 && Merges(phases, k, g) {
      assert d in OthersOf(phases[k]) ==> CommonDeps(phases[k + 1], OthersOf(phases[k]), g);
    }
  }

  lemma SplitKeepsPrecedence(phases: seq<Phase>, k: nat, g: Graph, d: Task, t: Task)
    requires k < |phases| && t in g && d in g[t] && Precedes(phases, d, t)
    ensures Precedes(Split(phases, k, g), d, t)
  {
    var q := Split(phases, k, g);
    forall i, j | 0 <= i < |q| && 0 <= j < |q| && d in q[i] && t in q[j]
      ensures i < j
    {
      var i0 := SplitFrom(phases, k, g, i, d);
      var j0 := SplitFrom(phases, k, g, j, t);
      MoveKeepsPrecedence(phases, k, g, i0, d, j0, t);
    }
  }

  lemma MoveKeepsOrder(phases: seq<Phase>, k: nat, g: Graph, i: nat, d: Task, j: nat, t: Task)
    requires k < |phases| && i <= j < |phases| && d in phases[i] && t in phases[j] && t in g && d in g[t]
    requires Separated(d, t) ==> i < j
    ensures Move(phases, k, g, i, d) <= Move(phases, k, g, j, t)
    ensures Separated(d, t) ==> Move(phases, k, g, i, d) < Move(phases, k, g, j, t)
  {
    if i < j {
      MoveKeepsPrecedence(phases, k, g, i, d, j, t);
    }
  }

  lemma OrderedPair(phases: seq<Phase>, g: Graph, i: nat, d: Task, j: nat, t: Task)
    requires Ordered(phases, g) && i < |phases| && j < |phases|
    requires d in phases[i] && t in phases[j] && t in g && d in g[t]
    ensures i <= j && (Separated(d, t) ==> i < j)
  {
  }

  lemma SplitKeepsPair(phases: seq<Phase>, k: nat, g: Graph, i: nat, d: Task, j: nat, t: Task)
    requires k < |phases| && Ordered(phases, g)
    requires i < |Split(phases, k, g)| && j < |Split(phases, k, g)|
    requires d in Split(phases, k, g)[i] && t in Split(phases, k, g)[j] && t in g && d in g[t]
    ensures i <= j && (Separated(d, t) ==> i < j)
  {
    var i0 := SplitFrom(phases, k, g, i, d);
    var j0 := SplitFrom(phases, k, g, j, t);
    OrderedPair(phases, g, i0, d, j0, t);
    MoveKeepsOrder(phases, k, g, i0, d, j0, t);
  }

  lemma SplitKeepsOrder(phases: seq<Phase>, k: nat, g: Graph)
    requires k < |phases| && Ordered(phases, g)
    ensures Ordered(Split(phases, k, g), g)
  {
    SplitIsOrdered(phases, k, g, Split(phases, k, g));
  }

  lemma SplitIsOrdered(phases: seq<Phase>, k: nat, g: Graph, q: seq<Phase>)
    requires k < |phases| && Ordered(phases, g) && q == Split(phases, k, g)
    ensures Ordered(q, g)
  {
    forall i, j, d, t | 0 <= i < |q| && 0 <= j < |q| && d in q[i] && t in q[j] && t in g && d in g[t]
      ensures i <= j && (Separated(d, t) ==> i < j)
    {
      SplitKeepsPair(phases, k, g, i, d, j, t);
    }
  }

  lemma {:induction false} SelectionsMakePhase(p: Phase, t: Task)
    ensures multiset(CallbacksOf(p))[t] + multiset(OthersOf(p))[t] == multiset(p)[t]
  {
    if p != [] {
      var q, x := p[..|p| - 1], p[|p| - 1];
      SelectionsMakePhase(q, t);
      assert p == q + [x];
      assert CallbacksOf(p) == if x.kind.Callback? then CallbacksOf(q) + [x] else CallbacksOf(q);
      assert OthersOf(p) == if x.kind.Callback? then OthersOf(q) else OthersOf(q) + [x];
    }
  }

  lemma MergedCount(rest: seq<Phase>, k: nat, moved: Phase, t: Task)
    requires k < |rest|
    ensures Count(rest[k := rest[k] + moved], t) == Count(rest, t) + multiset(moved)[t]
  {
    CountUpdate(rest, k, rest[k] + moved, t);
  }

  lemma InsertedCount(rest: seq<Phase>, k: nat, moved: Phase, t: Task)
    requires k < |rest|
    ensures Count(rest[..k] + [rest[k], moved] + rest[k + 1..], t) == Count(rest, t) + multiset(moved)[t]
  {
    CountInsert(rest, k + 1, moved, t);
    assert rest[..k] + [rest[k], moved] + rest[k + 1..] == rest[..k + 1] + [moved] + rest[k + 1..];
  }

  lemma SplitCount(phases: seq<Phase>, k: nat, g: Graph, t: Task)
    requires k < |phases|
    ensures Count(Split(phases, k, g), t) == Count(phases, t)
  {
    var p := phases[k];
    var rest := phases[k := CallbacksOf(p)];
    SelectionsMakePhase(p, t);
    CountUpdate(phases, k, CallbacksOf(p), t);
    if Merges(phases, k, g) {
      MergedCount(rest, k + 1, OthersOf(p), t);
    } else {
      InsertedCount(rest, k, OthersOf(p), t);
      assert rest[..k] == phases[..k] && rest[k + 1..] == phases[k + 1..];
    }
  }

  /** Segregation neither loses nor copies a task, whatever the phases are. */
  lemma {:induction false} SegregateCounts(phases: seq<Phase>, g: Graph, k: nat, t: Task)
    requires k <= |phases|
    ensures Count(Segregate(phases, g, k), t) == Count(phases, t)
    decreases |phases| - k + MixedCount(phases[k..])
  {
    if k < |phases| {
      if Mixed(phases[k]) {
        SplitMeasure(phases, k, g);
        SplitCount(phases, k, g, t);
        SegregateCounts(Split(phases, k, g), g, k + 1, t);
      } else {
        assert phases[k..][1..] == phases[k + 1..];
        SegregateCounts(phases, g, k + 1, t);
      }
    }
  }

  ghost predicate Whole(phase: Phase) {
    phase != [] && (AllNet(phase) || !AnyNet(phase))
  }

  lemma MixedParts(phase: Phase)
    requires Mixed(phase) && Whole(phase)
    ensures Whole(CallbacksOf(phase)) && Whole(OthersOf(phase))
    ensures !Mixed(CallbacksOf(phase))
  {
    var x :| x in phase && x.kind.Config?;
    var y :| y in phase && y.kind.Callback?;
    assert x in OthersOf(phase) && y in CallbacksOf(phase);
  }

  lemma MergedWhole(next: Phase, moved: Phase)
    requires Whole(next) && Whole(moved) && (AnyNet(moved) <==> AnyNet(next))
    ensures Whole(next + moved)
  {
  }

  lemma SplitShape(phases: seq<Phase>, k: nat, g: Graph)
    requires k < |phases| && Mixed(phases[k])
    requires forall i :: 0 <= i < |phases| ==> Whole(phases[i])
    ensures forall i :: 0 <= i < |Split(phases, k, g)| ==> Whole(Split(phases, k, g)[i])
    ensures forall i :: 0 <= i < k ==> Split(phases, k, g)[i] == phases[i]
    ensures !Mixed(Split(phases, k, g)[k])
  {
    var q := Split(phases, k, g);
    MixedParts(phases[k]);
    if Merges(phases, k, g) {
      MergedWhole(phases[k + 1], OthersOf(phases[k]));
      assert forall i :: 0 <= i < |q| && i != k && i != k + 1 ==> q[i] == phases[i];
    } else {
      assert forall i :: k + 1 < i < |q| ==> q[i] == phases[i - 1];
    }
  }

  // ---------- the whole pass ----------

  ghost predicate Unmixed(phases: seq<Phase>, n: int) {
    forall i :: 0 <= i < n && i < |phases| ==> !Mixed(phases[i])
  }

  lemma MixedPartsAreUnmixed(phase: Phase)
    ensures !Mixed(CallbacksOf(phase)) && !Mixed(OthersOf(phase))
  {
  }

  /** One split settles the phases up to the one it splits. */
  lemma SplitUnmixes(phases: seq<Phase>, k: nat, g: Graph)
    requires k < |phases| && Unmixed(phases, k)
    ensures Unmixed(Split(phases, k, g), k + 1)
  {
    MixedPartsAreUnmixed(phases[k]);
    assert forall i :: 0 <= i < k ==> Split(phases, k, g)[i] == phases[i];
    assert Split(phases, k, g)[k] == CallbacksOf(phases[k]);
  }

  /** Whatever the phases are, segregation leaves none mixed and keeps every strict precedence between dependent tasks.
     */
  lemma {:induction false} SegregationUnmixes(phases: seq<Phase>, g: Graph, k: nat)
    requires k <= |phases| && Unmixed(phases, k)
    ensures Unmixed(Segregate(phases, g, k), |Segregate(phases, g, k)|)
    ensures forall d, t :: t in g && d in g[t] && Precedes(phases, d, t) ==> Precedes(Segregate(phases, g, k), d, t)
    decreases |phases| - k + MixedCount(phases[k..])
  {
    if k == |phases| {
    } else if Mixed(phases[k]) {
      var q := Split(phases, k, g);
      SplitMeasure(phases, k, g);
      SplitUnmixes(phases, k, g);
      forall d, t | t in g && d in g[t] && Precedes(phases, d, t)
        ensures Precedes(q, d, t)
      {
        SplitKeepsPrecedence(phases, k, g, d, t);
      }
      SegregationUnmixes(q, g, k + 1);
    } else {
      assert phases[k..][1..] == phases[k + 1..];
      SegregationUnmixes(phases, g, k + 1);
    }
  }

  /** If the phases are in order and do not mix net tasks with others, that remains so, and no phase becomes empty. */
  lemma {:induction false} SegregationKeepsShape(phases: seq<Phase>, g: Graph, k: nat)
    requires k <= |phases| && Ordered(phases, g) && Pure(phases) && NonEmptyPhases(phases)
    ensures Ordered(Segregate(phases, g, k), g) && Pure(Segregate(phases, g, k)) &&
      NonEmptyPhases(Segregate(phases, g, k))
    decreases |phases| - k + MixedCount(phases[k..])
  {
    if k == |phases| {
    } else if Mixed(phases[k]) {
      var q := Split(phases, k, g);
      SplitMeasure(phases, k, g);
      assert forall i :: 0 <= i < |phases| ==> Whole(phases[i]);
      SplitShape(phases, k, g);
      assert forall i :: 0 <= i < |q| ==> Whole(q[i]);
      SplitKeepsOrder(phases, k, g);
      SegregationKeepsShape(q, g, k + 1);
    } else {
      assert phases[k..][1..] == phases[k + 1..];
      SegregationKeepsShape(phases, g, k + 1);
    }
  }

  /**
   * Segregation leaves no mixed phase, moves each task to exactly one phase, and keeps the order and every strict
   * precedence between dependent tasks; net tasks remain alone.
   */
  lemma SegregationIsSafe(phases: seq<Phase>, g: Graph)
    requires Ordered(phases, g) && Pure(phases) && NonEmptyPhases(phases)
    ensures Unmixed(Segregate(phases, g, 0), |Segregate(phases, g, 0)|)
    ensures Ordered(Segregate(phases, g, 0), g) && Pure(Segregate(phases, g, 0)) &&
      NonEmptyPhases(Segregate(phases, g, 0))
    ensures forall t :: Count(Segregate(phases, g, 0), t) == Count(phases, t)
    ensures forall d, t :: t in g && d in g[t] && Precedes(phases, d, t) ==> Precedes(Segregate(phases, g, 0), d, t)
  {
    SegregationUnmixes(phases, g, 0);
    SegregationKeepsShape(phases, g, 0);
    forall t
      ensures Count(Segregate(phases, g, 0), t) == Count(phases, t)
    {
      SegregateCounts(phases, g, 0, t);
    }
  }
}
