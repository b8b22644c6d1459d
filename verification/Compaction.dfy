/** Compaction of the topologically sorted layers into phases (`_compact_phases` and its two placers). */
module Compaction {
  import opened Tasks

  // ---------- where one task goes ----------

  /** A task joins an existing phase (or a new last one), or gets a new phase in front of phase `at`. */
  datatype Placement = Into(at: nat) | NewAt(at: nat) | Nowhere

  ghost predicate Fits(phases: seq<Phase>, p: Placement) {
    match p
    case Into(k) => k < |phases|
    case NewAt(k) => k <= |phases|
    case Nowhere => true
  }

  function Put(phases: seq<Phase>, p: Placement, t: Task): seq<Phase>
    requires Fits(phases, p)
  {
    match p
    case Into(k) => phases[k := phases[k] + [t]]
    case NewAt(k) => phases[..k] + [[t]] + phases[k..]
    case Nowhere => phases
  }

  /** `_deps_in_phase` is not empty and asks `t`, a regular task, to stay behind this phase. */
  predicate Blocks(phase: Phase, t: Task, deps: set<Task>) {
    AnyNet(phase) ||
    exists d :: d in phase && d in deps && (t.kind.Callback? || exists e :: e in phase && e in deps && e.kind.Callback?)
  }

  /** The highest phase below `n` that blocks `t`, or -1. */
  function LastBlocking(phases: seq<Phase>, t: Task, deps: set<Task>, n: nat): (i: int)
    requires n <= |phases|
    ensures -1 <= i < n
    ensures i >= 0 ==> Blocks(phases[i], t, deps)
    ensures forall k :: i < k < n ==> !Blocks(phases[k], t, deps)
  {
    if n == 0 then -1
    else if Blocks(phases[n - 1], t, deps) then n - 1
    else LastBlocking(phases, t, deps, n - 1)
  }

  function RegularPlacement(phases: seq<Phase>, t: Task, deps: set<Task>): (p: Placement)
    ensures Fits(phases, p) && !p.Nowhere?
  {
    var k := LastBlocking(phases, t, deps, |phases|) + 1;
    if k == |phases| then NewAt(k) else Into(k)
  }

  predicate HasDep(phase: Phase, deps: set<Task>) {
    exists d :: d in phase && d in deps
  }

  /** The highest phase below `n` that holds a dependency, or -1. */
  function LastDep(phases: seq<Phase>, deps: set<Task>, n: nat): (i: int)
    requires n <= |phases|
    ensures -1 <= i < n
    ensures i >= 0 ==> HasDep(phases[i], deps)
    ensures forall k :: i < k < n ==> !HasDep(phases[k], deps)
  {
    if n == 0 then -1
    else if HasDep(phases[n - 1], deps) then n - 1
    else LastDep(phases, deps, n - 1)
  }

  /** The dependencies met in this phase push the net task `t` to the next phase. */
  predicate Pushes(phase: Phase, t: Task, deps: set<Task>) {
    t.kind.Callback? || exists d :: d in phase && d in deps && (d.kind.Callback? || !d.net)
  }

  function NetPlacement(phases: seq<Phase>, t: Task, deps: set<Task>): (p: Placement)
    ensures Fits(phases, p)
  {
    if phases == [] then NewAt(0)
    else if deps == {} then (if AllNet(phases[0]) then Into(0) else NewAt(0))
    else
      var i := LastDep(phases, deps, |phases|);
      if i == -1 then Nowhere
      else if Pushes(phases[i], t, deps) then
        (if i + 1 < |phases| && AnyNet(phases[i + 1]) then Into(i + 1) else NewAt(i + 1))
      else Into(0)
  }

  /** Where a task goes, given its dependencies in the unreduced graph. */
  function PlacementOf(phases: seq<Phase>, g: Graph, t: Task): (p: Placement)
    requires t in g
    ensures Fits(phases, p)
  {
    if t.net then NetPlacement(phases, t, KeptOf(g, t)) else RegularPlacement(phases, t, KeptOf(g, t))
  }

  function Place(phases: seq<Phase>, g: Graph, t: Task): seq<Phase>
    requires t in g
  {
    Put(phases, PlacementOf(phases, g, t), t)
  }

  /** Compaction places the tasks one after the other. */
  function Compact(phases: seq<Phase>, g: Graph, order: seq<Task>): seq<Phase>
    requires forall t :: t in order ==> t in g
    decreases |order|
  {
    if order == [] then phases else Compact(Place(phases, g, order[0]), g, order[1..])
  }

  // ---------- the guard under which the last branch of `_place_net_task` misplaces ----------

  /**
   * A net task, no callback, whose latest placed dependencies are all net tasks and no callbacks and sit
   * past the first phase: the last branch sends it to the first phase, in front of them.
   */
  ghost predicate Misplaced(phases: seq<Phase>, g: Graph, t: Task)
    requires t in g
  {
    t.net &&
    var deps := KeptOf(g, t);
    var i := LastDep(phases, deps, |phases|);
    i > 0 && !Pushes(phases[i], t, deps)
  }

  ghost predicate Misplaces(phases: seq<Phase>, g: Graph, order: seq<Task>)
    requires forall t :: t in order ==> t in g
    decreases |order|
  {
    order != [] &&
    (Misplaced(phases, g, order[0]) || Misplaces(Place(phases, g, order[0]), g, order[1..]))
  }

  // ---------- what `Put` does to positions ----------

  /** Where phase `i` ends up. */
  function Shift(p: Placement, i: nat): nat {
    if p.NewAt? && i >= p.at then i + 1 else i
  }

  lemma PutKeeps(phases: seq<Phase>, p: Placement, t: Task, i: nat)
    requires Fits(phases, p) && i < |phases|
    ensures Shift(p, i) < |Put(phases, p, t)|
    ensures Put(phases, p, t)[Shift(p, i)] == phases[i] || Put(phases, p, t)[Shift(p, i)] == phases[i] + [t]
    ensures Put(phases, p, t)[Shift(p, i)] == phases[i] + [t] ==> p == Into(i)
  {
    if Put(phases, p, t)[Shift(p, i)] == phases[i] + [t] {
      assert |phases[i] + [t]| != |phases[i]|;
    }
  }

  /** Every occurrence after the step is the new task at its place or an old occurrence, shifted. */
  lemma PutFrom(phases: seq<Phase>, p: Placement, t: Task, j: nat, x: Task) returns (i: nat)
    requires Fits(phases, p) && !p.Nowhere?
    requires j < |Put(phases, p, t)| && x in Put(phases, p, t)[j]
    ensures (x == t && j == p.at) || (i < |phases| && x in phases[i] && j == Shift(p, i))
  {
    i := if p.NewAt? && j > p.at then j - 1 else j;
    if p.NewAt? && j == p.at {
      assert Put(phases, p, t)[j] == [t];
    } else {
      PutKeeps(phases, p, t, i);
    }
  }

  lemma PutCount(phases: seq<Phase>, p: Placement, t: Task, x: Task)
    requires Fits(phases, p) && !p.Nowhere?
    ensures Count(Put(phases, p, t), x) == Count(phases, x) + if x == t then 1 else 0
  {
    match p
    case Into(k) => CountUpdate(phases, k, phases[k] + [t], x);
    case NewAt(k) => CountInsert(phases, k, [t], x);
  }

  lemma PutPlaced(phases: seq<Phase>, p: Placement, t: Task, x: Task)
    requires Fits(phases, p) && !p.Nowhere?
    ensures Placed(Put(phases, p, t), x) <==> x == t || Placed(phases, x)
  {
    PutCount(phases, p, t, x);
    CountPlaced(phases, x);
    CountPlaced(Put(phases, p, t), x);
  }

  // ---------- the invariant of compaction ----------

  /** What keeps a regular task that is no callback from moving one phase up. */
  ghost predicate HasBlocker(before: Phase, g: Graph, t: Task) {
    AnyNet(before) || (t in g && exists b :: b in before && b in g[t] && b.kind.Callback?)
  }

  ghost predicate Blocked(phases: seq<Phase>, g: Graph) {
    forall j, t :: 1 <= j < |phases| && t in phases[j] && !t.net && !t.kind.Callback? ==>
      HasBlocker(phases[j - 1], g, t)
  }

  ghost predicate Compacted(phases: seq<Phase>, g: Graph) {
    && NonEmptyPhases(phases)
    && (forall i, t :: 0 <= i < |phases| && t in phases[i] ==> t in g)
    && Pure(phases)
    && Ordered(phases, Kept(g))
    && Blocked(phases, g)
  }

  /** `t` is new to the phases, and nothing in them depends on it. */
  ghost predicate Fresh(phases: seq<Phase>, g: Graph, t: Task) {
    && t in g
    && t !in g[t]
    && !Placed(phases, t)
    && forall i, x :: 0 <= i < |phases| && x in phases[i] && x in g ==> t !in g[x]
  }

  /** The new task goes behind each of its kept dependencies. */
  ghost predicate Behind(phases: seq<Phase>, g: Graph, p: Placement, t: Task)
    requires t in g && !p.Nowhere?
  {
    forall i, d :: 0 <= i < |phases| && d in phases[i] && d in KeptOf(g, t) ==>
      Shift(p, i) <= p.at && (Separated(d, t) ==> Shift(p, i) < p.at)
  }

  /** A new task is no dependency of itself, nor of a task placed before. */
  lemma NewIsNoDependency(phases: seq<Phase>, g: Graph, t: Task, j: nat, x: Task)
    requires Fresh(phases, g, t) && x in g && (x == t || (j < |phases| && x in phases[j]))
    ensures t !in KeptOf(g, x)
  {
  }

  lemma OldPairOrdered(phases: seq<Phase>, g: Graph, i: nat, d: Task, j: nat, x: Task)
    requires Ordered(phases, Kept(g)) && i < |phases| && j < |phases|
    requires d in phases[i] && x in phases[j] && x in g && d in KeptOf(g, x)
    ensures i <= j && (Separated(d, x) ==> i < j)
  {
    assert x in Kept(g) && d in Kept(g)[x];
  }

  lemma PutOrderedPair(phases: seq<Phase>, g: Graph, p: Placement, t: Task, i: nat, d: Task, j: nat, x: Task)
    requires Fits(phases, p) && !p.Nowhere?
    requires Ordered(phases, Kept(g)) && Fresh(phases, g, t) && Behind(phases, g, p, t)
    requires i < |Put(phases, p, t)| && j < |Put(phases, p, t)|
    requires d in Put(phases, p, t)[i] && x in Put(phases, p, t)[j] && x in g && d in KeptOf(g, x)
    ensures i <= j && (Separated(d, x) ==> i < j)
  {
    var i0 := PutFrom(phases, p, t, i, d);
    var j0 := PutFrom(phases, p, t, j, x);
    NewIsNoDependency(phases, g, t, j0, x);
    assert i0 < |phases| && d in phases[i0] && i == Shift(p, i0);
    if j0 < |phases| && x in phases[j0] {
      OldPairOrdered(phases, g, i0, d, j0, x);
    } else {
      assert x == t && j == p.at;
    }
  }

  /** If the new task fits behind its dependencies, the whole plan stays ordered. */
  lemma PutOrdered(phases: seq<Phase>, g: Graph, p: Placement, t: Task)
    requires Fits(phases, p) && !p.Nowhere?
    requires Ordered(phases, Kept(g)) && Fresh(phases, g, t) && Behind(phases, g, p, t)
    ensures Ordered(Put(phases, p, t), Kept(g))
  {
    var q := Put(phases, p, t);
    forall i, j, d, x | 0 <= i < |q| && 0 <= j < |q| && d in q[i] && x in q[j] && x in Kept(g) && d in Kept(g)[x]
      ensures i <= j && (Separated(d, x) ==> i < j)
    {
      PutOrderedPair(phases, g, p, t, i, d, j, x);
    }
  }

  /** A regular task that is no callback cannot sit two phases above the last one that blocks its dependent. */
  lemma SkippedDepsAreClose(phases: seq<Phase>, g: Graph, t: Task, i: nat, d: Task)
    requires Closed(g) && Compacted(phases, g) && t in g
    requires i < |phases| && d in phases[i] && d in g[t]
    requires i > LastBlocking(phases, t, g[t], |phases|)
    ensures i <= LastBlocking(phases, t, g[t], |phases|) + 1
    ensures !d.net && !d.kind.Callback? && !t.kind.Callback?
  {
    assert !Blocks(phases[i], t, g[t]);
    if i >= 1 {
      assert HasBlocker(phases[i - 1], g, d);
      assert Blocks(phases[i - 1], t, g[t]);
    }
  }

  lemma PlaceRegularKeeps(phases: seq<Phase>, g: Graph, t: Task)
    requires Closed(g) && Compacted(phases, g) && Fresh(phases, g, t) && !t.net
    ensures Compacted(Place(phases, g, t), g)
  {
    var p := PlacementOf(phases, g, t);
    forall i, d | 0 <= i < |phases| && d in phases[i] && d in KeptOf(g, t)
      ensures Shift(p, i) <= p.at && (Separated(d, t) ==> Shift(p, i) < p.at)
    {
      if i > LastBlocking(phases, t, g[t], |phases|) {
        SkippedDepsAreClose(phases, g, t, i, d);
      }
    }
    PutOrdered(phases, g, p, t);
    PutShape(phases, g, p, t);
  }

  /** The parts of the invariant that do not speak of dependencies on the new task. */
  lemma PutShape(phases: seq<Phase>, g: Graph, p: Placement, t: Task)
    requires Fits(phases, p) && !p.Nowhere? && t in g
    requires NonEmptyPhases(phases) && Pure(phases) && Blocked(phases, g)
    requires forall i, x :: 0 <= i < |phases| && x in phases[i] ==> x in g
    requires p.Into? ==> (if t.net then AllNet(phases[p.at]) else !AnyNet(phases[p.at]))
    requires p.NewAt? && p.at < |phases| ==> t.net
    requires !t.net && !t.kind.Callback? && p.at > 0 ==> HasBlocker(phases[p.at - 1], g, t)
    ensures NonEmptyPhases(Put(phases, p, t)) && Pure(Put(phases, p, t)) && Blocked(Put(phases, p, t), g)
    ensures forall i, x :: 0 <= i < |Put(phases, p, t)| && x in Put(phases, p, t)[i] ==> x in g
  {
    var q := Put(phases, p, t);
    forall j, x: Task | 1 <= j < |q| && x in q[j] && !x.net && !x.kind.Callback?
      ensures HasBlocker(q[j - 1], g, x)
    {
      var i := PutFrom(phases, p, t, j, x);
      if p.NewAt? && j - 1 == p.at {
        assert q[j - 1] == [t];
        if p.at == |phases| {
        } else {
          assert t in q[j - 1] && t.net;
        }
      } else if x == t && j == p.at {
        PutKeeps(phases, p, t, j - 1);
        HasBlockerGrows(phases[j - 1], q[j - 1], g, x);
      } else {
        PutKeeps(phases, p, t, i - 1);
        HasBlockerGrows(phases[i - 1], q[j - 1], g, x);
      }
    }
    forall i | 0 <= i < |q|
      ensures q[i] != [] && (AllNet(q[i]) || !AnyNet(q[i]))
      ensures forall x :: x in q[i] ==> x in g
    {
      if p.NewAt? && i == p.at {
        assert q[i] == [t];
      } else {
        PutKeeps(phases, p, t, if p.NewAt? && i > p.at then i - 1 else i);
      }
    }
  }

  lemma HasBlockerGrows(before: Phase, after: Phase, g: Graph, t: Task)
    requires HasBlocker(before, g, t)
    requires forall x :: x in before ==> x in after
    ensures HasBlocker(after, g, t)
  {
  }

  lemma PlaceNetKeeps(phases: seq<Phase>, g: Graph, t: Task)
    requires Compacted(phases, g) && Fresh(phases, g, t) && t.net
    requires !PlacementOf(phases, g, t).Nowhere? && !Misplaced(phases, g, t)
    ensures Compacted(Place(phases, g, t), g)
  {
    var p := PlacementOf(phases, g, t);
    var deps := KeptOf(g, t);
    forall i, d | 0 <= i < |phases| && d in phases[i] && d in deps
      ensures Shift(p, i) <= p.at && (Separated(d, t) ==> Shift(p, i) < p.at)
    {
      assert HasDep(phases[i], deps);
    }
    PutOrdered(phases, g, p, t);
    PutShape(phases, g, p, t);
  }

  // ---------- whole compactions ----------

  /** Each task of `order` is new and comes after all its dependencies; `done` was handled before. */
  ghost predicate Linear(done: set<Task>, order: seq<Task>, g: Graph)
    decreases |order|
  {
    order == [] ||
    (order[0] in g && order[0] !in done && g[order[0]] <= done && Linear(done + {order[0]}, order[1..], g))
  }

  /** Exactly the tasks of `done` are placed, and `done` is closed under dependencies. */
  ghost predicate Holds(phases: seq<Phase>, done: set<Task>, g: Graph) {
    && (forall x :: Placed(phases, x) <==> x in done)
    && (forall x :: x in done ==> x in g && g[x] <= done)
  }

  lemma {:induction false} LinearTasks(done: set<Task>, order: seq<Task>, g: Graph)
    requires Linear(done, order, g)
    ensures forall t :: t in order ==> t in g && t !in done
    decreases |order|
  {
    if order != [] {
      LinearTasks(done + {order[0]}, order[1..], g);
      assert order == [order[0]] + order[1..];
    }
  }

  lemma HoldsFresh(phases: seq<Phase>, done: set<Task>, g: Graph, t: Task)
    requires Holds(phases, done, g) && t in g && t !in done && g[t] <= done
    ensures Fresh(phases, g, t)
  {
    forall i, x | 0 <= i < |phases| && x in phases[i] && x in g
      ensures t !in g[x]
    {
      assert Placed(phases, x);
    }
  }

  /** A net task finds its dependencies placed, so it is never left out. */
  lemma PlacedSomewhere(phases: seq<Phase>, done: set<Task>, g: Graph, t: Task)
    requires Holds(phases, done, g) && t in g && g[t] <= done
    ensures !PlacementOf(phases, g, t).Nowhere?
  {
    var deps := KeptOf(g, t);
    if deps != {} {
      var d :| d in deps;
      assert Placed(phases, d);
      var i :| 0 <= i < |phases| && d in phases[i];
      assert HasDep(phases[i], deps);
    }
  }

  lemma PlaceHolds(phases: seq<Phase>, done: set<Task>, g: Graph, t: Task)
    requires Holds(phases, done, g) && t in g && t !in done && g[t] <= done
    ensures Holds(Place(phases, g, t), done + {t}, g)
    ensures forall x :: Count(Place(phases, g, t), x) == Count(phases, x) + if x == t then 1 else 0
  {
    PlacedSomewhere(phases, done, g, t);
    var p := PlacementOf(phases, g, t);
    forall x
      ensures Count(Put(phases, p, t), x) == Count(phases, x) + if x == t then 1 else 0
    {
      PutCount(phases, p, t, x);
    }
    forall x
      ensures Placed(Put(phases, p, t), x) <==> x in done + {t}
    {
      PutPlaced(phases, p, t, x);
    }
  }

  /** Every task is placed exactly once, whatever the dependencies between net tasks are. */
  lemma {:induction false} CompactConserves(phases: seq<Phase>, done: set<Task>, order: seq<Task>, g: Graph, x: Task)
    requires Holds(phases, done, g) && Linear(done, order, g)
    requires forall t :: t in order ==> t in g
    ensures Count(Compact(phases, g, order), x) == Count(phases, x) + multiset(order)[x]
    decreases |order|
  {
    if order != [] {
      PlaceHolds(phases, done, g, order[0]);
      CompactConserves(Place(phases, g, order[0]), done + {order[0]}, order[1..], g, x);
      assert order == [order[0]] + order[1..];
    }
  }

  lemma {:induction false} CompactKeeps(phases: seq<Phase>, done: set<Task>, order: seq<Task>, g: Graph)
    requires Closed(g) && Compacted(phases, g) && Holds(phases, done, g) && Linear(done, order, g)
    requires forall t :: t in order ==> t in g
    requires !Misplaces(phases, g, order)
    ensures Compacted(Compact(phases, g, order), g)
    decreases |order|
  {
    if order != [] {
      var t := order[0];
      HoldsFresh(phases, done, g, t);
      PlacedSomewhere(phases, done, g, t);
      if t.net {
        PlaceNetKeeps(phases, g, t);
      } else {
        PlaceRegularKeeps(phases, g, t);
      }
      PlaceHolds(phases, done, g, t);
      CompactKeeps(Place(phases, g, t), done + {t}, order[1..], g);
    }
  }

  /** Some task sits in a phase before one of its dependencies. */
  ghost predicate Inverted(phases: seq<Phase>, g: Graph) {
    exists i, j, d, t :: 0 <= j < i < |phases| && d in phases[i] && t in phases[j] && t in g && d in KeptOf(g, t)
  }

  lemma InvertedStays(phases: seq<Phase>, g: Graph, p: Placement, t: Task)
    requires Fits(phases, p) && Inverted(phases, g)
    ensures Inverted(Put(phases, p, t), g)
  {
    var i, j, d, x :| 0 <= j < i < |phases| && d in phases[i] && x in phases[j] && x in g && d in KeptOf(g, x);
    PutKeeps(phases, p, t, i);
    PutKeeps(phases, p, t, j);
    assert d in Put(phases, p, t)[Shift(p, i)] && x in Put(phases, p, t)[Shift(p, j)];
  }

  lemma {:induction false} InvertedToTheEnd(phases: seq<Phase>, g: Graph, order: seq<Task>)
    requires forall t :: t in order ==> t in g
    requires Inverted(phases, g)
    ensures Inverted(Compact(phases, g, order), g)
    decreases |order|
  {
    if order != [] {
      InvertedStays(phases, g, PlacementOf(phases, g, order[0]), order[0]);
      InvertedToTheEnd(Place(phases, g, order[0]), g, order[1..]);
    }
  }

  lemma MisplacedInverts(phases: seq<Phase>, g: Graph, t: Task)
    requires t in g && Misplaced(phases, g, t)
    ensures Inverted(Place(phases, g, t), g)
  {
    var deps := KeptOf(g, t);
    var i := LastDep(phases, deps, |phases|);
    var d :| d in phases[i] && d in deps;
    var q := Place(phases, g, t);
    assert q == phases[0 := phases[0] + [t]];
    assert t in q[0] && d in q[i];
  }

  lemma {:induction false} MisplacesInverts(phases: seq<Phase>, g: Graph, order: seq<Task>)
    requires forall t :: t in order ==> t in g
    requires Misplaces(phases, g, order)
    ensures Inverted(Compact(phases, g, order), g)
    decreases |order|
  {
    var q := Place(phases, g, order[0]);
    if Misplaced(phases, g, order[0]) {
      MisplacedInverts(phases, g, order[0]);
      InvertedToTheEnd(q, g, order[1..]);
    } else {
      MisplacesInverts(q, g, order[1..]);
    }
  }

  lemma InvertedIsNotOrdered(phases: seq<Phase>, g: Graph)
    requires Inverted(phases, g)
    ensures !Ordered(phases, Kept(g))
  {
    var i, j, d, t :| 0 <= j < i < |phases| && d in phases[i] && t in phases[j] && t in g && d in KeptOf(g, t);
    assert d in Kept(g)[t];
  }

  /**
   * Compaction respects order exactly when no net task meets the guard that sends it past its
   * dependencies to the first phase; then no phase mixes net tasks with others either.
   */
  lemma CompactionOrder(g: Graph, order: seq<Task>)
    requires Closed(g) && Linear({}, order, g)
    requires forall t :: t in order ==> t in g
    ensures Ordered(Compact([], g, order), Kept(g)) <==> !Misplaces([], g, order)
    ensures !Misplaces([], g, order) ==> Pure(Compact([], g, order)) && NonEmptyPhases(Compact([], g, order))
    ensures forall x :: Count(Compact([], g, order), x) == multiset(order)[x]
  {
    forall x
      ensures Count(Compact([], g, order), x) == multiset(order)[x]
    {
      CompactConserves([], {}, order, g, x);
    }
    if Misplaces([], g, order) {
      MisplacesInverts([], g, order);
      InvertedIsNotOrdered(Compact([], g, order), g);
    } else {
      CompactKeeps([], {}, order, g);
    }
  }

  // ---------- when phases stay pure ----------

  /** A net task that the last branch of `_place_net_task` sends to a first phase with a task that is no net task. */
  ghost predicate Mixing(phases: seq<Phase>, g: Graph, t: Task)
    requires t in g
  {
    t.net &&
    var deps := KeptOf(g, t);
    var i := LastDep(phases, deps, |phases|);
    i >= 0 && !Pushes(phases[i], t, deps) && !AllNet(phases[0])
  }

  ghost predicate Mixes(phases: seq<Phase>, g: Graph, order: seq<Task>)
    requires forall t :: t in order ==> t in g
    decreases |order|
  {
    order != [] && (Mixing(phases, g, order[0]) || Mixes(Place(phases, g, order[0]), g, order[1..]))
  }

  /** Adding a task to a phase keeps it pure if the task is like the others. */
  lemma JoinedPurity(phase: Phase, t: Task)
    ensures AllNet(phase + [t]) <==> AllNet(phase) && t.net
    ensures AnyNet(phase + [t]) <==> AnyNet(phase) || t.net
  {
    assert (phase + [t])[|phase|] == t;
    assert forall x :: x in phase ==> x in phase + [t];
  }

  lemma IntoPurity(phases: seq<Phase>, k: nat, t: Task)
    requires k < |phases| && Pure(phases)
    ensures Pure(Put(phases, Into(k), t)) <==> if t.net then AllNet(phases[k]) else !AnyNet(phases[k])
  {
    var q := Put(phases, Into(k), t);
    JoinedPurity(phases[k], t);
    assert q[k] == phases[k] + [t];
  }

  lemma NewPurity(phases: seq<Phase>, k: nat, t: Task)
    requires k <= |phases| && Pure(phases)
    ensures Pure(Put(phases, NewAt(k), t))
  {
    var q := Put(phases, NewAt(k), t);
    assert forall i :: 0 <= i < |q| ==> q[i] == if i < k then phases[i] else if i == k then [t] else phases[i - 1];
  }

  /** One placement keeps the phases pure exactly if it does not mix the first phase. */
  lemma PlacePurity(phases: seq<Phase>, g: Graph, t: Task)
    requires Pure(phases) && t in g
    ensures Pure(Place(phases, g, t)) <==> !Mixing(phases, g, t)
  {
    var p := PlacementOf(phases, g, t);
    if p.Into? {
      IntoPurity(phases, p.at, t);
    } else if p.NewAt? {
      NewPurity(phases, p.at, t);
    }
  }

  /** A mixed phase stays mixed. */
  lemma {:induction false} ImpureToTheEnd(phases: seq<Phase>, g: Graph, order: seq<Task>)
    requires !Pure(phases) && forall t :: t in order ==> t in g
    ensures !Pure(Compact(phases, g, order))
    decreases |order|
  {
    if order != [] {
      var i :| 0 <= i < |phases| && !AllNet(phases[i]) && AnyNet(phases[i]);
      var p := PlacementOf(phases, g, order[0]);
      PutKeeps(phases, p, order[0], i);
      JoinedPurity(phases[i], order[0]);
      ImpureToTheEnd(Place(phases, g, order[0]), g, order[1..]);
    }
  }

  /**
   * No phase mixes net tasks with others exactly if no net task goes through the last branch while the first phase
   * holds a task that is no net task, whatever the graph and the order are.
   */
  lemma {:induction false} CompactionPurity(phases: seq<Phase>, g: Graph, order: seq<Task>)
    requires Pure(phases) && forall t :: t in order ==> t in g
    ensures Pure(Compact(phases, g, order)) <==> !Mixes(phases, g, order)
    decreases |order|
  {
    if order != [] {
      PlacePurity(phases, g, order[0]);
      if Mixing(phases, g, order[0]) {
        ImpureToTheEnd(Place(phases, g, order[0]), g, order[1..]);
      } else {
        CompactionPurity(Place(phases, g, order[0]), g, order[1..]);
      }
    }
  }

  // ---------- no phase without need ----------

  /** What keeps a task that is no net task behind phase `before`. */
  ghost predicate KeepsRegular(before: Phase, g: Graph, t: Task) {
    AnyNet(before) ||
    (t in g && exists d, e ::
       d in before && d in g[t] && e in before && e in g[t] && (t.kind.Callback? || e.kind.Callback?))
  }

  /** Each task that is no net task, callbacks included, has a reason for not being one phase earlier. */
  ghost predicate RegularTight(phases: seq<Phase>, g: Graph) {
    forall j, t :: 1 <= j < |phases| && t in phases[j] && !t.net ==> KeepsRegular(phases[j - 1], g, t)
  }

  /** What keeps a net task behind phase `before`; dependencies on disk tasks do not. */
  ghost predicate KeepsNet(before: Phase, g: Graph, t: Task) {
    t in g && exists d :: d in before && d in g[t] && !d.disk && (t.kind.Callback? || d.kind.Callback? || !d.net)
  }

  /** Each net task past the first phase is just behind a dependency that it must be separated from. */
  ghost predicate NetTight(phases: seq<Phase>, g: Graph) {
    forall j, t :: 1 <= j < |phases| && t in phases[j] && t.net ==> KeepsNet(phases[j - 1], g, t)
  }

  /** What stands before an old phase after the step: the same as before, maybe with the new task, or the new phase. */
  lemma PutBefore(phases: seq<Phase>, p: Placement, t: Task, j: nat)
    requires Fits(phases, p) && !p.Nowhere? && j < |phases| && 1 <= Shift(p, j)
    ensures Shift(p, j) < |Put(phases, p, t)|
    ensures p == NewAt(j) ==> Put(phases, p, t)[Shift(p, j) - 1] == [t]
    ensures p != NewAt(j) ==>
      1 <= j && (Put(phases, p, t)[Shift(p, j) - 1] == phases[j - 1] ||
                 Put(phases, p, t)[Shift(p, j) - 1] == phases[j - 1] + [t])
  {
    if p != NewAt(j) {
      PutKeeps(phases, p, t, j - 1);
      assert Shift(p, j) - 1 == Shift(p, j - 1);
    }
  }

  lemma RegularPlaceReason(phases: seq<Phase>, g: Graph, t: Task)
    requires t in g && !t.net
    ensures var p := PlacementOf(phases, g, t); !p.Nowhere? && (p.at > 0 ==> KeepsRegular(phases[p.at - 1], g, t))
  {
    var p := PlacementOf(phases, g, t);
    if p.at > 0 {
      assert Blocks(phases[p.at - 1], t, g[t]);
    }
  }

  /** Only a net task opens a new phase in front of an old one. */
  lemma PlaceRegularTight(phases: seq<Phase>, g: Graph, t: Task)
    requires t in g && RegularTight(phases, g)
    ensures RegularTight(Place(phases, g, t), g)
  {
    var p, q := PlacementOf(phases, g, t), Place(phases, g, t);
    if !p.Nowhere? {
      forall j, x: Task | 1 <= j < |q| && x in q[j] && !x.net
        ensures KeepsRegular(q[j - 1], g, x)
      {
        var i := PutFrom(phases, p, t, j, x);
        if x == t && j == p.at {
          RegularPlaceReason(phases, g, t);
          PutFront(phases, p, t);
        } else {
          PutBefore(phases, p, t, i);
          assert p == NewAt(i) ==> t.net && q[j - 1] == [t] && q[j - 1][0] == t;
        }
      }
    }
  }

  /** The phases in front of the new task's phase are the old ones. */
  lemma PutFront(phases: seq<Phase>, p: Placement, t: Task)
    requires Fits(phases, p) && !p.Nowhere? && p.at > 0
    ensures Put(phases, p, t)[p.at - 1] == phases[p.at - 1]
  {
  }

  lemma {:induction false} CompactRegularTight(phases: seq<Phase>, g: Graph, order: seq<Task>)
    requires RegularTight(phases, g) && forall t :: t in order ==> t in g
    ensures RegularTight(Compact(phases, g, order), g)
    decreases |order|
  {
    if order != [] {
      PlaceRegularTight(phases, g, order[0]);
      CompactRegularTight(Place(phases, g, order[0]), g, order[1..]);
    }
  }

  /** A net task goes just behind a dependency that pushes it, or to the first phase. */
  lemma NetPlaceReason(phases: seq<Phase>, g: Graph, t: Task)
    requires t in g && t.net && !PlacementOf(phases, g, t).Nowhere? && Pure(phases)
    ensures var p := PlacementOf(phases, g, t);
      && (p.at > 0 ==> KeepsNet(phases[p.at - 1], g, t))
      && (p.NewAt? && p.at < |phases| ==> !AnyNet(phases[p.at]))
  {
    var p, deps := PlacementOf(phases, g, t), KeptOf(g, t);
    if p.at > 0 {
      var i := LastDep(phases, deps, |phases|);
      assert i == p.at - 1 && HasDep(phases[i], deps) && Pushes(phases[i], t, deps);
    } else if p.NewAt? && phases != [] {
      assert !AllNet(phases[0]);
    }
  }

  /** From pure phases each placement keeps net tasks just behind what they must be separated from. */
  lemma PlaceNetTight(phases: seq<Phase>, g: Graph, t: Task)
    requires t in g && Pure(phases) && NetTight(phases, g)
    ensures NetTight(Place(phases, g, t), g)
  {
    var p, q := PlacementOf(phases, g, t), Place(phases, g, t);
    if !p.Nowhere? {
      forall j, x: Task | 1 <= j < |q| && x in q[j] && x.net
        ensures KeepsNet(q[j - 1], g, x)
      {
        var i := PutFrom(phases, p, t, j, x);
        if t.net {
          NetPlaceReason(phases, g, t);
        }
        if x == t && j == p.at {
          PutFront(phases, p, t);
        } else {
          PutBefore(phases, p, t, i);
          assert p != NewAt(i);
        }
      }
    }
  }

  /** As long as no net task is put beside others, the compacted phases are tight for net tasks too. */
  lemma {:induction false} CompactNetTight(phases: seq<Phase>, g: Graph, order: seq<Task>)
    requires Pure(phases) && NetTight(phases, g) && forall t :: t in order ==> t in g
    requires !Mixes(phases, g, order)
    ensures NetTight(Compact(phases, g, order), g)
    decreases |order|
  {
    if order != [] {
      PlacePurity(phases, g, order[0]);
      PlaceNetTight(phases, g, order[0]);
      CompactNetTight(Place(phases, g, order[0]), g, order[1..]);
    }
  }

  /**
   * Compaction opens no phase without need: a task past the first phase is just behind something that it may not share
   * a phase with, or, for a task that is no net task, just behind net tasks. For net tasks this asks that none is put
   * beside others.
   */
  lemma CompactionIsTight(g: Graph, order: seq<Task>)
    requires forall t :: t in order ==> t in g
    ensures RegularTight(Compact([], g, order), g)
    ensures !Mixes([], g, order) ==> NetTight(Compact([], g, order), g)
  {
    CompactRegularTight([], g, order);
    if !Mixes([], g, order) {
      CompactNetTight([], g, order);
    }
  }

  /** A net task that depends on disk tasks only, if on any, goes to the first phase. */
  lemma NetTaskIsFirst(phases: seq<Phase>, g: Graph, t: Task)
    requires t in g && t.net && forall d :: d in g[t] ==> d.disk
    ensures Place(phases, g, t) != [] && t in Place(phases, g, t)[0]
    ensures |Place(phases, g, t)| == |phases| + if phases != [] && AllNet(phases[0]) then 0 else 1
  {
    assert KeptOf(g, t) == {};
    assert Place(phases, g, t)[0] == if phases != [] && AllNet(phases[0]) then phases[0] + [t] else [t];
  }

  // ---------- a condition on the graph alone ----------

  /** A net task that is no callback depends on another one only if that one keeps no dependency. */
  ghost predicate NoNetChain(g: Graph) {
    forall t, d :: t in g && t.net && !t.kind.Callback? && d in KeptOf(g, t) && d.net && !d.kind.Callback? && d in g
      ==> KeptOf(g, d) == {}
  }

  /** Net tasks that are no callbacks and keep no dependency sit in the first phase. */
  ghost predicate RootsFirst(phases: seq<Phase>, g: Graph) {
    forall i, d :: 0 <= i < |phases| && d in phases[i] && d in g && d.net && !d.kind.Callback? && KeptOf(g, d) == {} ==>
      i == 0
  }

  lemma NoNetChainPlace(phases: seq<Phase>, g: Graph, t: Task)
    requires Compacted(phases, g) && Fresh(phases, g, t) && !PlacementOf(phases, g, t).Nowhere?
    requires NoNetChain(g) && RootsFirst(phases, g)
    ensures !Misplaced(phases, g, t)
    ensures RootsFirst(Place(phases, g, t), g)
  {
    var p := PlacementOf(phases, g, t);
    var q := Place(phases, g, t);
    forall j, d | 0 <= j < |q| && d in q[j] && d in g && d.net && !d.kind.Callback? && KeptOf(g, d) == {}
      ensures j == 0
    {
      var i := PutFrom(phases, p, t, j, d);
      if d == t {
        assert p.at == 0;
      } else {
        assert i == 0 && AnyNet(phases[0]);
      }
    }
  }

  lemma {:induction false} NoNetChainFrom(phases: seq<Phase>, done: set<Task>, order: seq<Task>, g: Graph)
    requires Closed(g) && Compacted(phases, g) && Holds(phases, done, g) && Linear(done, order, g)
    requires forall t :: t in order ==> t in g
    requires NoNetChain(g) && RootsFirst(phases, g)
    ensures !Misplaces(phases, g, order)
    decreases |order|
  {
    if order != [] {
      var t := order[0];
      HoldsFresh(phases, done, g, t);
      PlacedSomewhere(phases, done, g, t);
      NoNetChainPlace(phases, g, t);
      if t.net {
        PlaceNetKeeps(phases, g, t);
      } else {
        PlaceRegularKeeps(phases, g, t);
      }
      PlaceHolds(phases, done, g, t);
      NoNetChainFrom(Place(phases, g, t), done + {t}, order[1..], g);
    }
  }

  /** Without chains of net tasks in the graph, the failing guard is never met. */
  lemma NoNetChainIsEnough(g: Graph, order: seq<Task>)
    requires Closed(g) && Linear({}, order, g)
    requires forall t :: t in order ==> t in g
    requires NoNetChain(g)
    ensures !Misplaces([], g, order)
  {
    NoNetChainFrom([], {}, order, g);
  }

  /** Three tasks in a chain, the last two net tasks. */
  ghost predicate Chain(c: Task, d: Task, t: Task, g: Graph) {
    && c != d && c != t && d != t && !c.net && d.net && t.net
    && c.kind.Config? && d.kind.Config? && t.kind.Config?
    && !c.disk && !d.disk
    && g == map[c := {}, d := {c}, t := {c, d}]
  }

  lemma ChainStart(c: Task, d: Task, t: Task, g: Graph)
    requires Chain(c, d, t, g)
    ensures Place([], g, c) == [[c]] && Place([[c]], g, d) == [[c], [d]]
  {
    assert KeptOf(g, d) == {c};
    assert Place([[c]], g, d) == [[c], [d]];
  }

  lemma ChainEnd(c: Task, d: Task, t: Task, g: Graph)
    requires Chain(c, d, t, g)
    ensures Place([[c], [d]], g, t) == [[c, t], [d]]
  {
    var phases := [[c], [d]];
    assert KeptOf(g, t) == {c, d};
    assert phases[1] == [d] && phases[1][0] == d && HasDep(phases[1], {c, d});
    assert LastDep(phases, {c, d}, 2) == 1 && !Pushes([d], t, {c, d});
    assert PlacementOf(phases, g, t) == Into(0);
    assert phases[0] + [t] == [c, t];
  }

  lemma ChainCompacts(c: Task, d: Task, t: Task, g: Graph)
    requires Chain(c, d, t, g)
    ensures Compact([], g, [c, d, t]) == [[c, t], [d]]
  {
    ChainStart(c, d, t, g);
    ChainEnd(c, d, t, g);
    assert [c, d, t][1..] == [d, t] && [d, t][1..] == [t] && [t][1..] == [];
    assert Compact([[c], [d]], g, [t]) == Compact([[c, t], [d]], g, []);
    assert Compact([[c]], g, [d, t]) == Compact([[c], [d]], g, [t]);
  }

  lemma ChainIsLinear(c: Task, d: Task, t: Task, g: Graph)
    requires Chain(c, d, t, g)
    ensures Closed(g) && Linear({}, [c, d, t], g)
  {
    assert [c, d, t][1..] == [d, t] && [d, t][1..] == [t] && [t][1..] == [];
    assert Linear({c} + {d} + {t}, [], g);
    assert Linear({c} + {d}, [t], g);
    assert {} + {c} == {c} && Linear({c}, [d, t], g);
  }

  /** The last task of the chain lands in front of its dependency, beside a task that is no net task. */
  lemma NetChainIsMisplaced() returns (g: Graph, order: seq<Task>)
    ensures Closed(g) && Linear({}, order, g) && (forall t :: t in order ==> t in g)
    ensures !Ordered(Compact([], g, order), Kept(g)) && !Pure(Compact([], g, order))
  {
    var c := Task(0, Config, false, false, "/c", false, "file");
    var d, t := c.(id := 1, net := true), c.(id := 2, net := true);
    g, order := map[c := {}, d := {c}, t := {c, d}], [c, d, t];
    ChainIsLinear(c, d, t, g);
    ChainCompacts(c, d, t, g);
    var q := [[c, t], [d]];
    assert KeptOf(g, t) == {c, d} && Kept(g)[t] == {c, d};
    assert q[0][0] == c && q[0][1] == t && q[1][0] == d;
    assert d in q[1] && t in q[0] && d in Kept(g)[t];
    assert !AllNet(q[0]) && AnyNet(q[0]);
  }
}
