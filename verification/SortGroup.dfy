/** Sorting one group of tasks into phases, from its dependencies to the plan (`_sort_tasks`). */
module SortGroup {
  import opened Tasks
  import opened Graphs
  import TopSort
  import TaskGraphs
  import opened Compaction
  import opened Segregation
  import opened PhaseLists

  // ---------- from layers to a linear order ----------

  /** `done` is the union of the layers before `n`. */
  ghost predicate Before(layers: seq<seq<Task>>, n: int, done: set<Task>) {
    forall x :: x in done <==> TopSort.Below(layers, n, x)
  }

  ghost predicate DistinctTasks(s: seq<Task>) {
    forall a, b :: 0 <= a < b < |s| ==> s[a] != s[b]
  }

  lemma {:induction false} SelectDistinct(p: Task -> bool, s: seq<Task>)
    requires DistinctTasks(s)
    ensures DistinctTasks(Select(p, s))
  {
    if s != [] {
      SelectDistinct(p, s[..|s| - 1]);
    }
  }

  lemma DistinctConcat(a: seq<Task>, b: seq<Task>)
    requires DistinctTasks(a) && DistinctTasks(b) && forall t :: t in a ==> t !in b
    ensures DistinctTasks(a + b)
  {
    forall i, j | 0 <= i < j < |a + b|
      ensures (a + b)[i] != (a + b)[j]
    {
      if i < |a| <= j {
        assert a[i] in a && b[j - |a|] in b;
      }
    }
  }

  lemma ScheduleDistinct(layer: seq<Task>)
    requires DistinctTasks(layer)
    ensures DistinctTasks(Schedule(layer))
    ensures TaskSet(Schedule(layer)) == TaskSet(layer)
  {
    var n, c, r := Select(IS_NET, layer), Select(IS_CALLBACK, layer), Select(IS_REGULAR, layer);
    SelectDistinct(IS_NET, layer);
    SelectDistinct(IS_CALLBACK, layer);
    SelectDistinct(IS_REGULAR, layer);
    DistinctConcat(n, c);
    DistinctConcat(n + c, r);
  }

  /** Tasks that depend on `done` only may come next in any order. */
  lemma {:induction false} FlatLinear(done: set<Task>, s: seq<Task>, g: Graph)
    requires DistinctTasks(s) && forall t :: t in s ==> t in g && t !in done && g[t] <= done
    ensures Linear(done, s, g)
    decreases |s|
  {
    if s != [] {
      assert s[0] in s;
      forall t | t in s[1..]
        ensures t in g && t !in done + {s[0]} && g[t] <= done + {s[0]}
      {
        assert t in s;
      }
      FlatLinear(done + {s[0]}, s[1..], g);
    }
  }

  lemma {:induction false} LinearConcat(done: set<Task>, a: seq<Task>, b: seq<Task>, g: Graph)
    requires Linear(done, a, g) && Linear(done + TaskSet(a), b, g)
    ensures Linear(done, a + b, g)
    decreases |a|
  {
    if a == [] {
      assert a + b == b && done + TaskSet(a) == done;
    } else {
      assert done + {a[0]} + TaskSet(a[1..]) == done + TaskSet(a);
      LinearConcat(done + {a[0]}, a[1..], b, g);
      assert (a + b)[0] == a[0] && (a + b)[1..] == a[1..] + b;
    }
  }

  /** The tasks of one layer are new and depend on earlier layers only. */
  lemma LayerIsReady(layers: seq<seq<Task>>, g: Graph, n: nat, done: set<Task>, t: Task)
    requires n < |layers| && TopSort.Layered(g, layers) && Before(layers, n, done) && t in layers[n]
    ensures t in g && t !in done && g[t] <= done
  {
    assert TopSort.In(layers, n, t);
    forall j | 0 <= j < n
      ensures !TopSort.In(layers, j, t)
    {
    }
    assert !TopSort.Below(layers, n, t);
    forall d | d in g[t]
      ensures d in done
    {
      assert TopSort.Below(layers, n, d);
    }
  }

  lemma LayerLinear(layers: seq<seq<Task>>, g: Graph, n: nat, done: set<Task>)
    requires n < |layers| && TopSort.Layered(g, layers) && Before(layers, n, done)
    ensures Linear(done, Schedule(layers[n]), g)
  {
    ScheduleDistinct(layers[n]);
    forall t | t in Schedule(layers[n])
      ensures t in g && t !in done && g[t] <= done
    {
      assert t in TaskSet(layers[n]);
      LayerIsReady(layers, g, n, done, t);
    }
    FlatLinear(done, Schedule(layers[n]), g);
  }

  lemma AddLayerToOrder(layers: seq<seq<Task>>, g: Graph, n: nat, first: seq<Task>)
    requires n < |layers| && TopSort.Layered(g, layers)
    requires Linear({}, first, g) && Before(layers, n, TaskSet(first))
    ensures Linear({}, first + Schedule(layers[n]), g)
    ensures Before(layers, n + 1, TaskSet(first + Schedule(layers[n])))
  {
    LayerLinear(layers, g, n, TaskSet(first));
    assert {} + TaskSet(first) == TaskSet(first);
    LinearConcat({}, first, Schedule(layers[n]), g);
    BeforeGrows(layers, n, TaskSet(first));
    ScheduleDistinct(layers[n]);
    assert TaskSet(first + Schedule(layers[n])) == TaskSet(first) + TaskSet(layers[n]);
  }

  /** Compaction handles the layers in an order that respects the dependencies. */
  lemma {:induction false} LayersLinear(layers: seq<seq<Task>>, g: Graph, n: nat)
    requires n <= |layers| && TopSort.Layered(g, layers)
    ensures Linear({}, OrderOf(layers[..n]), g)
    ensures Before(layers, n, TaskSet(OrderOf(layers[..n])))
    decreases n
  {
    if n == 0 {
      assert OrderOf(layers[..0]) == [];
      assert TaskSet([]) == {};
    } else {
      LayersLinear(layers, g, n - 1);
      AddLayerToOrder(layers, g, n - 1, OrderOf(layers[..n - 1]));
      OrderSnoc(layers, n - 1);
    }
  }

  lemma BeforeGrows(layers: seq<seq<Task>>, n: nat, done: set<Task>)
    requires n < |layers| && Before(layers, n, done)
    ensures Before(layers, n + 1, done + TaskSet(layers[n]))
  {
    forall x
      ensures x in done || x in layers[n] <==> TopSort.Below(layers, n + 1, x)
    {
      if x in layers[n] {
        assert TopSort.In(layers, n, x);
      }
      if x in done {
        assert TopSort.Below(layers, n, x);
        var j :| 0 <= j < n && TopSort.In(layers, j, x);
      }
    }
  }

  // ---------- the graph that is sorted ----------

  /** `g` holds, for each task, the other tasks that it reaches in `combined`. */
  ghost predicate ClosureOf(g: Graph, combined: Graph) {
    && g.Keys == combined.Keys
    && forall t, d :: t in g ==> (d in g[t] <==> d != t && Reaches(combined, t, d))
  }

  /** Two different tasks depend on each other. */
  ghost predicate Entangled(combined: Graph) {
    exists t, d :: t != d && Reaches(combined, t, d) && Reaches(combined, d, t)
  }

  lemma {:induction false} PathReaches(g: Graph, combined: Graph, p: seq<Task>)
    requires ClosureOf(g, combined) && TopSort.Path(g, p) && |p| >= 2
    ensures Reaches(combined, p[0], p[|p| - 1])
    decreases |p|
  {
    assert p[1] in g[p[0]];
    if |p| > 2 {
      PathReaches(g, combined, p[1..]);
      ReachesTrans(combined, p[0], p[1], p[|p| - 1]);
    }
  }

  lemma CyclicIsEntangled(g: Graph, combined: Graph)
    requires ClosureOf(g, combined)
    ensures TopSort.Cyclic(g) <==> Entangled(combined)
  {
    if p :| TopSort.Cycle(g, p) {
      assert p[1] in g[p[0]];
      PathReaches(g, combined, p[1..]);
    }
    if t, d :| t != d && Reaches(combined, t, d) && Reaches(combined, d, t) {
      ReachesFrom(combined, t, d);
      ReachesFrom(combined, d, t);
      assert TopSort.Cycle(g, [t, d, t]);
    }
  }

  lemma ReachesFrom(g: Graph, a: Task, b: Task)
    requires Reaches(g, a, b)
    ensures a in g
  {
    var p :| Trail(g, p) && |p| >= 2 && p[0] == a && p[|p| - 1] == b;
    assert p[1] in Next(g, p[0]);
  }

  lemma AcyclicIsClosed(g: Graph, combined: Graph)
    requires ClosureOf(g, combined) && !Entangled(combined)
    ensures Closed(g)
  {
    forall t, d, e | t in g && d in g[t] && d in g && e in g[d]
      ensures e in g[t]
    {
      ReachesTrans(combined, t, d, e);
    }
  }

  // ---------- tasks that need no second run ----------

  /** What `_remove_prev_successful_tasks` looks at; `previous` tells whether an equal task ran with success before. */
  datatype Past = Past(determinable: bool, state: TaskState, previous: bool)

  predicate Stays(past: Task -> Past, t: Task) {
    if past(t).determinable then past(t).state.Initial? && !(t.kind.Config? && past(t).previous)
    else !(past(t).previous && past(t).state.Success?)
  }

  function Left(past: Task -> Past, phase: Phase): (r: Phase)
    ensures forall t :: t in r <==> t in phase && Stays(past, t)
  {
    if phase == [] then []
    else Left(past, phase[..|phase| - 1]) + (if Stays(past, phase[|phase| - 1]) then [phase[|phase| - 1]] else [])
  }

  function RemoveDone(phases: seq<Phase>, past: Task -> Past): seq<Phase> {
    if phases == [] then []
    else
      var phase := Left(past, phases[|phases| - 1]);
      RemoveDone(phases[..|phases| - 1], past) + (if phase == [] then [] else [phase])
  }

  /** The phase of the full plan that phase `j` is left over from. */
  ghost function Origin(phases: seq<Phase>, past: Task -> Past, j: nat): (i: nat)
    requires j < |RemoveDone(phases, past)|
    ensures i < |phases| && RemoveDone(phases, past)[j] == Left(past, phases[i]) && Left(past, phases[i]) != []
  {
    var front := phases[..|phases| - 1];
    if j < |RemoveDone(front, past)| then Origin(front, past, j) else |phases| - 1
  }

  lemma {:induction false} OriginGrows(phases: seq<Phase>, past: Task -> Past, j: nat, k: nat)
    requires j < k < |RemoveDone(phases, past)|
    ensures Origin(phases, past, j) < Origin(phases, past, k)
  {
    var front := phases[..|phases| - 1];
    if k < |RemoveDone(front, past)| {
      OriginGrows(front, past, j, k);
    }
  }

  lemma OriginReflects(phases: seq<Phase>, past: Task -> Past, j: nat, k: nat)
    requires j < |RemoveDone(phases, past)| && k < |RemoveDone(phases, past)|
    ensures Origin(phases, past, j) <= Origin(phases, past, k) ==> j <= k
    ensures Origin(phases, past, j) < Origin(phases, past, k) ==> j < k
  {
    if k < j {
      OriginGrows(phases, past, k, j);
    }
  }

  lemma {:induction false} SelectCounts(past: Task -> Past, phase: Phase, t: Task)
    ensures multiset(Left(past, phase))[t] == if Stays(past, t) then multiset(phase)[t] else 0
  {
    if phase != [] {
      SelectCounts(past, phase[..|phase| - 1], t);
      assert phase == phase[..|phase| - 1] + [phase[|phase| - 1]];
    }
  }

  lemma CountSnoc(front: seq<Phase>, last: Phase, t: Task)
    ensures Count(front + [last], t) == Count(front, t) + multiset(last)[t]
  {
    CountConcat(front, [last], t);
    assert [last][1..] == [];
  }

  lemma CountLast(phases: seq<Phase>, t: Task)
    requires phases != []
    ensures Count(phases, t) == Count(phases[..|phases| - 1], t) + multiset(phases[|phases| - 1])[t]
  {
    assert phases == phases[..|phases| - 1] + [phases[|phases| - 1]];
    CountSnoc(phases[..|phases| - 1], phases[|phases| - 1], t);
  }

  lemma RemoveDoneSnoc(phases: seq<Phase>, past: Task -> Past, t: Task)
    requires phases != []
    ensures var front, last := phases[..|phases| - 1], phases[|phases| - 1];
      Count(RemoveDone(phases, past), t) ==
      Count(RemoveDone(front, past), t) + if Stays(past, t) then multiset(last)[t] else 0
  {
    SelectCounts(past, phases[|phases| - 1], t);
    var left, done := Left(past, phases[|phases| - 1]), RemoveDone(phases[..|phases| - 1], past);
    assert RemoveDone(phases, past) == if left == [] then done else done + [left] by {
      assert done + [] == done;
    }
    CountSnoc(done, left, t);
  }

  lemma {:induction false} RemoveDoneCounts(phases: seq<Phase>, past: Task -> Past, t: Task)
    ensures Count(RemoveDone(phases, past), t) == if Stays(past, t) then Count(phases, t) else 0
  {
    if phases != [] {
      RemoveDoneCounts(phases[..|phases| - 1], past, t);
      RemoveDoneSnoc(phases, past, t);
      CountLast(phases, t);
    }
  }

  /**
   * Which tasks need no second run: with determinable items, those that are not in their initial state and the Puppet
   * tasks that ran with success before; otherwise those that ran with success before and are successful. All others
   * stay, as often as they were.
   */
  lemma DroppedExactly(phases: seq<Phase>, past: Task -> Past, t: Task)
    ensures past(t).determinable && (!past(t).state.Initial? || (t.kind.Config? && past(t).previous)) ==>
      Count(RemoveDone(phases, past), t) == 0
    ensures !past(t).determinable && past(t).previous && past(t).state.Success? ==>
      Count(RemoveDone(phases, past), t) == 0
    ensures past(t).determinable && past(t).state.Initial? && (past(t).previous ==> !t.kind.Config?) ==>
      Count(RemoveDone(phases, past), t) == Count(phases, t)
    ensures !past(t).determinable && (past(t).previous ==> !past(t).state.Success?) ==>
      Count(RemoveDone(phases, past), t) == Count(phases, t)
  {
    RemoveDoneCounts(phases, past, t);
  }

  /** A task that has never run with success is never dropped from the plan before it has run. */
  lemma NewTasksStay(phases: seq<Phase>, past: Task -> Past, t: Task)
    requires past(t).state.Initial? && !past(t).previous
    ensures Count(RemoveDone(phases, past), t) == Count(phases, t)
  {
    DroppedExactly(phases, past, t);
  }

  lemma RemoveDoneOrdered(phases: seq<Phase>, past: Task -> Past, g: Graph)
    requires Ordered(phases, g)
    ensures Ordered(RemoveDone(phases, past), g)
  {
    var q := RemoveDone(phases, past);
    forall i, j, d, t | 0 <= i < |q| && 0 <= j < |q| && d in q[i] && t in q[j] && t in g && d in g[t]
      ensures i <= j && (Separated(d, t) ==> i < j)
    {
      OrderedPair(phases, g, Origin(phases, past, i), d, Origin(phases, past, j), t);
      OriginReflects(phases, past, i, j);
    }
  }

  lemma RemoveDoneUnmixed(phases: seq<Phase>, past: Task -> Past)
    requires Unmixed(phases, |phases|)
    ensures NonEmptyPhases(RemoveDone(phases, past)) && Unmixed(RemoveDone(phases, past), |RemoveDone(phases, past)|)
  {
    var q := RemoveDone(phases, past);
    forall j | 0 <= j < |q|
      ensures q[j] != [] && !Mixed(q[j])
    {
      assert !Mixed(phases[Origin(phases, past, j)]);
    }
  }

  lemma RemoveDonePure(phases: seq<Phase>, past: Task -> Past)
    requires Pure(phases)
    ensures Pure(RemoveDone(phases, past))
  {
  }

  // ---------- the whole pipeline ----------

  datatype Outcome = Planned(phases: seq<Phase>) | CyclicGraph(leftover: Graph)

  method LeftOf(phase: Phase, past: Task -> Past) returns (newPhase: Phase)
    ensures newPhase == Left(past, phase)
  {
    newPhase := [];
    for j := 0 to |phase|
      invariant newPhase == Left(past, phase[..j])
    {
      assert phase[..j + 1][..j] == phase[..j];
      if Stays(past, phase[j]) {
        newPhase := newPhase + [phase[j]];
      }
    }
    assert phase[..|phase|] == phase;
  }

  /** `_remove_prev_successful_tasks` */
  method RemovePrevSuccessful(phases: seq<Phase>, past: Task -> Past) returns (newPhases: seq<Phase>)
    ensures newPhases == RemoveDone(phases, past)
    ensures forall t :: past(t).state.Initial? && !past(t).previous ==> Count(newPhases, t) == Count(phases, t)
    ensures forall t :: Count(newPhases, t) != Count(phases, t) ==>
      if past(t).determinable then !past(t).state.Initial? || (t.kind.Config? && past(t).previous)
      else past(t).previous && past(t).state.Success?
  {
    newPhases := [];
    for i := 0 to |phases|
      invariant newPhases == RemoveDone(phases[..i], past)
    {
      var newPhase := LeftOf(phases[i], past);
      assert phases[..i + 1][..i] == phases[..i];
      if newPhase != [] {
        newPhases := newPhases + [newPhase];
      }
    }
    assert phases[..|phases|] == phases;
    forall t
      ensures past(t).state.Initial? && !past(t).previous ==> Count(newPhases, t) == Count(phases, t)
      ensures Count(newPhases, t) != Count(phases, t) ==>
        if past(t).determinable then !past(t).state.Initial? || (t.kind.Config? && past(t).previous)
        else past(t).previous && past(t).state.Success?
    {
      DroppedExactly(phases, past, t);
    }
  }

  /** The phases hold each task that is still to run exactly once, in an order that respects `g`. */
  ghost predicate SoundPlan(phases: seq<Phase>, g: Graph, past: Task -> Past) {
    && (forall t :: Count(phases, t) == if t in g && Stays(past, t) then 1 else 0)
    && Ordered(phases, Kept(g))
    && Pure(phases) && NonEmptyPhases(phases) && Unmixed(phases, |phases|)
  }

  lemma {:induction false} LinearDistinct(done: set<Task>, order: seq<Task>, g: Graph, t: Task)
    requires Linear(done, order, g)
    ensures multiset(order)[t] == if t in order then 1 else 0
    decreases |order|
  {
    if order != [] {
      LinearDistinct(done + {order[0]}, order[1..], g, t);
      LinearTasks(done + {order[0]}, order[1..], g);
      assert order == [order[0]] + order[1..];
    }
  }

  /** The plan that is made of the layers. */
  ghost function Pipeline(g: Graph, layers: seq<seq<Task>>, past: Task -> Past): seq<Phase>
    requires Known(OrderOf(layers), g)
  {
    RemoveDone(Segregate(Compact([], g, OrderOf(layers)), Kept(g), 0), past)
  }

  lemma PlacedOnce(g: Graph, layers: seq<seq<Task>>, t: Task)
    requires Closed(g) && LayersOf(g, layers)
    ensures Count(Segregate(Compact([], g, OrderOf(layers)), Kept(g), 0), t) == if t in g then 1 else 0
  {
    var order := OrderOf(layers);
    assert layers[..|layers|] == layers;
    LayersLinear(layers, g, |layers|);
    CompactConserves([], {}, order, g, t);
    SegregateCounts(Compact([], g, order), Kept(g), 0, t);
    LinearDistinct({}, order, g, t);
    OrderCovers(g, layers, t);
  }

  /** Each task that is still to run is in the plan exactly once, whatever the net tasks depend on. */
  lemma PipelineConserves(g: Graph, layers: seq<seq<Task>>, past: Task -> Past, t: Task)
    requires Closed(g) && TopSort.Layered(g, layers)
    requires forall t :: t in g ==> TopSort.Sorted(layers, t)
    requires Known(OrderOf(layers), g)
    ensures Count(Pipeline(g, layers, past), t) == if t in g && Stays(past, t) then 1 else 0
  {
    PlacedOnce(g, layers, t);
    RemoveDoneCounts(Segregate(Compact([], g, OrderOf(layers)), Kept(g), 0), past, t);
  }

  /** A new task is in the plan. */
  lemma NewTasksArePlanned(g: Graph, layers: seq<seq<Task>>, past: Task -> Past, t: Task)
    requires Closed(g) && LayersOf(g, layers) && t in g && past(t).state.Initial? && !past(t).previous
    ensures Count(Pipeline(g, layers, past), t) == 1
  {
    NewTasksStay(Segregate(Compact([], g, OrderOf(layers)), Kept(g), 0), past, t);
    PlacedOnce(g, layers, t);
  }

  /** No phase is empty or mixes Puppet tasks and callbacks, whatever the graph and the layers are. */
  lemma PipelineUnmixes(g: Graph, layers: seq<seq<Task>>, past: Task -> Past)
    requires Known(OrderOf(layers), g)
    ensures NonEmptyPhases(Pipeline(g, layers, past))
    ensures Unmixed(Pipeline(g, layers, past), |Pipeline(g, layers, past)|)
    ensures forall phase, t, x :: phase in Pipeline(g, layers, past) && t in phase && x in phase ==>
      !(t.kind.Config? && x.kind.Callback?)
  {
    var phases := Compact([], g, OrderOf(layers));
    SegregationUnmixes(phases, Kept(g), 0);
    RemoveDoneUnmixed(Segregate(phases, Kept(g), 0), past);
  }

  /**
   * From the layers of a closed graph to the plan: it is sound unless a net task meets the guard of the last branch of
   * `_place_net_task` past the first phase.
   */
  lemma PipelineIsSound(g: Graph, layers: seq<seq<Task>>, past: Task -> Past)
    requires Closed(g) && TopSort.Layered(g, layers)
    requires forall t :: t in g ==> TopSort.Sorted(layers, t)
    requires Known(OrderOf(layers), g) && !Misplaces([], g, OrderOf(layers))
    ensures SoundPlan(Pipeline(g, layers, past), g, past)
  {
    var order := OrderOf(layers);
    assert layers[..|layers|] == layers;
    LayersLinear(layers, g, |layers|);
    CompactionOrder(g, order);
    var phases := Compact([], g, order);
    SegregationIsSafe(phases, Kept(g));
    var split := Segregate(phases, Kept(g), 0);
    RemoveDoneOrdered(split, past, Kept(g));
    RemoveDonePure(split, past);
    PipelineUnmixes(g, layers, past);
    forall t
      ensures Count(Pipeline(g, layers, past), t) == if t in g && Stays(past, t) then 1 else 0
    {
      PipelineConserves(g, layers, past, t);
    }
  }

  /** That never happens if a net task depends on another net task only where that one keeps no dependency. */
  lemma NoNetChainPipeline(g: Graph, layers: seq<seq<Task>>)
    requires Closed(g) && NoNetChain(g) && TopSort.Layered(g, layers) && Known(OrderOf(layers), g)
    ensures !Misplaces([], g, OrderOf(layers))
  {
    assert layers[..|layers|] == layers;
    LayersLinear(layers, g, |layers|);
    NoNetChainIsEnough(g, OrderOf(layers));
  }

  lemma OrderCovers(g: Graph, layers: seq<seq<Task>>, t: Task)
    requires TopSort.Layered(g, layers) && forall t :: t in g ==> TopSort.Sorted(layers, t)
    ensures t in OrderOf(layers) <==> t in g
  {
    assert layers[..|layers|] == layers;
    LayersLinear(layers, g, |layers|);
    assert t in TaskSet(OrderOf(layers)) <==> TopSort.Below(layers, |layers|, t);
    if t in g {
      assert TopSort.Sorted(layers, t);
      var k :| TopSort.In(layers, k, t);
    }
    if TopSort.Below(layers, |layers|, t) {
      var j :| 0 <= j < |layers| && TopSort.In(layers, j, t);
    }
  }

  /** Each phase of `q` holds the tasks of the same phase of `phases`, in any order. */
  ghost predicate Resorted(phases: seq<Phase>, q: seq<Phase>) {
    |q| == |phases| && forall i :: 0 <= i < |q| ==> multiset(q[i]) == multiset(phases[i])
  }

  lemma SameMembers(a: Phase, b: Phase)
    requires multiset(a) == multiset(b)
    ensures |a| == |b| && forall t :: t in a <==> t in b
  {
    assert |multiset(a)| == |a| && |multiset(b)| == |b|;
    assert forall t :: t in a <==> t in multiset(a);
    assert forall t :: t in b <==> t in multiset(b);
  }

  lemma {:induction false} ResortedCount(phases: seq<Phase>, q: seq<Phase>, t: Task)
    requires Resorted(phases, q)
    ensures Count(q, t) == Count(phases, t)
  {
    if q != [] {
      ResortedCount(phases[1..], q[1..], t);
    }
  }

  /** Sorting the tasks within each phase, in whatever order, keeps the plan sound. */
  lemma ResortedIsSound(phases: seq<Phase>, q: seq<Phase>, g: Graph, past: Task -> Past)
    requires SoundPlan(phases, g, past) && Resorted(phases, q)
    ensures SoundPlan(q, g, past)
  {
    forall t
      ensures Count(q, t) == Count(phases, t)
    {
      ResortedCount(phases, q, t);
    }
    forall i | 0 <= i < |q|
      ensures |q[i]| == |phases[i]| && forall t :: t in q[i] <==> t in phases[i]
    {
      SameMembers(q[i], phases[i]);
    }
    assert Ordered(q, Kept(g));
  }

  /** What graph building yields has one key per task, and no task outside the group. */
  ghost predicate OverTasks(g: Graph, tasks: set<Task>) {
    g.Keys == tasks && forall t :: t in g ==> g[t] <= tasks
  }

  lemma CompletedIsClosure(combined: Graph, bridged: Graph)
    requires bridged.Keys == combined.Keys
    requires forall t, d :: t in bridged ==> (d in bridged[t] <==> Reaches(combined, t, d))
    requires OverTasks(combined, combined.Keys)
    ensures ClosureOf(TopSort.Completed(bridged), combined)
  {
    forall t, d | t in bridged && d in bridged[t]
      ensures d in bridged
    {
      ReachesStaysIn(combined, combined.Keys, t, d);
    }
    assert TopSort.Completed(bridged).Keys == combined.Keys;
  }

  /**
   * `_sort_tasks`. `plugin` and `combined` are the two stages of graph building, `g` the closed graph that
   * is sorted, `layers` its layers. A cycle is reported exactly when two tasks depend on each other; otherwise each
   * task that is still to run is in one phase, no phase is empty or mixed, and the phases are a sound plan unless a
   * net task is misplaced.
   */
  method SortTasks(tasks: seq<Task>, direct: Graph, md: map<string, set<string>>, can: (Task, Task) -> bool,
                   past: Task -> Past)
    returns (outcome: Outcome, plugin: Graph, combined: Graph, g: Graph, layers: seq<seq<Task>>)
    requires forall t :: Next(direct, t) <= TaskSet(tasks) - {t}
    ensures plugin.Keys == TaskSet(tasks)
    ensures forall t, d :: t in plugin ==> (d in plugin[t] <==> d != t && Reaches(direct, t, d) && can(t, d))
    ensures TaskGraphs.Overlaid(plugin, combined, md, can, TaskSet(tasks))
    ensures TaskGraphs.JoinedUpTo(combined, md, can, tasks, |tasks|, TaskSet(tasks))
    ensures combined.Keys == TaskSet(tasks) && ClosureOf(g, combined)
    ensures outcome.CyclicGraph? <==> Entangled(combined)
    ensures outcome.Planned? ==> LayersOf(g, layers) && outcome.phases == Pipeline(g, layers, past)
    ensures outcome.Planned? ==> forall t :: Count(outcome.phases, t) == if t in g && Stays(past, t) then 1 else 0
    ensures outcome.Planned? ==> forall t :: t in tasks && past(t).state.Initial? && !past(t).previous ==>
      Count(outcome.phases, t) == 1
    ensures outcome.Planned? ==> NonEmptyPhases(outcome.phases) && Unmixed(outcome.phases, |outcome.phases|)
    ensures outcome.Planned? && !Misplaces([], g, OrderOf(layers)) ==> SoundPlan(outcome.phases, g, past)
    ensures outcome.Planned? && NoNetChain(g) ==> SoundPlan(outcome.phases, g, past)
  {
    plugin := TaskGraphs.PluginGraph(tasks, direct, can);
    combined := TaskGraphs.OverlayModel(tasks, md, can, plugin);
    var graph := TaskGraphs.Bridge(combined);
    StaysInGroup(TaskSet(tasks), direct, can, md, plugin, combined);
    CompletedIsClosure(combined, graph);
    var leftover;
    g, layers, leftover := TopSort.Sort(graph);
    CyclicIsEntangled(g, combined);
    if leftover != map[] {
      outcome := CyclicGraph(leftover);
    } else {
      AcyclicIsClosed(g, combined);
      var phases := PlanFromLayers(g, layers, past);
      outcome := Planned(phases);
    }
  }

  /** The layers hold every task, each after its dependencies. */
  ghost predicate LayersOf(g: Graph, layers: seq<seq<Task>>) {
    TopSort.Layered(g, layers) && (forall t :: t in g ==> TopSort.Sorted(layers, t)) && Known(OrderOf(layers), g)
  }

  /** Compaction, segregation and the removal of what has run. */
  method PlanFromLayers(g: Graph, layers: seq<seq<Task>>, past: Task -> Past) returns (phases: seq<Phase>)
    requires TopSort.Layered(g, layers) && Closed(g)
    requires forall t :: t in g ==> TopSort.Sorted(layers, t)
    ensures LayersOf(g, layers) && phases == Pipeline(g, layers, past)
    ensures forall t :: Count(phases, t) == if t in g && Stays(past, t) then 1 else 0
    ensures forall t :: t in g && past(t).state.Initial? && !past(t).previous ==> Count(phases, t) == 1
    ensures NonEmptyPhases(phases) && Unmixed(phases, |phases|)
    ensures !Misplaces([], g, OrderOf(layers)) ==> SoundPlan(phases, g, past)
    ensures NoNetChain(g) ==> SoundPlan(phases, g, past)
  {
    forall n | 0 <= n < |layers|
      ensures Known(layers[n], g)
    {
      LayerKnown(g, layers, n);
    }
    var list := new PhaseList(g);
    list.CompactPhases(layers);
    KeptAfterCompaction(g, layers, list.graph);
    list.SegregateCallbackTasks();
    phases := RemovePrevSuccessful(list.phases, past);
    PipelineUnmixes(g, layers, past);
    if NoNetChain(g) {
      NoNetChainPipeline(g, layers);
    }
    if !Misplaces([], g, OrderOf(layers)) {
      PipelineIsSound(g, layers, past);
    }
    forall t
      ensures Count(phases, t) == if t in g && Stays(past, t) then 1 else 0
    {
      PipelineConserves(g, layers, past, t);
    }
    forall t | t in g && past(t).state.Initial? && !past(t).previous
      ensures Count(phases, t) == 1
    {
      NewTasksArePlanned(g, layers, past, t);
    }
  }

  lemma LayerKnown(g: Graph, layers: seq<seq<Task>>, n: nat)
    requires TopSort.Layered(g, layers) && n < |layers|
    ensures Known(layers[n], g)
  {
    forall t | t in layers[n]
      ensures t in g
    {
      assert TopSort.In(layers, n, t);
    }
  }

  lemma KeptAfterCompaction(g: Graph, layers: seq<seq<Task>>, h: Graph)
    requires TopSort.Layered(g, layers) && forall t :: t in g ==> TopSort.Sorted(layers, t)
    requires h.Keys == g.Keys
    requires forall t :: t in h ==> h[t] == if t in OrderOf(layers) then KeptOf(g, t) else g[t]
    ensures h == Kept(g)
  {
    forall t | t in h
      ensures h[t] == Kept(g)[t]
    {
      OrderCovers(g, layers, t);
    }
  }

  lemma StaysInGroup(tasks: set<Task>, direct: Graph, can: (Task, Task) -> bool, md: map<string, set<string>>,
                     plugin: Graph, combined: Graph)
    requires forall t :: Next(direct, t) <= tasks
    requires forall t, d :: t in plugin ==> (d in plugin[t] <==> d != t && Reaches(direct, t, d) && can(t, d))
    requires combined.Keys == tasks
    requires TaskGraphs.Overlaid(plugin, combined, md, can, tasks)
    ensures OverTasks(combined, tasks)
  {
    forall t, d | t in combined && d in combined[t]
      ensures d in tasks
    {
      if d in Next(plugin, t) {
        ReachesStaysIn(direct, tasks, t, d);
      }
    }
  }
}
