/** The list of phases that compaction builds in place, proved against the functions of `Compaction`. */
module PhaseLists {
  import opened Tasks
  import opened Compaction
  import opened Segregation

  const IS_NET := (t: Task) => t.net
  const IS_CALLBACK := (t: Task) => !t.net && t.kind.Callback?
  const IS_REGULAR := (t: Task) => !t.net && !t.kind.Callback?

  /** Within a layer net tasks come first, then callbacks, then the rest. */
  function Schedule(layer: seq<Task>): seq<Task> {
    Select(IS_NET, layer) + Select(IS_CALLBACK, layer) + Select(IS_REGULAR, layer)
  }

  function OrderOf(layers: seq<seq<Task>>): seq<Task> {
    if layers == [] then [] else OrderOf(layers[..|layers| - 1]) + Schedule(layers[|layers| - 1])
  }

  /** No net task comes after another task of its layer, no callback after a task that is neither. */
  lemma ScheduleIsGrouped(layer: seq<Task>, i: nat, j: nat)
    requires i < j < |Schedule(layer)|
    ensures Schedule(layer)[j].net ==> Schedule(layer)[i].net
    ensures Schedule(layer)[j].kind.Callback? ==> Schedule(layer)[i].net || Schedule(layer)[i].kind.Callback?
  {
    var n, c, r := Select(IS_NET, layer), Select(IS_CALLBACK, layer), Select(IS_REGULAR, layer);
    assert forall k :: 0 <= k < |n| ==> n[k] in n;
    assert forall k :: 0 <= k < |c| ==> c[k] in c;
    assert forall k :: 0 <= k < |r| ==> r[k] in r;
  }

  lemma {:induction false} CompactSnoc(phases: seq<Phase>, g: Graph, order: seq<Task>, t: Task)
    requires forall x :: x in order ==> x in g
    requires t in g
    ensures Compact(phases, g, order + [t]) == Place(Compact(phases, g, order), g, t)
    decreases |order|
  {
    var all := order + [t];
    if order == [] {
      assert all[1..] == [];
    } else {
      assert all[1..] == order[1..] + [t];
      CompactSnoc(Place(phases, g, order[0]), g, order[1..], t);
    }
  }

  ghost predicate Known(tasks: seq<Task>, g: Graph) {
    forall t :: t in tasks ==> t in g
  }

  lemma {:induction false} OrderTasks(layers: seq<seq<Task>>, g: Graph)
    requires forall n :: 0 <= n < |layers| ==> Known(layers[n], g)
    ensures Known(OrderOf(layers), g)
  {
    if layers != [] {
      OrderTasks(layers[..|layers| - 1], g);
      assert Known(layers[|layers| - 1], g);
    }
  }

  lemma OrderSnoc(layers: seq<seq<Task>>, n: nat)
    requires n < |layers|
    ensures OrderOf(layers[..n + 1]) == OrderOf(layers[..n]) + Schedule(layers[n])
    ensures OrderOf(layers[..n + 1]) ==
      OrderOf(layers[..n]) + Select(IS_NET, layers[n]) + Select(IS_CALLBACK, layers[n]) + Select(IS_REGULAR, layers[n])
  {
    assert layers[..n + 1][..n] == layers[..n];
  }

  /** The same dependencies as `g` as far as placing a task is concerned. */
  ghost predicate SameKept(g: Graph, h: Graph) {
    g.Keys == h.Keys && forall t :: t in g ==> t in h && KeptOf(h, t) == KeptOf(g, t)
  }

  lemma CommonDepsAre(next: Phase, moved: Phase, g: Graph, common: set<Task>)
    requires forall d :: d in common <==> d in moved && exists t :: t in next && t in g && d in g[t]
    ensures common != {} <==> CommonDeps(next, moved, g)
  {
    if CommonDeps(next, moved, g) {
      var t, d :| t in next && t in g && d in g[t] && d in moved;
      assert d in common;
    }
    if common != {} {
      var d :| d in common;
      var t :| t in next && t in g && d in g[t];
    }
  }

  class PhaseList {
    var phases: seq<Phase>
    var graph: Graph

    constructor (graph: Graph)
      ensures phases == [] && this.graph == graph
    {
      this.phases, this.graph := [], graph;
    }

    /** `_place_regular_task`: as close to the first phase as its dependencies and the net phases allow. */
    method PlaceRegularTask(t: Task, deps: set<Task>)
      modifies this`phases
      ensures phases == Put(old(phases), RegularPlacement(old(phases), t, deps), t)
    {
      if phases == [] {
        phases := [[t]];
        return;
      }
      var index := |phases| - 1;
      while true
        invariant 0 <= index < |phases| && phases == old(phases)
        invariant forall k :: index < k < |phases| ==> !Blocks(phases[k], t, deps)
        decreases index
      {
        if Blocks(phases[index], t, deps) {
          assert LastBlocking(phases, t, deps, |phases|) == index;
          if index == |phases| - 1 {
            phases := phases + [[t]];
            assert phases == old(phases)[..index + 1] + [[t]] + old(phases)[index + 1..];
          } else {
            phases := phases[index + 1 := phases[index + 1] + [t]];
          }
          return;
        } else if index == 0 {
          assert LastBlocking(phases, t, deps, |phases|) == -1;
          phases := phases[0 := phases[0] + [t]];
          return;
        }
        index := index - 1;
      }
    }

    /** `_place_net_task`: drops the disk dependencies from the graph, then places the task. */
    method PlaceNetTask(t: Task)
      requires t in graph && t.net
      modifies this
      ensures graph == old(graph)[t := KeptOf(old(graph), t)]
      ensures phases == Put(old(phases), NetPlacement(old(phases), t, KeptOf(old(graph), t)), t)
    {
      var deps := graph[t];
      var left := deps;
      while left != {}
        invariant left <= graph[t]
        invariant deps == left + set d | d in graph[t] - left && !d.disk
        invariant graph == old(graph)
      {
        var d :| d in left;
        left := left - {d};
        if d.disk {
          deps := deps - {d};
        }
      }
      assert deps == KeptOf(graph, t);
      graph := graph[t := deps];
      if phases == [] {
        phases := [[t]];
        assert phases == old(phases)[..0] + [[t]] + old(phases)[0..];
      } else if deps == {} {
        if AllNet(phases[0]) {
          phases := phases[0 := phases[0] + [t]];
        } else {
          phases := [[t]] + phases;
          assert phases == old(phases)[..0] + [[t]] + old(phases)[0..];
        }
      } else {
        var index := |phases| - 1;
        while index >= 0 && !HasDep(phases[index], deps)
          invariant -1 <= index < |phases|
          invariant forall k :: index < k < |phases| ==> !HasDep(phases[k], deps)
        {
          index := index - 1;
        }
        assert LastDep(phases, deps, |phases|) == index;
        if index >= 0 {
          if Pushes(phases[index], t, deps) {
            if index + 1 < |phases| && AnyNet(phases[index + 1]) {
              phases := phases[index + 1 := phases[index + 1] + [t]];
            } else {
              phases := phases[..index + 1] + [[t]] + phases[index + 1..];
            }
          } else {
            phases := phases[0 := phases[0] + [t]];
          }
        }
      }
    }

    /** One task of a layer; the graph may already have lost the disk dependencies of net tasks. */
    method PlaceTask(t: Task, ghost g: Graph, ghost order: seq<Task>)
      requires t in g && Progress(g, order)
      modifies this
      ensures Progress(g, order + [t])
      ensures graph == if t.net then old(graph)[t := KeptOf(g, t)] else old(graph)
    {
      CompactSnoc([], g, order, t);
      if t.net {
        PlaceNetTask(t);
      } else {
        PlaceRegularTask(t, graph[t]);
      }
    }

    /** Net tasks, callbacks that are no net tasks, and the rest, each in the order of the layer. */
    static method Partition(layer: seq<Task>)
      returns (netTasks: seq<Task>, callbackTasks: seq<Task>, otherTasks: seq<Task>)
      ensures netTasks == Select(IS_NET, layer)
      ensures callbackTasks == Select(IS_CALLBACK, layer)
      ensures otherTasks == Select(IS_REGULAR, layer)
    {
      netTasks, callbackTasks, otherTasks := [], [], [];
      for i := 0 to |layer|
        invariant netTasks == Select(IS_NET, layer[..i])
        invariant callbackTasks == Select(IS_CALLBACK, layer[..i])
        invariant otherTasks == Select(IS_REGULAR, layer[..i])
      {
        var task := layer[i];
        assert layer[..i + 1][..i] == layer[..i];
        if task.net {
          netTasks := netTasks + [task];
        } else if task.kind.Callback? {
          callbackTasks := callbackTasks + [task];
        } else {
          otherTasks := otherTasks + [task];
        }
      }
      assert layer[..|layer|] == layer;
    }

    /** `_compact_phases`. */
    method CompactPhases(layers: seq<seq<Task>>)
      requires phases == []
      requires forall n :: 0 <= n < |layers| ==> Known(layers[n], graph)
      modifies this
      ensures Known(OrderOf(layers), old(graph))
      ensures phases == Compact([], old(graph), OrderOf(layers))
      ensures RegularTight(phases, old(graph))
      ensures !Mixes([], old(graph), OrderOf(layers)) ==> NetTight(phases, old(graph))
      ensures graph.Keys == old(graph).Keys
      ensures forall t :: t in graph ==>
        graph[t] == if t in OrderOf(layers) then KeptOf(old(graph), t) else old(graph)[t]
    {
      ghost var g := graph;
      ghost var order := [];
      OrderTasks(layers, g);
      for n := 0 to |layers|
        invariant order == OrderOf(layers[..n])
        invariant Progress(g, order)
      {
        var layer := layers[n];
        assert Known(layer, g);
        var netTasks, callbackTasks, otherTasks := Partition(layer);
        order := PlaceTasks(netTasks, g, order);
        order := PlaceTasks(callbackTasks, g, order);
        order := PlaceTasks(otherTasks, g, order);
        OrderSnoc(layers, n);
      }
      assert layers[..|layers|] == layers;
      CompactionIsTight(g, OrderOf(layers));
    }

    /** The tasks of `order` are placed; the graph has changed for the net ones among them only. */
    ghost predicate Progress(g: Graph, order: seq<Task>)
      reads this
    {
      && (forall x :: x in order ==> x in g)
      && phases == Compact([], g, order)
      && SameKept(g, graph)
      && forall x :: x in graph ==> graph[x] == if x in order then KeptOf(g, x) else g[x]
    }

    method PlaceTasks(tasks: seq<Task>, ghost g: Graph, ghost order: seq<Task>) returns (ghost placed: seq<Task>)
      requires Progress(g, order)
      requires forall t :: t in tasks ==> t in g
      modifies this
      ensures placed == order + tasks && Progress(g, placed)
    {
      placed := order;
      for i := 0 to |tasks|
        invariant placed == order + tasks[..i]
        invariant Progress(g, placed)
      {
        PlaceTask(tasks[i], g, placed);
        placed := placed + [tasks[i]];
        assert tasks[..i + 1] == tasks[..i] + [tasks[i]];
      }
      assert order + tasks[..|tasks|] == order + tasks;
    }

    /** `update_phases_with_segregated_config_tasks`, after `phases[phaseIndex]` was cut down to its callbacks. */
    method SpreadSegregated(phaseIndex: nat, segregated: Phase, ghost before: seq<Phase>)
      requires phaseIndex < |before| && segregated == OthersOf(before[phaseIndex])
      requires phases == before[phaseIndex := CallbacksOf(before[phaseIndex])]
      modifies this`phases
      ensures phases == Split(before, phaseIndex, graph)
    {
      if phaseIndex + 1 < |phases| {
        var nextPhase := phases[phaseIndex + 1];
        var nextPhaseDeps := set t, d | t in nextPhase && t in graph && d in graph[t] :: d;
        var commonDeps := set d | d in nextPhaseDeps && d in segregated;
        CommonDepsAre(nextPhase, segregated, graph, commonDeps);
        var allConfig := forall t :: t in nextPhase ==> t.kind.Config?;
        if allConfig && commonDeps == {} && AnyNet(segregated) == AnyNet(nextPhase) {
          phases := phases[phaseIndex + 1 := nextPhase + segregated];
        } else {
          phases := phases[..phaseIndex + 1] + [segregated] + phases[phaseIndex + 1..];
          assert phases == Split(before, phaseIndex, graph);
        }
      } else {
        phases := phases + [segregated];
        assert phases == Split(before, phaseIndex, graph);
      }
    }

    /** `_segregate_callback_tasks`: the loop runs over the list that it inserts into. */
    method SegregateCallbackTasks()
      modifies this`phases
      ensures phases == Segregate(old(phases), graph, 0)
    {
      var phaseIndex := 0;
      while phaseIndex < |phases|
        invariant phaseIndex <= |phases|
        invariant Segregate(phases, graph, phaseIndex) == Segregate(old(phases), graph, 0)
        decreases |phases| - phaseIndex + MixedCount(phases[phaseIndex..])
      {
        var phase := phases[phaseIndex];
        if Mixed(phase) {
          ghost var before := phases;
          SplitMeasure(phases, phaseIndex, graph);
          phases := phases[phaseIndex := CallbacksOf(phase)];
          SpreadSegregated(phaseIndex, OthersOf(phase), before);
        } else {
          assert phases[phaseIndex..][1..] == phases[phaseIndex + 1..];
        }
        phaseIndex := phaseIndex + 1;
      }
    }
  }
}
