/**
 * The dependency graph of a group of tasks: plugin dependencies, then model dependencies, then the
 * closure of both (`_create_graph_from_task_requires`, `create_graph_from_static_sibling_require`,
 * `bridge_static_and_plugin_dependencies`).
 */
module TaskGraphs {
  import opened Tasks
  import opened Graphs

  // ---------- plugin dependencies ----------

  /** What the walk from `t` has found: `known` is closed up to the tasks not yet visited. */
  ghost predicate Walked(direct: Graph, t: Task, known: set<Task>, visited: set<Task>) {
    && t !in known && visited <= known && Next(direct, t) <= known + {t}
    && (forall x :: x in known ==> Reaches(direct, t, x))
    && forall x :: x in visited ==> Next(direct, x) <= known + {t}
  }

  lemma WalkVisits(direct: Graph, t: Task, known: set<Task>, visited: set<Task>, x: Task)
    requires Walked(direct, t, known, visited) && x in known
    ensures Walked(direct, t, known + (Next(direct, x) - {t}), visited + {x})
  {
    forall y | y in Next(direct, x)
      ensures Reaches(direct, t, y)
    {
      ReachesOn(direct, t, x, y);
    }
  }

  lemma WalkDone(direct: Graph, t: Task, known: set<Task>)
    requires Walked(direct, t, known, known)
    ensures forall x :: x in known <==> x != t && Reaches(direct, t, x)
  {
    forall x | x != t && Reaches(direct, t, x)
      ensures x in known
    {
      ReachesStaysIn(direct, known + {t}, t, x);
    }
  }

  /** Queues what a visited dependency requires, if it is new and not `t` itself. */
  method QueueIndirect(t: Task, needed: set<Task>, queue0: set<Task>, indirect0: set<Task>)
    returns (queue: set<Task>, indirectDeps: set<Task>)
    ensures queue == queue0 + (needed - {t} - indirect0)
    ensures indirectDeps == indirect0 + (needed - {t})
  {
    queue, indirectDeps := queue0, indirect0;
    var left := needed;
    while left != {}
      invariant left <= needed
      invariant queue == queue0 + (needed - left - {t} - indirect0)
      invariant indirectDeps == indirect0 + (needed - left - {t})
    {
      var indirect :| indirect in left;
      left := left - {indirect};
      if indirect != t && indirect !in indirectDeps {
        queue := queue + {indirect};
        indirectDeps := indirectDeps + {indirect};
      }
    }
  }

  /** The state of the walk: what is `known` is visited or pending, and `deps` holds the admissible visited ones. */
  ghost predicate Walking(direct: Graph, t: Task, can: (Task, Task) -> bool, known: set<Task>, visited: set<Task>,
                          indirectDeps: set<Task>, deps: set<Task>) {
    && Walked(direct, t, known, visited)
    && known == Next(direct, t) + indirectDeps
    && indirectDeps <= Nodes(direct)
    && deps == set d | d in visited && can(t, d)
  }

  /** One round of the walk: visits what is pending and queues what that requires. */
  method VisitPending(t: Task, direct: Graph, can: (Task, Task) -> bool, pending: set<Task>,
                      deps0: set<Task>, indirect0: set<Task>, ghost known0: set<Task>, ghost visited0: set<Task>)
    returns (queue: set<Task>, deps: set<Task>, indirectDeps: set<Task>, ghost known: set<Task>,
      ghost visited: set<Task>)
    requires Walking(direct, t, can, known0, visited0, indirect0, deps0) && known0 == visited0 + pending
    ensures Walking(direct, t, can, known, visited, indirectDeps, deps) && known == visited + queue
    ensures queue == {} ==> indirectDeps == indirect0
    ensures queue != {} ==> Nodes(direct) - indirectDeps < Nodes(direct) - indirect0
  {
    queue, deps, indirectDeps, known, visited := {}, deps0, indirect0, known0, visited0;
    var todo := pending;
    while todo != {}
      invariant Walking(direct, t, can, known, visited, indirectDeps, deps)
      invariant known == visited + todo + queue
      invariant queue == indirectDeps - indirect0 && indirect0 <= indirectDeps
    {
      var dependency :| dependency in todo;
      todo := todo - {dependency};
      if can(t, dependency) {
        deps := deps + {dependency};
      }
      WalkVisits(direct, t, known, visited, dependency);
      NextInNodes(direct, dependency);
      known, visited := known + (Next(direct, dependency) - {t}), visited + {dependency};
      queue, indirectDeps := QueueIndirect(t, Next(direct, dependency), queue, indirectDeps);
    }
  }

  /**
   * Collects all that one task depends on; `direct` gives the direct plugin dependencies of each task, never
   * the task itself.
   */
  method DependenciesOf(t: Task, direct: Graph, can: (Task, Task) -> bool) returns (deps: set<Task>)
    requires t !in Next(direct, t)
    ensures forall d :: d in deps <==> d != t && Reaches(direct, t, d) && can(t, d)
  {
    deps := {};
    var pending := Next(direct, t);
    var indirectDeps := {};
    ghost var known, visited := pending, {};
    forall x | x in known
      ensures Reaches(direct, t, x)
    {
      ReachesNext(direct, t, x);
    }
    while pending != {}
      invariant Walking(direct, t, can, known, visited, indirectDeps, deps) && known == visited + pending
      decreases Nodes(direct) - indirectDeps, pending
    {
      pending, deps, indirectDeps, known, visited :=
        VisitPending(t, direct, can, pending, deps, indirectDeps, known, visited);
    }
    assert known == visited;
    WalkDone(direct, t, known);
  }

  /** `_create_graph_from_task_requires` */
  method PluginGraph(tasks: seq<Task>, direct: Graph, can: (Task, Task) -> bool) returns (graph: Graph)
    requires forall t :: t in tasks ==> t !in Next(direct, t)
    ensures graph.Keys == TaskSet(tasks)
    ensures forall t, d :: t in graph ==> (d in graph[t] <==> d != t && Reaches(direct, t, d) && can(t, d))
  {
    graph := map[];
    for i := 0 to |tasks|
      invariant graph.Keys == TaskSet(tasks[..i])
      invariant forall t, d :: t in graph ==> (d in graph[t] <==> d != t && Reaches(direct, t, d) && can(t, d))
    {
      var deps := DependenciesOf(tasks[i], direct, can);
      graph := graph[tasks[i] := deps];
      TaskSetSnoc(tasks, i);
    }
    assert tasks[..|tasks|] == tasks;
  }

  // ---------- model dependencies ----------

  /** `found` and `pending` are reached from `a`; only what is `pending` is still to be followed. */
  ghost predicate Following(g: map<string, set<string>>, a: string, found: set<string>, pending: set<string>) {
    && Next(g, a) <= found + pending
    && (forall x :: x in found || x in pending ==> Reaches(g, a, x))
    && forall x :: x in found ==> Next(g, x) <= found + pending
  }

  lemma FollowingDone(g: map<string, set<string>>, a: string, found: set<string>)
    requires Following(g, a, found, {})
    ensures forall x :: x in found <==> Reaches(g, a, x)
  {
    forall x | Reaches(g, a, x)
      ensures x in found
    {
      ReachesStaysIn(g, found, a, x);
    }
  }

  /** One round: the pending paths that are new are found, and what they require becomes pending. */
  method FollowPending(g: map<string, set<string>>, ghost a: string, found0: set<string>, dependencies: set<string>)
    returns (found: set<string>, queue: set<string>)
    requires Following(g, a, found0, dependencies)
    ensures Following(g, a, found, queue) && found == found0 + dependencies
    ensures dependencies <= found0 ==> queue == {}
  {
    found, queue := found0, {};
    var todo := dependencies;
    while todo != {}
      invariant todo <= dependencies && found0 <= found <= found0 + dependencies
      invariant Following(g, a, found, todo + queue)
      invariant dependencies - todo <= found
      invariant dependencies <= found0 ==> queue == {} && found == found0
    {
      var dependency :| dependency in todo;
      todo := todo - {dependency};
      if dependency !in found {
        forall x | x in Next(g, dependency)
          ensures Reaches(g, a, x)
        {
          ReachesOn(g, a, dependency, x);
        }
        found := found + {dependency};
        queue := queue + Next(g, dependency);
      }
    }
    assert todo + queue == queue;
  }

  /** All paths that one path requires, directly or not. */
  method RequiredPaths(g: map<string, set<string>>, a: string) returns (found: set<string>)
    ensures forall x :: x in found <==> Reaches(g, a, x)
  {
    found := {};
    var dependencies := Next(g, a);
    forall x | x in dependencies
      ensures Reaches(g, a, x)
    {
      ReachesNext(g, a, x);
    }
    while dependencies != {}
      invariant Following(g, a, found, dependencies)
      invariant found + dependencies <= Nodes(g)
      decreases Nodes(g) - found, dependencies
    {
      ghost var before := found;
      found, dependencies := FollowPending(g, a, found, dependencies);
      forall x | x in dependencies
        ensures x in Nodes(g)
      {
        ReachesStaysIn(g, Nodes(g), a, x);
      }
      assert found != before ==> Nodes(g) - found < Nodes(g) - before;
    }
    FollowingDone(g, a, found);
  }

  /** The closed model dependencies of each path, and the same relation read backwards. */
  method ClosedPaths(md: map<string, set<string>>)
    returns (vpaths: map<string, set<string>>, reversed: map<string, set<string>>)
    ensures vpaths.Keys == md.Keys && forall a, b :: a in vpaths ==> (b in vpaths[a] <==> Reaches(md, a, b))
    ensures forall a, b :: a in Next(reversed, b) <==> a in vpaths && b in vpaths[a]
  {
    vpaths := map[];
    var left := md.Keys;
    while left != {}
      invariant left <= md.Keys && vpaths.Keys == md.Keys - left
      invariant forall a, b :: a in vpaths ==> (b in vpaths[a] <==> Reaches(md, a, b))
    {
      var vpath :| vpath in left;
      left := left - {vpath};
      var found := RequiredPaths(md, vpath);
      vpaths := vpaths[vpath := found];
    }
    reversed := map b | b in Nodes(vpaths) :: set a | a in vpaths && b in vpaths[a];
  }

  /** The model says that `t` comes after `d`; for a deconfiguring task it is the other way round. */
  ghost predicate ModelOrders(md: map<string, set<string>>, t: Task, d: Task) {
    if t.deconfigure then Reaches(md, d.vpath, t.vpath) else Reaches(md, t.vpath, d.vpath)
  }

  predicate IsPackage(t: Task) {
    t.kind.Config? && t.callType == "package"
  }

  ghost predicate ModelEdge(md: map<string, set<string>>, can: (Task, Task) -> bool, t: Task, d: Task) {
    ModelOrders(md, t, d) && !(IsPackage(t) && IsPackage(d)) && can(t, d)
  }

  /** `g` is `g0` with model edges into `all` added, none of which closes a cycle of two tasks. */
  ghost predicate Overlaid(g0: Graph, g: Graph, md: map<string, set<string>>, can: (Task, Task) -> bool,
                           all: set<Task>) {
    && (forall t :: t in g0 ==> t in g && g0[t] <= g[t])
    && (forall t, d :: t in g && d in g[t] ==> d in Next(g0, t) || (d in all && ModelEdge(md, can, t, d)))
    && forall t, d :: t != d && d in Next(g, t) && t in Next(g, d) ==> d in Next(g0, t) && t in Next(g0, d)
  }

  /** Each model edge from `t` into `deps` is there, in this direction or the other. */
  ghost predicate Joined(g: Graph, md: map<string, set<string>>, can: (Task, Task) -> bool, t: Task, deps: set<Task>) {
    forall d :: d in deps && ModelEdge(md, can, t, d) ==> d in Next(g, t) || t in Next(g, d)
  }

  /** The tasks `dependencies` are those among `all` that the model puts before `t`. */
  ghost predicate ModelDeps(md: map<string, set<string>>, t: Task, all: set<Task>, dependencies: set<Task>) {
    dependencies <= all && forall d :: d in all ==> (ModelOrders(md, t, d) <==> d in dependencies)
  }

  ghost predicate JoinedUpTo(g: Graph, md: map<string, set<string>>, can: (Task, Task) -> bool, tasks: seq<Task>,
                             n: nat, all: set<Task>)
    requires n <= |tasks|
  {
    forall j :: 0 <= j < n ==> Joined(g, md, can, tasks[j], all)
  }

  /**
   * What the overlay comes to: two Puppet tasks for packages never get an edge from the model; other tasks that the
   * model orders, and that may depend on each other, are joined.
   */
  lemma OverlayMeans(g0: Graph, g: Graph, md: map<string, set<string>>, can: (Task, Task) -> bool, tasks: seq<Task>,
                     t: Task, d: Task)
    requires Overlaid(g0, g, md, can, TaskSet(tasks)) && JoinedUpTo(g, md, can, tasks, |tasks|, TaskSet(tasks))
    ensures var packages := t.kind.Config? && d.kind.Config? && t.callType == "package" && d.callType == "package";
      var ordered := if t.deconfigure then Reaches(md, d.vpath, t.vpath) else Reaches(md, t.vpath, d.vpath);
      && (t in g && packages ==> (d in g[t] <==> d in Next(g0, t)))
      && (t in g && d in g[t] && d !in Next(g0, t) ==> ordered && can(t, d))
      && (t in tasks && d in tasks && ordered && can(t, d) && !packages ==> d in Next(g, t) || t in Next(g, d))
  {
    if t in g && d in g[t] {
      assert d in Next(g0, t) || (d in TaskSet(tasks) && ModelEdge(md, can, t, d));
    }
    if t in g0 {
      assert g0[t] <= g[t];
    }
    if t in tasks {
      var j :| 0 <= j < |tasks| && tasks[j] == t;
      assert Joined(g, md, can, tasks[j], TaskSet(tasks));
    }
  }

  lemma TaskSetSnoc(tasks: seq<Task>, i: nat)
    requires i < |tasks|
    ensures TaskSet(tasks[..i + 1]) == TaskSet(tasks[..i]) + {tasks[i]}
  {
    assert tasks[..i + 1] == tasks[..i] + [tasks[i]];
  }

  /** `create_graph_from_static_sibling_require` */
  method OverlayModel(tasks: seq<Task>, md: map<string, set<string>>, can: (Task, Task) -> bool, graph0: Graph)
    returns (graph: Graph)
    ensures graph.Keys == graph0.Keys + TaskSet(tasks)
    ensures Overlaid(graph0, graph, md, can, TaskSet(tasks))
    ensures JoinedUpTo(graph, md, can, tasks, |tasks|, TaskSet(tasks))
  {
    var vpaths, reversed := ClosedPaths(md);
    graph := graph0;
    for i := 0 to |tasks|
      invariant graph.Keys == graph0.Keys + TaskSet(tasks[..i])
      invariant Overlaid(graph0, graph, md, can, TaskSet(tasks))
      invariant JoinedUpTo(graph, md, can, tasks, i, TaskSet(tasks))
    {
      var task := tasks[i];
      ghost var before := graph;
      if task !in graph {
        graph := graph[task := {}];
        AddsNothing(graph0, before, md, can, TaskSet(tasks), task);
      }
      TaskSetSnoc(tasks, i);
      var dependencies := FindModelDeps(tasks, task, md, vpaths, reversed);
      graph := OverlayTask(graph0, graph, task, dependencies, md, can, TaskSet(tasks));
      JoinedGrows(before, graph, md, can, tasks, i, TaskSet(tasks));
    }
    assert tasks[..|tasks|] == tasks;
  }

  lemma AddsNothing(g0: Graph, g: Graph, md: map<string, set<string>>, can: (Task, Task) -> bool, all: set<Task>,
                    t: Task)
    requires Overlaid(g0, g, md, can, all) && t !in g
    ensures Overlaid(g0, g[t := {}], md, can, all)
  {
    var h := g[t := {}];
    assert forall x :: Next(h, x) == Next(g, x);
    forall x, d | x in h && d in h[x]
      ensures d in Next(g0, x) || (d in all && ModelEdge(md, can, x, d))
    {
      assert x in g && d in g[x];
    }
  }

  method FindModelDeps(tasks: seq<Task>, task: Task, ghost md: map<string, set<string>>, vpaths: map<string,
                       set<string>>,
                       reversed: map<string, set<string>>) returns (dependencies: set<Task>)
    requires vpaths.Keys == md.Keys && forall a, b :: a in vpaths ==> (b in vpaths[a] <==> Reaches(md, a, b))
    requires forall a, b :: a in Next(reversed, b) <==> a in vpaths && b in vpaths[a]
    ensures ModelDeps(md, task, TaskSet(tasks), dependencies)
  {
    var paths := if task.deconfigure then Next(reversed, task.vpath) else Next(vpaths, task.vpath);
    dependencies := set d | d in tasks && d.vpath in paths;
    forall d: Task
      ensures ModelOrders(md, task, d) <==> d.vpath in paths
    {
      ModelOrderIsNext(md, vpaths, reversed, task, d);
    }
  }

  lemma JoinedGrows(g: Graph, h: Graph, md: map<string, set<string>>, can: (Task, Task) -> bool, tasks: seq<Task>,
                    n: nat, all: set<Task>)
    requires n < |tasks| && JoinedUpTo(g, md, can, tasks, n, all) && Joined(h, md, can, tasks[n], all)
    requires forall t :: t in g ==> t in h && g[t] <= h[t]
    ensures JoinedUpTo(h, md, can, tasks, n + 1, all)
  {
    forall j | 0 <= j < n
      ensures Joined(h, md, can, tasks[j], all)
    {
      assert Joined(g, md, can, tasks[j], all);
    }
  }

  lemma ModelOrderIsNext(md: map<string, set<string>>, vpaths: map<string, set<string>>, reversed: map<string,
                         set<string>>, t: Task, d: Task)
    requires vpaths.Keys == md.Keys && forall a, b :: a in vpaths ==> (b in vpaths[a] <==> Reaches(md, a, b))
    requires forall a, b :: a in Next(reversed, b) <==> a in vpaths && b in vpaths[a]
    ensures ModelOrders(md, t, d) <==> d.vpath in (if t.deconfigure then Next(reversed, t.vpath) else Next(vpaths,
      t.vpath))
  {
    ReachesFromKey(md, t.vpath, d.vpath);
    ReachesFromKey(md, d.vpath, t.vpath);
  }

  lemma ReachesFromKey(g: map<string, set<string>>, a: string, b: string)
    ensures Reaches(g, a, b) ==> a in g
  {
    if Reaches(g, a, b) {
      var p :| Trail(g, p) && |p| >= 2 && p[0] == a && p[|p| - 1] == b;
      assert p[1] in Next(g, p[0]);
    }
  }

  lemma AddModelEdge(g0: Graph, g: Graph, md: map<string, set<string>>, can: (Task, Task) -> bool, all: set<Task>,
                     t: Task, d: Task)
    requires Overlaid(g0, g, md, can, all) && t in g && d in all
    requires ModelEdge(md, can, t, d) && d !in g[t] && t !in Next(g, d)
    ensures Overlaid(g0, g[t := g[t] + {d}], md, can, all)
  {
    var h := g[t := g[t] + {d}];
    forall x, y | x != y && y in Next(h, x) && x in Next(h, y)
      ensures y in Next(g0, x) && x in Next(g0, y)
    {
      assert y in Next(g, x) || (x == t && y == d);
      assert x in Next(g, y) || (y == t && x == d);
    }
  }

  /** Adds the model dependencies of one task, unless the opposite edge is already there. */
  method OverlayTask(ghost g0: Graph, graph0: Graph, task: Task, dependencies: set<Task>, ghost md: map<string,
                     set<string>>,
                     can: (Task, Task) -> bool, ghost all: set<Task>)
    returns (graph: Graph)
    requires Overlaid(g0, graph0, md, can, all) && task in graph0
    requires ModelDeps(md, task, all, dependencies)
    ensures graph.Keys == graph0.Keys && Overlaid(g0, graph, md, can, all)
    ensures forall t :: t in graph0 ==> graph0[t] <= graph[t]
    ensures Joined(graph, md, can, task, all)
  {
    graph := graph0;
    var todo := dependencies;
    while todo != {}
      invariant todo <= dependencies
      invariant graph.Keys == graph0.Keys && Overlaid(g0, graph, md, can, all)
      invariant forall t :: t in graph0 ==> graph0[t] <= graph[t]
      invariant Joined(graph, md, can, task, dependencies - todo)
    {
      var dependency :| dependency in todo;
      todo := todo - {dependency};
      if IsPackage(task) && IsPackage(dependency) {
        continue;
      }
      if can(task, dependency) && dependency !in graph[task] && task !in Next(graph, dependency) {
        AddModelEdge(g0, graph, md, can, all, task, dependency);
        graph := graph[task := graph[task] + {dependency}];
      }
    }
  }

  // ---------- closing the graph ----------

  /** The new dependencies of `task` are reachable ones, and all but those in `open` are followed up. */
  ghost predicate Bridging(g0: Graph, g: Graph, task: Task, open: set<Task>) {
    && task in g0 && g.Keys == g0.Keys
    && (forall x :: x in g ==> g0[x] <= g[x])
    && (forall x, y :: x in g && y in g[x] ==> Reaches(g0, x, y))
    && open <= g[task]
    && forall x :: x in g[task] && x !in open ==> Next(g, x) <= g[task]
  }

  lemma BridgingAdds(g0: Graph, g: Graph, task: Task, open: set<Task>, x: Task)
    requires Bridging(g0, g, task, open) && x in open
    ensures Bridging(g0, g[task := g[task] + Next(g, x)], task, open - {x} + (Next(g, x) - g[task]))
  {
    var more := Next(g, x) - g[task];
    forall y | y in more
      ensures Reaches(g0, task, y)
    {
      ReachesTrans(g0, task, x, y);
    }
  }

  lemma BridgingDone(g0: Graph, g: Graph, task: Task)
    requires Bridging(g0, g, task, {})
    ensures forall x :: x in g[task] <==> Reaches(g0, task, x)
  {
    forall x | Reaches(g0, task, x)
      ensures x in g[task]
    {
      ReachesStaysIn(g0, g[task], task, x);
    }
  }

  /** The keys of `done` have their closure; the others have what they had. */
  ghost predicate Bridged(g0: Graph, g: Graph, done: set<Task>) {
    && g.Keys == g0.Keys
    && (forall x, y :: x in g && x in done ==> (y in g[x] <==> Reaches(g0, x, y)))
    && forall x :: x in g && x !in done ==> g[x] == g0[x]
  }

  ghost predicate Elsewhere(g: Graph, h: Graph, task: Task) {
    forall x :: x in h && x != task ==> x in g && h[x] == g[x]
  }

  /** In a round that began in `g1`: what is open is still to do or new in this round. */
  ghost predicate Round(g0: Graph, g1: Graph, g: Graph, task: Task, todo: set<Task>, queue: set<Task>) {
    && Bridging(g0, g, task, todo + queue) && task in g1 && Elsewhere(g1, g, task)
    && g[task] == g1[task] + queue && queue !! g1[task] && todo <= g1[task]
    && g[task] <= Nodes(g0)
  }

  lemma RoundGoesOn(g0: Graph, g1: Graph, g: Graph, task: Task, todo: set<Task>, queue: set<Task>, x: Task)
    requires Round(g0, g1, g, task, todo, queue) && x in todo
    ensures Round(g0, g1, g[task := g[task] + Next(g, x)], task, todo - {x}, queue + (Next(g, x) - g[task]))
  {
    var more := Next(g, x) - g[task];
    BridgingAdds(g0, g, task, todo + queue, x);
    ReachedAreNodes(g0, g, task, todo + queue, x);
    assert (todo + queue) - {x} + more == (todo - {x}) + (queue + more);
  }

  /** One round: adds what the open dependencies depend on; what is new becomes open. */
  method FollowUp(ghost g0: Graph, graph0: Graph, task: Task, dependencies: set<Task>)
    returns (graph: Graph, queue: set<Task>)
    requires Bridging(g0, graph0, task, dependencies) && graph0[task] <= Nodes(g0)
    ensures Bridging(g0, graph, task, queue) && Elsewhere(graph0, graph, task) && graph[task] <= Nodes(g0)
    ensures queue == {} ==> graph[task] == graph0[task]
    ensures queue != {} ==> Nodes(g0) - graph[task] < Nodes(g0) - graph0[task]
  {
    graph, queue := graph0, {};
    var todo := dependencies;
    assert todo + queue == dependencies;
    while todo != {}
      invariant Round(g0, graph0, graph, task, todo, queue)
    {
      var dependency :| dependency in todo;
      RoundGoesOn(g0, graph0, graph, task, todo, queue, dependency);
      todo := todo - {dependency};
      queue := queue + (Next(graph, dependency) - graph[task]);
      graph := graph[task := graph[task] + Next(graph, dependency)];
    }
    assert todo + queue == queue;
  }

  lemma ReachedAreNodes(g0: Graph, g: Graph, task: Task, open: set<Task>, x: Task)
    requires Bridging(g0, g, task, open)
    ensures Next(g, x) <= Nodes(g0)
  {
    forall y | y in Next(g, x)
      ensures y in Nodes(g0)
    {
      ReachesStaysIn(g0, Nodes(g0), x, y);
    }
  }

  /** Follows up the dependencies of one task in the graph that is being closed. */
  method BridgeTask(g0: Graph, graph0: Graph, task: Task, ghost done: set<Task>) returns (graph: Graph)
    requires Bridged(g0, graph0, done) && task in g0
    ensures Bridged(g0, graph, done + {task})
  {
    graph := graph0;
    var dependencies := graph[task];
    BridgedStarts(g0, graph, task, done);
    while dependencies != {}
      invariant Bridging(g0, graph, task, dependencies) && Elsewhere(graph0, graph, task)
      invariant graph[task] <= Nodes(g0)
      decreases Nodes(g0) - graph[task], dependencies
    {
      graph, dependencies := FollowUp(g0, graph, task, dependencies);
    }
    BridgingDone(g0, graph, task);
  }

  lemma BridgedStarts(g0: Graph, g: Graph, task: Task, done: set<Task>)
    requires Bridged(g0, g, done) && task in g0
    ensures Bridging(g0, g, task, g[task]) && g[task] <= Nodes(g0)
  {
    forall x, y | x in g && (y in g[x] || y in g0[x])
      ensures y in g0[x] ==> y in g[x]
      ensures y in g[x] ==> Reaches(g0, x, y) && y in Nodes(g0)
    {
      if y in g0[x] {
        ReachesNext(g0, x, y);
      }
      if Reaches(g0, x, y) {
        ReachesStaysIn(g0, Nodes(g0), x, y);
      }
    }
  }

  lemma BridgedIsClosed(g0: Graph, g: Graph)
    requires Bridged(g0, g, g0.Keys)
    ensures Closed(g)
  {
    forall t, d, e | t in g && d in g[t] && d in g && e in g[d]
      ensures e in g[t]
    {
      ReachesTrans(g0, t, d, e);
    }
  }

  /** `bridge_static_and_plugin_dependencies`: the closure of the graph, computed in place. */
  method Bridge(graph0: Graph) returns (graph: Graph)
    ensures graph.Keys == graph0.Keys
    ensures forall t, d :: t in graph ==> (d in graph[t] <==> Reaches(graph0, t, d))
    ensures Closed(graph)
  {
    graph := graph0;
    var tasks := graph.Keys;
    while tasks != {}
      invariant tasks <= graph0.Keys
      invariant Bridged(graph0, graph, graph0.Keys - tasks)
    {
      var task :| task in tasks;
      graph := BridgeTask(graph0, graph, task, graph0.Keys - tasks);
      tasks := tasks - {task};
    }
    BridgedIsClosed(graph0, graph);
  }
}
