/** Searching the tasks of a plan, with the caches that `BasePlan.find_tasks` keeps. */
module TaskCaches {
  import opened Items
  import opened Tasks

  /** The phase of a search: any phase, the current one, or the one with a given index. */
  datatype PhaseQuery = AnyPhase | CurrentPhase | PhaseAt(index: int)

  /** What the first cache is keyed by: a phase, if any, and the path of an item, if any. */
  type Key = (Option<int>, Option<Path>)

  ghost predicate InSome(phases: seq<seq<int>>, t: int) {
    exists k :: 0 <= k < |phases| && t in phases[k]
  }

  function AllTasks(phases: seq<seq<int>>): (r: set<int>)
    ensures forall t :: t in r <==> InSome(phases, t)
  {
    set k, t | 0 <= k < |phases| && t in phases[k] :: t
  }

  function PhaseTasks(phases: seq<seq<int>>, phase: Option<int>): (r: set<int>)
    requires phase.Some? ==> 0 <= phase.value < |phases|
    ensures forall t :: t in r ==> InSome(phases, t)
  {
    if phase.None? then AllTasks(phases) else set t | t in phases[phase.value]
  }

  predicate ActsOn(acting: map<int, set<Path>>, t: int, p: Path) {
    t in acting && p in acting[t]
  }

  predicate Cached(actingTasks: map<Path, set<int>>, p: Path, t: int) {
    p in actingTasks && t in actingTasks[p]
  }

  /** The second cache holds, for each item, the given tasks that act on it. */
  ghost predicate ActingCache(actingTasks: map<Path, set<int>>, acting: map<int, set<Path>>, tasks: set<int>) {
    forall p, t :: Cached(actingTasks, p, t) <==> t in tasks && ActsOn(acting, t, p)
  }

  /** The first cache holds the right tasks for the keys that have been searched. */
  ghost predicate FoundCache(found: map<Key, set<int>>, phases: seq<seq<int>>, acting: map<int, set<Path>>) {
    forall key :: key in found ==>
      (key.0.Some? ==> 0 <= key.0.value < |phases|) && found[key] == Matching(phases, acting, key)
  }

  /** The tasks of a phase, or of all phases, that act on an item, or on any: no states involved. */
  function Matching(phases: seq<seq<int>>, acting: map<int, set<Path>>, key: Key): (r: set<int>)
    requires key.0.Some? ==> 0 <= key.0.value < |phases|
    ensures forall t :: t in r <==> t in PhaseTasks(phases, key.0) && (key.1.Some? ==> ActsOn(acting, t, key.1.value))
  {
    set t | t in PhaseTasks(phases, key.0) && (key.1.Some? ==> ActsOn(acting, t, key.1.value))
  }

  /** The cache holds the tasks in `done`, and task `t` for the items in `added`. */
  ghost predicate Adding(actingTasks: map<Path, set<int>>, acting: map<int, set<Path>>, done: set<int>, t: int,
                         added: set<Path>) {
    forall p, u :: Cached(actingTasks, p, u) <==> (u in done && ActsOn(acting, u, p)) || (u == t && p in added)
  }

  lemma AddingMore(actingTasks: map<Path, set<int>>, acting: map<int, set<Path>>, done: set<int>, t: int,
                   added: set<Path>, p: Path, now: set<int>)
    requires Adding(actingTasks, acting, done, t, added)
    requires now == (if p in actingTasks then actingTasks[p] else {}) + {t}
    ensures Adding(actingTasks[p := now], acting, done, t, added + {p})
  {
    forall q, u
      ensures Cached(actingTasks[p := now], q, u) <==> Cached(actingTasks, q, u) || (q == p && u == t)
    {
    }
  }

  lemma AddedAll(actingTasks: map<Path, set<int>>, acting: map<int, set<Path>>, done: set<int>, t: int,
                 added: set<Path>)
    requires Adding(actingTasks, acting, done, t, added) && added == if t in acting then acting[t] else {}
    ensures ActingCache(actingTasks, acting, done + {t})
  {
    forall p
      ensures ActsOn(acting, t, p) <==> p in added
    {
    }
  }

  /** A plan as far as searching goes: its structure is fixed, the states of its tasks are not. */
  class SearchedPlan {
    const phases: seq<seq<int>>
    /** The items in the model that each task acts on. */
    const acting: map<int, set<Path>>
    var states: map<int, TaskState>
    var currentPhase: Option<int>
    var found: Option<map<Key, set<int>>>
    var actingTasks: map<Path, set<int>>

    ghost predicate Valid()
      reads this
    {
      && (forall k, t :: 0 <= k < |phases| && t in phases[k] ==> t in states)
      && (currentPhase.Some? ==> 0 <= currentPhase.value < |phases|)
      && (found.Some? ==> ActingCache(actingTasks, acting, AllTasks(phases)) && FoundCache(found.value, phases, acting))
    }

    predicate NoSuchPhase(phase: PhaseQuery)
      reads this
    {
      (phase.CurrentPhase? && currentPhase.None?) || (phase.PhaseAt? && !(0 <= phase.index < |phases|))
    }

    function PhaseOf(phase: PhaseQuery): Option<int>
      reads this
    {
      match phase case AnyPhase => None case CurrentPhase => currentPhase case PhaseAt(i) => Some(i)
    }

    /** What a plain filter over the phases gives: by phase, by item, and by current state unless no state is given. */
    function Filtered(phase: PhaseQuery, item: Option<Path>, wanted: set<TaskState>): set<int>
      requires Valid()
      reads this
    {
      if NoSuchPhase(phase) then {}
      else set t | t in PhaseTasks(phases, PhaseOf(phase)) && (item.Some? ==> ActsOn(acting, t, item.value)) &&
                   (wanted == {} || states[t] in wanted)
    }

    constructor (phases: seq<seq<int>>, acting: map<int, set<Path>>, states: map<int, TaskState>)
      requires forall k, t :: 0 <= k < |phases| && t in phases[k] ==> t in states
      ensures Valid() && this.phases == phases && this.acting == acting && this.states == states && found.None?
    {
      this.phases, this.acting, this.states := phases, acting, states;
      currentPhase, found, actingTasks := None, None, map[];
    }

    /** A task changes its state; no cache is told. */
    method SetTaskState(t: int, state: TaskState)
      requires Valid() && t in states
      modifies this`states
      ensures Valid() && states == old(states)[t := state]
    {
      states := states[t := state];
    }

    /** The run moves on to another phase, or ends. */
    method SetCurrentPhase(phase: Option<int>)
      requires Valid() && (phase.Some? ==> 0 <= phase.value < |phases|)
      modifies this`currentPhase
      ensures Valid() && currentPhase == phase
    {
      currentPhase := phase;
    }

    /** `_build_acting_tasks_cache` */
    method BuildActingTasksCache()
      requires Valid() && found.None?
      modifies this`actingTasks
      ensures ActingCache(actingTasks, acting, AllTasks(phases))
    {
      var tasks := AllTasks(phases);
      actingTasks := map[];
      ghost var done: set<int> := {};
      while tasks != {}
        invariant tasks !! done && tasks + done == AllTasks(phases)
        invariant ActingCache(actingTasks, acting, done)
      {
        var t :| t in tasks;
        var items := if t in acting then acting[t] else {};
        ghost var all, added := items, {};
        while items != {}
          invariant items !! added && items + added == all
          invariant Adding(actingTasks, acting, done, t, added)
        {
          var p :| p in items;
          var now := (if p in actingTasks then actingTasks[p] else {}) + {t};
          AddingMore(actingTasks, acting, done, t, added, p, now);
          actingTasks := actingTasks[p := now];
          items, added := items - {p}, added + {p};
        }
        AddedAll(actingTasks, acting, done, t, added);
        tasks, done := tasks - {t}, done + {t};
      }
    }

    /** A task is found by where it is in the plan, by what it acts on, and by its state now. */
    lemma FilteredIs(phase: PhaseQuery, item: Option<Path>, wanted: set<TaskState>)
      requires Valid()
      ensures forall t :: t in Filtered(phase, item, wanted) <==>
        && (exists k :: 0 <= k < |phases| && t in phases[k] &&
              (phase.CurrentPhase? ==> currentPhase == Some(k)) && (phase.PhaseAt? ==> phase.index == k))
        && (item.Some? ==> t in acting && item.value in acting[t])
        && (wanted == {} || (t in states && states[t] in wanted))
    {
    }

    /** The part of `find_tasks` that looks at the caches. */
    method FindCached(key: Key) returns (tasks: set<int>)
      requires Valid() && found.Some? && (key.0.Some? ==> 0 <= key.0.value < |phases|)
      modifies this`found
      ensures Valid() && found.Some? && tasks == Matching(phases, acting, key)
    {
      tasks := if key in found.value then found.value[key] else {};
      if tasks == {} {
        if key.1.Some? {
          tasks := if key.1.value in actingTasks then actingTasks[key.1.value] else {};
          assert forall t :: t in tasks <==> Cached(actingTasks, key.1.value, t);
          if key.0.Some? {
            tasks := tasks * PhaseTasks(phases, key.0);
          }
        } else if key.0.Some? {
          tasks := PhaseTasks(phases, key.0);
        } else {
          tasks := if key in found.value then found.value[key] else AllTasks(phases);
        }
        assert forall t :: t in tasks <==>
          t in PhaseTasks(phases, key.0) && (key.1.Some? ==> ActsOn(acting, t, key.1.value));
        var all := Matching(phases, acting, key);
        assert forall t :: t in tasks <==> t in all;
        assert tasks == all;
        found := Some(found.value[key := tasks]);
      }
    }

    /** `find_tasks`: the caches never show, whatever was searched before and whatever states have changed since. */
    method FindTasks(phase: PhaseQuery, item: Option<Path>, wanted: set<TaskState>) returns (tasks: set<int>)
      requires Valid()
      modifies this`found, this`actingTasks
      ensures Valid() && tasks == Filtered(phase, item, wanted)
      ensures forall t :: t in tasks <==>
        && (exists k :: 0 <= k < |phases| && t in phases[k] &&
              (phase.CurrentPhase? ==> currentPhase == Some(k)) && (phase.PhaseAt? ==> phase.index == k))
        && (item.Some? ==> t in acting && item.value in acting[t])
        && (wanted == {} || (t in states && states[t] in wanted))
    {
      tasks := FindFiltered(phase, item, wanted);
      FilteredIs(phase, item, wanted);
    }

    method FindFiltered(phase: PhaseQuery, item: Option<Path>, wanted: set<TaskState>) returns (tasks: set<int>)
      requires Valid()
      modifies this`found, this`actingTasks
      ensures Valid() && tasks == Filtered(phase, item, wanted)
    {
      if found.None? {
        BuildActingTasksCache();
        found := Some(map[]);
      }
      if NoSuchPhase(phase) {
        return {};
      }
      tasks := FindCached((PhaseOf(phase), item));
      if wanted != {} {
        tasks := set t | t in tasks && t in states && states[t] in wanted;
      }
      var all := Filtered(phase, item, wanted);
      assert forall t :: t in tasks <==> t in all;
    }
  }
}
