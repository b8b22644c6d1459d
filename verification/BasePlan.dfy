/** The plan object: its required phases, its state and the phases it finds ready, changed in place. */
module BasePlans {
  import opened Tasks
  import opened PhaseDag
  import opened Scheduler

  /** A requirement of phase `k` is never `k` or later, unless a phase lists its own cluster. */
  lemma {:induction false} RequiredIsEarlier(ids: seq<string>, reqs: seq<set<string>>, k: nat)
    requires k < |ids| == |reqs| && ids[k] !in reqs[k]
    ensures forall r :: r in Required(ids, reqs)[k] ==> r < k
  {
    RequiredIsStable(ids, reqs, k, |ids|);
    forall c
      ensures c in TablesAt(ids, reqs, k).ends ==> TablesAt(ids, reqs, k).ends[c] < k
    {
      EndsAreLast(ids, reqs, k, c);
    }
  }

  class BasePlan {
    var ids: seq<string>
    var reqs: seq<set<string>>
    var phases: States
    var required: seq<set<nat>>
    var state: PlanState

    ghost predicate Valid()
      reads this
    {
      |ids| == |reqs| == |phases| == |required|
    }

    constructor (ids: seq<string>, reqs: seq<set<string>>, phases: States)
      requires |ids| == |reqs| == |phases|
      ensures Valid() && this.ids == ids && this.reqs == reqs && this.phases == phases
      ensures required == Required(ids, reqs) && state == PlanUninitialised
    {
      this.ids, this.reqs, this.phases, this.state := ids, reqs, phases, PlanUninitialised;
      this.required := seq(|ids|, _ => {});
      new;
      BuildPhaseDependencies();
    }

    /** The last phases of the listed clusters that were seen, and which these are. */
    method ListedSections(listed: set<string>, ends: map<string, nat>) returns (phases: set<nat>, sections: set<string>)
      ensures phases == ListedEnds(listed, ends) && sections == listed * ends.Keys
    {
      phases, sections := {}, {};
      var left := listed;
      while left != {}
        invariant left <= listed
        invariant phases == ListedEnds(listed - left, ends) && sections == (listed - left) * ends.Keys
      {
        var c :| c in left;
        left := left - {c};
        if c in ends {
          assert ListedEnds(listed - left, ends) == ListedEnds(listed - left - {c}, ends) + {ends[c]};
          phases := phases + {ends[c]};
          sections := sections + {c};
        }
      }
    }

    /** `_build_phase_dependencies` */
    method BuildPhaseDependencies()
      requires Valid()
      modifies this`required
      ensures Valid() && required == Required(ids, reqs)
    {
      var requiredPhases: seq<set<nat>> := [];
      var sectionEnds: map<string, nat> := map[];
      var extendedSections: set<string> := {};
      for k := 0 to |ids|
        invariant Tables(requiredPhases, sectionEnds, extendedSections) == TablesAt(ids, reqs, k)
      {
        var id := ids[k];
        if k == 0 {
          requiredPhases, sectionEnds := [{}], map[id := 0];
        } else if id == ids[k - 1] {
          requiredPhases, sectionEnds := requiredPhases + [{k - 1}], sectionEnds[id := k];
        } else if reqs[k] * sectionEnds.Keys != {} {
          sectionEnds := sectionEnds[id := k];
          var listed, sections := ListedSections(reqs[k], sectionEnds);
          requiredPhases, extendedSections := requiredPhases + [listed], extendedSections + sections;
        } else if ids[k - 1] != "" && id == "" {
          requiredPhases := requiredPhases + [{k - 1} + OpenEnds(sectionEnds, extendedSections)];
          sectionEnds := sectionEnds[id := k];
        } else if id in sectionEnds {
          requiredPhases := requiredPhases + [{sectionEnds[id]}];
          sectionEnds := sectionEnds[id := k];
        } else {
          sectionEnds := sectionEnds[id := k];
          requiredPhases := requiredPhases + [if "" in sectionEnds then {sectionEnds[""]} else {}];
        }
      }
      required := requiredPhases;
    }

    method PhaseComplete(k: nat) returns (complete: bool)
      requires Valid() && k < |phases|
      ensures complete == Complete(phases, k)
    {
      for i := 0 to |phases[k]|
        invariant forall j :: 0 <= j < i ==> phases[k][j].Success?
      {
        if !phases[k][i].Success? {
          return false;
        }
      }
      return true;
    }

    method RequirementsComplete(k: nat) returns (complete: bool)
      requires Valid() && Earlier(required) && k < |phases|
      ensures complete <==> forall r :: r in required[k] ==> Complete(phases, r)
    {
      complete := true;
      var left := required[k];
      while left != {} && complete
        invariant left <= required[k]
        invariant complete <==> forall r :: r in required[k] - left ==> Complete(phases, r)
      {
        var r :| r in left;
        left := left - {r};
        complete := PhaseComplete(r);
      }
    }

    /** `ready_phases(c)` after phase `c` was completed; requirements point to earlier phases. */
    method ReadyPhasesAfter(c: nat) returns (ready: set<nat>)
      requires Valid() && Earlier(required)
      ensures ready == ReadyAfter(phases, required, c)
    {
      ready := {};
      for k := 0 to |phases|
        invariant ready == set j | c < j < k && c in required[j] && Startable(phases, required, j)
      {
        if k > c && c in required[k] && HasInitial(phases[k]) {
          var complete := RequirementsComplete(k);
          if complete {
            ready := ready + {k};
          }
        }
      }
    }

    /** The first loop of `ready_phases(-1)`: resets failed tasks and sorts out failed and successful phases. */
    method ResetFailedPhases() returns (resume: set<nat>, successful: set<nat>)
      requires Valid()
      modifies this`phases
      ensures Valid() && phases == Reset(old(phases))
      ensures resume == FailedPhases(old(phases))
      ensures successful == set c | 0 <= c < |phases| && c !in resume && AllSuccess(phases[c])
    {
      ghost var st := phases;
      resume, successful := {}, {};
      for k := 0 to |phases|
        invariant |phases| == |st| && Valid()
        invariant forall j :: 0 <= j < k ==> phases[j] == Reset(st)[j]
        invariant forall j :: k <= j < |phases| ==> phases[j] == st[j]
        invariant resume == set j | 0 <= j < k && HasFailed(st[j])
        invariant successful == set j | 0 <= j < k && !HasFailed(st[j]) && AllSuccess(st[j])
      {
        if HasFailed(phases[k]) {
          var phase := phases[k];
          phases := phases[k := seq(|phase|, i requires 0 <= i < |phase| => ResetTask(phase[i]))];
          assert phases[k] == Reset(st)[k];
          resume := resume + {k};
        } else {
          NothingToReset(st, k);
          if AllSuccess(phases[k]) {
            successful := successful + {k};
          }
        }
      }
      SuccessfulAreNotFailed(st, successful);
    }

    method ReadyPhasesFrom(successful: set<nat>) returns (ready: set<nat>)
      requires Valid() && Earlier(required)
      ensures ready == set c, k | c in successful && k in ReadyAfter(phases, required, c) :: k
    {
      ready := {};
      var left := successful;
      while left != {}
        invariant left <= successful
        invariant ready == set c, k | c in successful - left && k in ReadyAfter(phases, required, c) :: k
      {
        var c :| c in left;
        var more := ReadyPhasesAfter(c);
        ready := ready + more;
        left := left - {c};
      }
    }

    method StartablePhases() returns (ready: set<nat>)
      requires Valid() && Earlier(required)
      ensures ready == set k | 0 <= k < |phases| && Startable(phases, required, k)
    {
      ready := {};
      for k := 0 to |phases|
        invariant ready == set j | 0 <= j < k && Startable(phases, required, j)
      {
        var complete := RequirementsComplete(k);
        if HasInitial(phases[k]) && complete {
          ready := ready + {k};
        }
      }
    }

    /** `ready_phases(-1)`: resets failed tasks, and finds what a fresh or resumed run launches first. */
    method ReadyPhasesAtStart() returns (ready: set<nat>)
      requires Valid() && Earlier(required)
      modifies this`phases
      ensures Valid() && phases == Reset(old(phases))
      ensures ready == ReadyAtStart(phases, required, FailedPhases(old(phases)))
    {
      var resume, successful := ResetFailedPhases();
      ready := ReadyPhasesFrom(successful);
      ready := resume + ready;
      if resume == {} {
        var more := StartablePhases();
        ready := ready + more;
      }
    }

    /** `run()`; `ids` and `reqs` are what the items of the tasks say by now. */
    method Run(ids: seq<string>, reqs: seq<set<string>>) returns (ok: bool)
      requires Valid() && |ids| == |reqs| == |phases|
      modifies this`state, this`required, this`ids, this`reqs
      ensures Valid() && ok == (old(state).PlanInitial? || old(state).PlanFailed?)
      ensures ok ==> state == PlanRunning && required == Required(ids, reqs) && this.ids == ids && this.reqs == reqs
      ensures !ok ==>
        state == old(state) && required == old(required) && this.ids == old(this.ids) && this.reqs == old(this.reqs)
    {
      if !state.PlanInitial? && !state.PlanFailed? {
        return false;
      }
      this.ids, this.reqs := ids, reqs;
      BuildPhaseDependencies();
      state := PlanRunning;
      return true;
    }

    /** `stop()` */
    method Stop() returns (ok: bool)
      modifies this`state
      ensures ok == old(state).PlanRunning? && state == if ok then PlanStopping else old(state)
    {
      if !state.PlanRunning? {
        return false;
      }
      state := PlanStopping;
      return true;
    }

    method AllPhasesComplete() returns (complete: bool)
      requires Valid()
      ensures complete == AllDone(phases)
    {
      for k := 0 to |phases|
        invariant forall j :: 0 <= j < k ==> AllSuccess(phases[j])
      {
        var phaseComplete := PhaseComplete(k);
        if !phaseComplete {
          return false;
        }
      }
      return true;
    }

    /** `end()` */
    method End() returns (ok: bool)
      requires Valid()
      modifies this`state
      ensures ok == Active(old(state)) && state == if ok then Ended(old(state), phases) else old(state)
      ensures ok <==> old(state).PlanRunning? || old(state).PlanStopping?
      ensures ok && !Unfinished(phases) ==> state.PlanSuccessful?
      ensures old(state).PlanRunning? && Unfinished(phases) ==> state.PlanFailed?
      ensures old(state).PlanStopping? && Unfinished(phases) ==> state.PlanStopped?
    {
      UnfinishedIs(phases);
      if !state.PlanRunning? && !state.PlanStopping? {
        return false;
      }
      var complete := AllPhasesComplete();
      state := if complete then PlanSuccessful else if state.PlanRunning? then PlanFailed else PlanStopped;
      return true;
    }

    /** `mark_invalid()` */
    method MarkInvalid() returns (ok: bool)
      modifies this`state
      ensures ok == (old(state).PlanInitial? || old(state).PlanFailed?)
      ensures state == if ok then PlanInvalid else old(state)
    {
      if !state.PlanInitial? && !state.PlanFailed? {
        return false;
      }
      state := PlanInvalid;
      return true;
    }
  }

  lemma NothingToReset(st: States, k: nat)
    requires k < |st| && !HasFailed(st[k])
    ensures Reset(st)[k] == st[k]
  {
  }

  lemma SuccessfulAreNotFailed(st: States, successful: set<nat>)
    requires successful == set j | 0 <= j < |st| && !HasFailed(st[j]) && AllSuccess(st[j])
    ensures successful == set c | 0 <= c < |st| && c !in FailedPhases(st) && AllSuccess(Reset(st)[c])
  {
  }
}
