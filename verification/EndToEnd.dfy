/** From the dependencies of a group of tasks to the order in which any run starts them. */
module EndToEnd {
  import opened Tasks
  import Segregation
  import opened SortGroup
  import opened Scheduler
  import opened PhaseDag
  import BasePlans
  import Completeness
  import opened Resumptions

  /** The phases of a sort group stand in the plan from index `at` on. */
  ghost predicate Embedded(group: seq<Phase>, at: nat, st: States) {
    at + |group| <= |st| && forall k :: at <= k < at + |group| ==> |st[k]| == |group[k - at]|
  }

  lemma {:induction false} ShapeIsKept(p: Plan, s: Run, steps: seq<Step>, k: nat)
    requires Shaped(p, s) && k < |s.st|
    ensures k < |Execute(p, s, steps).st| && |Execute(p, s, steps).st[k]| == |s.st[k]|
    decreases |steps|
  {
    if steps != [] {
      ApplyShape(p, s, steps[0]);
      StepShape(p, s, steps[0], k);
      ShapeIsKept(p, Apply(p, s, steps[0]), steps[1..], k);
    }
  }

  lemma StepShape(p: Plan, s: Run, step: Step, k: nat)
    requires Shaped(p, s) && k < |s.st|
    ensures k < |Apply(p, s, step).st| && |Apply(p, s, step).st[k]| == |s.st[k]|
  {
  }

  lemma {:induction false} SessionsKeepShape(s: Run, sessions: seq<Session>, k: nat)
    requires PossibleAll(s, sessions) && k < |s.st|
    ensures k < |ExecuteAll(s, sessions).st| && |ExecuteAll(s, sessions).st[k]| == |s.st[k]|
    decreases |sessions|
  {
    if sessions != [] {
      ShapeIsKept(PlanOf(sessions[0]), s, sessions[0].steps, k);
      SessionsKeepShape(After(s, sessions[0]), sessions[1..], k);
    }
  }

  /** The position of task `a` of phase `i` of the group, in the plan. */
  ghost predicate Succeeded(st: States, at: nat, i: nat, a: nat) {
    at + i < |st| && a < |st[at + i]| && st[at + i][a].Success?
  }

  /** Two dependent tasks may share a phase: neither is a callback, and both or none are net tasks. */
  predicate MayShare(d: Task, t: Task) {
    !d.kind.Callback? && !t.kind.Callback? && (d.net <==> t.net)
  }

  lemma PhasesOfPair(group: seq<Phase>, g: Graph, past: Task -> Past, i: nat, a: nat, j: nat, b: nat)
    requires SoundPlan(group, g, past) && i < |group| && a < |group[i]| && j < |group| && b < |group[j]|
    requires group[j][b] in g && group[i][a] in g[group[j][b]] && !(group[j][b].net && group[i][a].disk)
    ensures i <= j && (!MayShare(group[i][a], group[j][b]) ==> i < j)
  {
    Segregation.OrderedPair(group, Kept(g), i, group[i][a], j, group[j][b]);
  }

  /** The task of an earlier phase of the group has succeeded once a later phase of it is launched. */
  lemma AcrossPhases(group: seq<Phase>, at: nat, p: Plan, s: Run, sessions: seq<Session>, i: nat, a: nat, j: nat)
    requires Embedded(group, at, s.st) && i < j < |group| && a < |group[i]|
    requires IsFresh(p, s) && PossibleAll(s, sessions) && InOneCluster(s, sessions, at, at + |group|)
    requires at + j in ExecuteAll(s, sessions).touched
    ensures Succeeded(ExecuteAll(s, sessions).st, at, i, a)
  {
    EmbeddedSize(group, at, s.st, i);
    SessionsKeepShape(s, sessions, at + i);
    var hi := at + |group|;
    StretchesRunOneByOne(p, s, sessions, at, hi, at + i, at + j);
    CompletePhase(ExecuteAll(s, sessions).st, at, i, a);
  }

  lemma EmbeddedSize(group: seq<Phase>, at: nat, st: States, i: nat)
    requires Embedded(group, at, st) && i < |group|
    ensures at + i < |st| && |st[at + i]| == |group[i]|
  {
  }

  lemma CompletePhase(st: States, at: nat, i: nat, a: nat)
    requires Complete(st, at + i) && a < |st[at + i]|
    ensures Succeeded(st, at, i, a)
  {
  }

  /**
   * In every state of every run, fresh or resumed, with requirements built anew each time: once the phase of task `t`
   * has been launched, each dependency `d` of `t` that is in the plan is successful, or shares the phase as it may,
   * unless it is the dependency of a net task on a disk task. It takes no more than that the unfinished phases of the
   * group have one cluster id.
   */
  lemma DependenciesAreHonoured(group: seq<Phase>, g: Graph, past: Task -> Past, at: nat,
                                p: Plan, s: Run, sessions: seq<Session>, i: nat, a: nat, j: nat, b: nat)
    requires SoundPlan(group, g, past) && Embedded(group, at, s.st)
    requires IsFresh(p, s) && PossibleAll(s, sessions) && InOneCluster(s, sessions, at, at + |group|)
    requires i < |group| && a < |group[i]| && j < |group| && b < |group[j]|
    requires group[j][b] in g && group[i][a] in g[group[j][b]] && !(group[j][b].net && group[i][a].disk)
    requires at + j in ExecuteAll(s, sessions).touched
    ensures Succeeded(ExecuteAll(s, sessions).st, at, i, a) || (i == j && MayShare(group[i][a], group[j][b]))
  {
    PhasesOfPair(group, g, past, i, a, j, b);
    if i < j {
      AcrossPhases(group, at, p, s, sessions, i, a, j);
    }
  }

  /**
   * A fresh run of a plan that ends without an error has completed every task and ends successful, if no cluster
   * depends on itself and the cleanup phase, if there is one, is the last.
   */
  lemma FreshRunCompletes(ids: seq<string>, reqs: seq<set<string>>, p: Plan, s: Run, steps: seq<Step>)
    requires |ids| == |reqs| && forall k :: 0 <= k < |ids| ==> ids[k] !in reqs[k]
    requires p.required == Required(ids, reqs) && forall k :: k in p.cleanup ==> k == |ids| - 1
    requires IsFresh(p, s) && Enabled(p, s, Begin) && Shaped(p, Begun(p, s))
    requires Completeness.Looping(p, Begun(p, s), steps)
    requires Enabled(p, Execute(p, Begun(p, s), steps), Finish) && !Execute(p, Begun(p, s), steps).errors
    ensures AllDone(Execute(p, Begun(p, s), steps).st)
    ensures Apply(p, Execute(p, Begun(p, s), steps), Finish).state.PlanSuccessful?
  {
    BuiltIsGood(ids, reqs, p);
    Completeness.FreshLeavesNothing(p, s);
    Completeness.CompletenessOfRun(p, s, steps);
  }

  lemma BuiltIsGood(ids: seq<string>, reqs: seq<set<string>>, p: Plan)
    requires |ids| == |reqs| && forall k :: 0 <= k < |ids| ==> ids[k] !in reqs[k]
    requires p.required == Required(ids, reqs) && forall k :: k in p.cleanup ==> k == |ids| - 1
    ensures Completeness.GoodPlan(p)
  {
    var required := p.required;
    forall k | 0 <= k < |required|
      ensures forall r :: r in required[k] ==> r < k
    {
      BasePlans.RequiredIsEarlier(ids, reqs, k);
    }
    assert Earlier(required);
  }

  // ---------- snapshot plans ----------

  /** `SnapshotPlan._build_phase_dependencies`: each phase requires the one before. */
  function Serial(n: nat): (r: seq<set<nat>>)
    ensures |r| == n
  {
    seq(n, k => if k == 0 then {} else {k - 1})
  }

  lemma {:induction false} SerialReach(n: nat, j: nat, k: nat)
    requires k < j < n
    ensures Reach(Serial(n), j, k)
    decreases j
  {
    assert j - 1 in Serial(n)[j];
    if k < j - 1 {
      SerialReach(n, j - 1, k);
    }
  }

  /** The phases of a snapshot plan run one after the other. */
  lemma SnapshotPlansAreSerial(p: Plan, s: Run, steps: seq<Step>, j: nat, k: nat)
    requires p.required == Serial(|p.required|) && IsFresh(p, s) && Possible(p, s, steps)
    requires j in Execute(p, s, steps).touched && k < j < |p.required|
    ensures Complete(Execute(p, s, steps).st, k)
  {
    SerialReach(|p.required|, j, k);
    RunSafety(p, s, steps, j, k);
  }
}
