/**
 * Running a plan: the master that launches ready phases and observes their results, interleaved with
 * workers that change task states, over fresh and resumed runs (`ready_phases`, `_run_all_phases`).
 */
module Scheduler {
  import opened Tasks
  import PhaseDag

  datatype PlanState =
    | PlanUninitialised | PlanInitial | PlanRunning | PlanStopping
    | PlanStopped | PlanFailed | PlanSuccessful | PlanInvalid

  /** The state of each task of each phase. */
  type States = seq<seq<TaskState>>

  // ---------- which phases are ready ----------

  predicate AllSuccess(phase: seq<TaskState>) {
    forall i :: 0 <= i < |phase| ==> phase[i].Success?
  }

  predicate HasInitial(phase: seq<TaskState>) {
    exists i :: 0 <= i < |phase| && phase[i].Initial?
  }

  predicate HasFailed(phase: seq<TaskState>) {
    exists i :: 0 <= i < |phase| && phase[i].Failed?
  }

  predicate Complete(st: States, k: nat) {
    k < |st| && AllSuccess(st[k])
  }

  predicate AllDone(st: States) {
    forall k :: 0 <= k < |st| ==> AllSuccess(st[k])
  }

  /** Requirements point to earlier phases. */
  ghost predicate Earlier(required: seq<set<nat>>) {
    forall k, r :: 0 <= k < |required| && r in required[k] ==> r < k
  }

  predicate Startable(st: States, required: seq<set<nat>>, k: nat)
    requires k < |st| == |required|
  {
    HasInitial(st[k]) && forall r :: r in required[k] ==> Complete(st, r)
  }

  /** `ready_phases(c)` for a completed phase `c`. */
  function ReadyAfter(st: States, required: seq<set<nat>>, c: nat): (ready: set<nat>)
    requires |st| == |required|
  {
    set k | c < k < |st| && c in required[k] && Startable(st, required, k)
  }

  function FailedPhases(st: States): set<nat> {
    set k | 0 <= k < |st| && HasFailed(st[k])
  }

  function ResetTask(t: TaskState): TaskState {
    if t.Failed? then Initial else t
  }

  /** Failed tasks go back to their initial state. */
  function Reset(st: States): (r: States)
    ensures |r| == |st| && forall k :: 0 <= k < |st| ==> |r[k]| == |st[k]|
    ensures forall k, i :: 0 <= k < |st| && 0 <= i < |st[k]| ==> r[k][i] == ResetTask(st[k][i])
  {
    seq(|st|, k requires 0 <= k < |st| => seq(|st[k]|, i requires 0 <= i < |st[k]| => ResetTask(st[k][i])))
  }

  /** `ready_phases(-1)`, with failed tasks already reset; `failed` are the phases that had some. */
  function ReadyAtStart(st: States, required: seq<set<nat>>, failed: set<nat>): (ready: set<nat>)
    requires |st| == |required|
  {
    failed
    + (set c, k | 0 <= c < |st| && c !in failed && AllSuccess(st[c]) && k in ReadyAfter(st, required, c) :: k)
    + (if failed == {} then set k | 0 <= k < |st| && Startable(st, required, k) else {})
  }

  // ---------- the state machine ----------

  /** What does not change: the requirements, and which phases hold cleanup tasks. */
  datatype Plan = Plan(required: seq<set<nat>>, cleanup: set<nat>)

  /**
   * `launched`, `active`, `posted`, `errors` and `doneAtStart` belong to the current run; `touched` keeps
   * the phases launched in any run. A posted result is a phase and whether it went well.
   */
  datatype Run = Run(st: States, state: PlanState, launched: set<nat>, active: set<nat>, posted: set<(nat, bool)>,
                     errors: bool, touched: set<nat>, doneAtStart: set<nat>)

  /**
   * The actions of master, workers and user; `Begin` starts a fresh plan or resumes a failed one. A worker may
   * act on a phase launched in an earlier run, which it outlives when that run crashes.
   */
  datatype Step =
    | Begin
    | Work(phase: nat, task: nat, to: TaskState)
    | Post(phase: nat, ok: bool)
    | Observe(phase: nat, ok: bool)
    | Stop
    | Finish
    | Crash

  predicate Active(state: PlanState) {
    state.PlanRunning? || state.PlanStopping?
  }

  ghost predicate Enabled(p: Plan, s: Run, step: Step) {
    match step
    case Begin => s.state.PlanInitial? || s.state.PlanFailed?
    case Work(k, i, to) => k in s.touched && k < |s.st| && i < |s.st[k]| && !s.st[k][i].Success?
    case Post(k, ok) => k in s.launched && (ok ==> Complete(s.st, k))
    case Observe(k, ok) => k in s.active && (k, ok) in s.posted
    case Stop => s.state.PlanRunning?
    case Finish => Active(s.state) && s.active == {}
    case Crash => Active(s.state)
  }

  /** A cleanup phase runs at once: its tasks succeed, unless the plan is stopping. */
  function CleanedUp(phase: seq<TaskState>, stopping: bool): (r: seq<TaskState>)
    ensures |r| == |phase|
    ensures forall i :: 0 <= i < |phase| ==>
      r[i] == if !stopping then Success else if phase[i].Running? then Stopped else phase[i]
  {
    seq(|phase|, i requires 0 <= i < |phase| =>
      if !stopping then Success else if phase[i].Running? then Stopped else phase[i])
  }

  /** `_enqueue_ready_phases` for the phases `ready`. */
  function Launch(p: Plan, s: Run, ready: set<nat>): Run {
    var sync := ready * p.cleanup;
    var stopping := s.state.PlanStopping?;
    s.(launched := s.launched + ready, touched := s.touched + ready, active := s.active + (ready - p.cleanup),
       st := seq(|s.st|, k requires 0 <= k < |s.st| => if k in sync then CleanedUp(s.st[k], stopping) else s.st[k]),
       errors := s.errors || (stopping && sync != {}))
  }

  function FailTask(t: TaskState): TaskState {
    if t.Running? then Failed else t
  }

  /** `_fail_running_tasks` */
  function FailRunning(st: States): (r: States)
    ensures |r| == |st| && forall k :: 0 <= k < |st| ==> |r[k]| == |st[k]|
    ensures forall k, i :: 0 <= k < |st| && 0 <= i < |st[k]| ==> r[k][i] == FailTask(st[k][i])
  {
    seq(|st|, k requires 0 <= k < |st| => seq(|st[k]|, i requires 0 <= i < |st[k]| => FailTask(st[k][i])))
  }

  /** `end()` */
  function Ended(state: PlanState, st: States): PlanState {
    if AllDone(st) then PlanSuccessful else if state.PlanRunning? then PlanFailed else PlanStopped
  }

  function Begun(p: Plan, s: Run): Run
    requires |s.st| == |p.required|
  {
    var st := Reset(s.st);
    var s1 := s.(st := st, state := PlanRunning, launched := {}, active := {}, posted := {}, errors := false,
                 doneAtStart := set k | 0 <= k < |st| && AllSuccess(st[k]));
    Launch(p, s1, ReadyAtStart(st, p.required, FailedPhases(s.st)))
  }

  function Apply(p: Plan, s: Run, step: Step): Run
    requires |s.st| == |p.required|
  {
    match step
    case Begin => Begun(p, s)
    case Work(k, i, to) =>
      if k < |s.st| && i < |s.st[k]| then s.(st := s.st[k := s.st[k][i := to]]) else s
    case Post(k, ok) => s.(posted := s.posted + {(k, ok)})
    case Observe(k, ok) =>
      var s1 := s.(active := s.active - {k}, errors := s.errors || !ok);
      if s1.errors then s1 else Launch(p, s1, ReadyAfter(s.st, p.required, k))
    case Stop => s.(state := PlanStopping)
    case Finish => var st := FailRunning(s.st); s.(st := st, state := Ended(s.state, st))
    case Crash => var st := FailRunning(s.st); s.(st := st, state := Ended(s.state, st), active := {})
  }

  /** The states keep their shape: as many phases as requirements, none empty. */
  ghost predicate Shaped(p: Plan, s: Run) {
    |s.st| == |p.required| && forall k :: 0 <= k < |s.st| ==> s.st[k] != []
  }

  lemma ApplyShape(p: Plan, s: Run, step: Step)
    requires Shaped(p, s)
    ensures Shaped(p, Apply(p, s, step))
  {
  }

  /** The state after the steps, if each of them is possible. */
  ghost function Execute(p: Plan, s: Run, steps: seq<Step>): (r: Run)
    requires Shaped(p, s)
    ensures Shaped(p, r)
    decreases |steps|
  {
    if steps == [] then s else
      ApplyShape(p, s, steps[0]);
      Execute(p, Apply(p, s, steps[0]), steps[1..])
  }

  ghost predicate Possible(p: Plan, s: Run, steps: seq<Step>)
    requires Shaped(p, s)
    decreases |steps|
  {
    steps == [] || (Enabled(p, s, steps[0]) &&
      (ApplyShape(p, s, steps[0]); Possible(p, Apply(p, s, steps[0]), steps[1..])))
  }

  /** A plan that has never run. */
  ghost predicate IsFresh(p: Plan, s: Run) {
    && Shaped(p, s)
    && s.touched == {} == s.launched == s.active && s.state.PlanInitial?
    && forall k, i :: 0 <= k < |s.st| && 0 <= i < |s.st[k]| ==> s.st[k][i].Initial?
  }

  /**
   * What launching phases does: cleanup phases run at once, and succeed unless the plan is stopping, which counts as an
   * error; the others wait for their workers.
   */
  lemma Launching(p: Plan, s: Run, ready: set<nat>)
    ensures var t := Launch(p, s, ready);
      && (forall k :: k in t.active <==> k in s.active || (k in ready && k !in p.cleanup))
      && (forall k :: k in t.launched <==> k in s.launched || k in ready)
      && (t.errors <==> s.errors || (s.state.PlanStopping? && exists k :: k in ready && k in p.cleanup))
      && |t.st| == |s.st|
      && (forall k :: 0 <= k < |s.st| && !(k in ready && k in p.cleanup) ==> t.st[k] == s.st[k])
      && (forall k :: 0 <= k < |s.st| && k in ready && k in p.cleanup ==> |t.st[k]| == |s.st[k]|)
      && forall k, i :: 0 <= k < |s.st| && k in ready && k in p.cleanup && 0 <= i < |s.st[k]| ==>
           t.st[k][i] == if !s.state.PlanStopping? then Success else if s.st[k][i].Running? then Stopped else s.st[k][i]
  {
    if k :| k in ready && k in p.cleanup {
      assert k in ready * p.cleanup;
    }
    if ready * p.cleanup != {} {
      var k :| k in ready * p.cleanup;
      assert k in ready && k in p.cleanup;
    }
  }

  /** A run may end once nothing is active, whether it is stopping or not, and may crash at any time before. */
  lemma MayEnd(p: Plan, s: Run)
    requires s.state.PlanRunning? || s.state.PlanStopping?
    ensures Enabled(p, s, Crash) && (Enabled(p, s, Finish) <==> s.active == {})
  {
  }

  // ---------- how a run ends ----------

  /** Some task is not successful. */
  ghost predicate Unfinished(st: States) {
    exists k, i :: 0 <= k < |st| && 0 <= i < |st[k]| && !st[k][i].Success?
  }

  lemma UnfinishedIs(st: States)
    ensures Unfinished(st) <==> !AllDone(st)
    ensures Unfinished(FailRunning(st)) <==> Unfinished(st)
  {
    var r: States := FailRunning(st);
    if k, i :| 0 <= k < |st| && 0 <= i < |st[k]| && !st[k][i].Success? {
      assert !r[k][i].Success?;
      assert !AllSuccess(st[k]);
    }
    if k, i :| 0 <= k < |r| && 0 <= i < |r[k]| && !r[k][i].Success? {
      assert r[k][i] == FailTask(st[k][i]);
      assert !st[k][i].Success?;
    }
  }

  /**
   * A run that ends with everything successful is successful; otherwise it has failed, and may be resumed, or it has
   * been stopped, and may not. No task is left running.
   */
  lemma RunEnds(p: Plan, s: Run, step: Step)
    requires Shaped(p, s) && Enabled(p, s, step) && (step.Finish? || step.Crash?)
    ensures var t := Apply(p, s, step);
      && (!Unfinished(s.st) ==> t.state.PlanSuccessful?)
      && (Unfinished(s.st) && s.state.PlanRunning? ==> t.state.PlanFailed? && Enabled(p, t, Begin))
      && (Unfinished(s.st) && s.state.PlanStopping? ==> t.state.PlanStopped? && !Enabled(p, t, Begin))
      && t.active == {} && |t.st| == |s.st|
      && forall k, i :: 0 <= k < |t.st| && 0 <= i < |t.st[k]| ==>
           i < |s.st[k]| && t.st[k][i] == if s.st[k][i].Running? then Failed else s.st[k][i]
  {
    UnfinishedIs(s.st);
    UnfinishedIs(FailRunning(s.st));
    var t := Apply(p, s, step);
    forall k, i | 0 <= k < |t.st| && 0 <= i < |t.st[k]|
      ensures i < |s.st[k]| && t.st[k][i] == if s.st[k][i].Running? then Failed else s.st[k][i]
    {
      assert t.st[k][i] == FailTask(s.st[k][i]);
    }
  }

  /** A plan that the user stops never runs again, whatever follows: it ends successful, or stopped for good. */
  lemma {:induction false} StopIsFinal(p: Plan, s: Run, steps: seq<Step>)
    requires Shaped(p, s) && Possible(p, s, steps)
    requires s.state.PlanStopping? || ((s.state.PlanStopped? || s.state.PlanSuccessful?) && s.active == {})
    ensures var t := Execute(p, s, steps);
      t.state.PlanStopping? || ((t.state.PlanStopped? || t.state.PlanSuccessful?) && t.active == {})
    ensures s.state.PlanStopped? ==> Execute(p, s, steps).state.PlanStopped?
    decreases |steps|
  {
    if steps != [] {
      if steps[0].Finish? || steps[0].Crash? {
        RunEnds(p, s, steps[0]);
      }
      ApplyShape(p, s, steps[0]);
      StopIsFinal(p, Apply(p, s, steps[0]), steps[1..]);
    }
  }

  /** Whatever follows the user's stop, the plan never runs or fails any more, and cannot be resumed. */
  lemma StoppedByUser(p: Plan, s: Run, steps: seq<Step>)
    requires Shaped(p, s) && Enabled(p, s, Stop) && Shaped(p, Apply(p, s, Stop))
    requires Possible(p, Apply(p, s, Stop), steps)
    ensures var t := Execute(p, Apply(p, s, Stop), steps);
      (t.state.PlanStopping? || t.state.PlanStopped? || t.state.PlanSuccessful?) && !Enabled(p, t, Begin)
  {
    StopIsFinal(p, Apply(p, s, Stop), steps);
  }

  // ---------- success is final ----------

  /** No task leaves `Success`. */
  ghost predicate KeepsSuccess(a: States, b: States) {
    && |a| == |b|
    && (forall k :: 0 <= k < |a| ==> |a[k]| == |b[k]|)
    && forall k, i :: 0 <= k < |a| && 0 <= i < |a[k]| && a[k][i].Success? ==> b[k][i].Success?
  }

  lemma StepKeepsSuccess(p: Plan, s: Run, step: Step)
    requires Shaped(p, s) && Enabled(p, s, step)
    ensures KeepsSuccess(s.st, Apply(p, s, step).st)
  {
  }

  lemma CompleteStays(a: States, b: States, k: nat)
    requires KeepsSuccess(a, b) && Complete(a, k)
    ensures Complete(b, k)
  {
  }

  // ---------- safety ----------

  /** Launched phases have complete requirements; phases never launched are untouched. */
  ghost predicate Safe(p: Plan, s: Run) {
    && Shaped(p, s) && s.active <= s.launched <= s.touched
    && (forall k :: k in s.touched ==> k < |s.st|)
    && (forall k, r :: k in s.touched && r in p.required[k] ==> Complete(s.st, r))
    && forall k, i :: 0 <= k < |s.st| && k !in s.touched && 0 <= i < |s.st[k]| ==> s.st[k][i].Initial?
  }

  ghost predicate Untouched(s: Run, k: nat)
    requires k < |s.st|
  {
    forall i :: 0 <= i < |s.st[k]| ==> s.st[k][i].Initial?
  }

  /** Changing states of touched phases only, and no success among them, keeps the run safe. */
  lemma SafeUpdate(p: Plan, s: Run, t: Run)
    requires Safe(p, s) && KeepsSuccess(s.st, t.st)
    requires t.touched == s.touched && t.active <= t.launched <= t.touched
    requires forall k :: 0 <= k < |s.st| && k !in s.touched && Untouched(s, k) ==> Untouched(t, k)
    ensures Safe(p, t)
  {
    forall k, r | k in t.touched && r in p.required[k]
      ensures Complete(t.st, r)
    {
      CompleteStays(s.st, t.st, r);
    }
    forall k, i | 0 <= k < |t.st| && k !in t.touched && 0 <= i < |t.st[k]|
      ensures t.st[k][i].Initial?
    {
      assert Untouched(s, k) && Untouched(t, k);
    }
  }

  lemma SafeLaunch(p: Plan, s: Run, ready: set<nat>)
    requires Safe(p, s)
    requires forall k :: k in ready ==> k < |s.st|
    requires forall k, r :: k in ready && r in p.required[k] ==> Complete(s.st, r)
    ensures Safe(p, Launch(p, s, ready))
    ensures KeepsSuccess(s.st, Launch(p, s, ready).st)
  {
    var t := Launch(p, s, ready);
    forall k, r | k in t.touched && r in p.required[k]
      ensures Complete(t.st, r)
    {
      assert Complete(s.st, r);
      CompleteStays(s.st, t.st, r);
    }
    forall k, i | 0 <= k < |t.st| && k !in t.touched && 0 <= i < |t.st[k]|
      ensures t.st[k][i].Initial?
    {
      assert t.st[k] == s.st[k];
    }
  }

  lemma SafeBegin(p: Plan, s: Run)
    requires Safe(p, s)
    ensures Safe(p, Begun(p, s))
  {
    var st := Reset(s.st);
    var s1 := s.(st := st, state := PlanRunning, launched := {}, active := {}, posted := {}, errors := false,
                 doneAtStart := set k | 0 <= k < |st| && AllSuccess(st[k]));
    SafeUpdate(p, s, s1);
    var ready := ReadyAtStart(st, p.required, FailedPhases(s.st));
    forall k, r | k in ready && r in p.required[k]
      ensures Complete(st, r)
    {
      if k in FailedPhases(s.st) {
        assert k in s.touched;
      } else {
        assert Startable(st, p.required, k);
      }
    }
    SafeLaunch(p, s1, ready);
  }

  lemma SafeStep(p: Plan, s: Run, step: Step)
    requires Safe(p, s) && Enabled(p, s, step)
    ensures Safe(p, Apply(p, s, step))
  {
    match step
    case Begin => SafeBegin(p, s);
    case Observe(k, ok) =>
      var s1 := s.(active := s.active - {k}, errors := s.errors || !ok);
      if !s1.errors {
        forall j, r | j in ReadyAfter(s.st, p.required, k) && r in p.required[j]
          ensures Complete(s.st, r)
        {
          assert Startable(s.st, p.required, j);
        }
        SafeLaunch(p, s1, ReadyAfter(s.st, p.required, k));
      }
    case _ =>
      StepKeepsSuccess(p, s, step);
      SafeUpdate(p, s, Apply(p, s, step));
  }

  lemma {:induction false} SafeRun(p: Plan, s: Run, steps: seq<Step>)
    requires Safe(p, s) && Possible(p, s, steps)
    ensures Safe(p, Execute(p, s, steps))
    decreases |steps|
  {
    if steps != [] {
      SafeStep(p, s, steps[0]);
      SafeRun(p, Apply(p, s, steps[0]), steps[1..]);
    }
  }

  /** In a safe state, what a launched phase requires, even through other phases, is complete. */
  lemma {:induction false} SafeReach(p: Plan, s: Run, j: nat, k: nat)
    requires Safe(p, s) && j in s.touched && PhaseDag.Reach(p.required, j, k)
    ensures Complete(s.st, k)
    decreases j
  {
    var m :| m in p.required[j] && m < j && (m == k || PhaseDag.Reach(p.required, m, k));
    assert Complete(s.st, m);
    if m != k {
      assert s.st[m][0].Success?;
      SafeReach(p, s, m, k);
    }
  }

  /**
   * In every state that fresh and resumed runs can reach, a phase that was launched has all phases that it
   * requires, directly or not, entirely successful.
   */
  lemma RunSafety(p: Plan, s: Run, steps: seq<Step>, j: nat, k: nat)
    requires IsFresh(p, s) && Possible(p, s, steps)
    requires j in Execute(p, s, steps).touched && PhaseDag.Reach(p.required, j, k)
    ensures Complete(Execute(p, s, steps).st, k)
  {
    SafeRun(p, s, steps);
    SafeReach(p, Execute(p, s, steps), j, k);
  }

  /** A suffix phase never starts while any earlier phase is unfinished. */
  lemma SuffixWaits(ids: seq<string>, reqs: seq<set<string>>, a: nat, b: nat, p: Plan, s: Run, steps: seq<Step>, j: nat,
                    k: nat)
    requires PhaseDag.Sectioned(ids, reqs, a, b) && p.required == PhaseDag.Required(ids, reqs)
    requires a < b <= j < |ids| && (PhaseDag.Unlisted(ids, reqs, b) || PhaseDag.NeedsAll(ids, reqs, a, b))
    requires IsFresh(p, s) && Possible(p, s, steps)
    requires j in Execute(p, s, steps).touched && k < j
    ensures Complete(Execute(p, s, steps).st, k)
  {
    PhaseDag.SuffixBarrier(ids, reqs, a, b, j);
    RunSafety(p, s, steps, j, k);
  }

  // ---------- a run under requirements of its own ----------

  /** Launched phases, other than those in `except`, have complete requirements. */
  ghost predicate LaunchedInOrder(p: Plan, s: Run, except: set<nat>)
    requires Shaped(p, s)
  {
    forall j, r :: j in s.launched && j !in except && j < |s.st| && r in p.required[j] ==> Complete(s.st, r)
  }

  lemma BegunInOrder(p: Plan, s: Run)
    requires Shaped(p, s)
    ensures Shaped(p, Begun(p, s)) && LaunchedInOrder(p, Begun(p, s), FailedPhases(s.st))
    ensures KeepsSuccess(s.st, Begun(p, s).st)
  {
    var st, t := Reset(s.st), Begun(p, s);
    ApplyShape(p, s, Begin);
    forall j, r | j in t.launched && j !in FailedPhases(s.st) && j < |t.st| && r in p.required[j]
      ensures Complete(t.st, r)
    {
      assert Startable(st, p.required, j) && Complete(st, r);
      assert KeepsSuccess(st, t.st);
      CompleteStays(st, t.st, r);
    }
  }

  lemma StepInOrder(p: Plan, s: Run, step: Step, except: set<nat>)
    requires Shaped(p, s) && Enabled(p, s, step) && !step.Begin? && LaunchedInOrder(p, s, except)
    ensures Shaped(p, Apply(p, s, step)) && LaunchedInOrder(p, Apply(p, s, step), except)
  {
    var t := Apply(p, s, step);
    ApplyShape(p, s, step);
    StepKeepsSuccess(p, s, step);
    forall j, r | j in t.launched && j !in except && j < |t.st| && r in p.required[j]
      ensures Complete(t.st, r)
    {
      assert j in s.launched || Startable(s.st, p.required, j);
      assert Complete(s.st, r);
      CompleteStays(s.st, t.st, r);
    }
  }

  lemma {:induction false} StepsInOrder(p: Plan, s: Run, steps: seq<Step>, except: set<nat>)
    requires Shaped(p, s) && Possible(p, s, steps) && LaunchedInOrder(p, s, except)
    requires forall i :: 0 <= i < |steps| ==> !steps[i].Begin?
    ensures LaunchedInOrder(p, Execute(p, s, steps), except)
    decreases |steps|
  {
    if steps != [] {
      StepInOrder(p, s, steps[0], except);
      StepsInOrder(p, Apply(p, s, steps[0]), steps[1..], except);
    }
  }

  /** Failed phases have complete requirements. */
  ghost predicate FailedInOrder(p: Plan, s: Run)
    requires Shaped(p, s)
  {
    forall j, r :: j in FailedPhases(s.st) && r in p.required[j] ==> Complete(s.st, r)
  }

  /**
   * Each run builds its requirements anew, so `s` may have been reached under any other requirements: a phase
   * launched in the run has complete requirements, unless it had failed. A failed phase is launched at once,
   * so no phase is launched too early exactly when the failed ones have complete requirements to begin with.
   */
  lemma RunUnderNewRequirements(p: Plan, s: Run, steps: seq<Step>)
    requires Shaped(p, s) && Enabled(p, s, Begin) && Shaped(p, Begun(p, s)) && Possible(p, Begun(p, s), steps)
    requires forall i :: 0 <= i < |steps| ==> !steps[i].Begin?
    ensures LaunchedInOrder(p, Execute(p, Begun(p, s), steps), FailedPhases(s.st))
    ensures FailedInOrder(p, s) ==> LaunchedInOrder(p, Execute(p, Begun(p, s), steps), {})
    ensures (forall j, r :: j in FailedPhases(s.st) && r in p.required[j] ==> r !in p.cleanup) ==>
      (LaunchedInOrder(p, Begun(p, s), {}) <==> FailedInOrder(p, s))
  {
    var t := Begun(p, s);
    BegunInOrder(p, s);
    StepsInOrder(p, t, steps, FailedPhases(s.st));
    if FailedInOrder(p, s) {
      FailedStayInOrder(p, s);
      StepsInOrder(p, t, steps, {});
    }
    if LaunchedInOrder(p, t, {}) {
      forall j, r | j in FailedPhases(s.st) && r in p.required[j] && r !in p.cleanup
        ensures Complete(s.st, r)
      {
        assert j in t.launched && Complete(t.st, r);
        assert t.st[r] == Reset(s.st)[r];
        forall i | 0 <= i < |s.st[r]|
          ensures s.st[r][i].Success?
        {
          assert t.st[r][i].Success?;
        }
      }
    }
  }

  lemma FailedStayInOrder(p: Plan, s: Run)
    requires Shaped(p, s) && FailedInOrder(p, s)
    ensures Shaped(p, Begun(p, s)) && LaunchedInOrder(p, Begun(p, s), {})
  {
    var t := Begun(p, s);
    BegunInOrder(p, s);
    forall j, r | j in t.launched && j < |t.st| && r in p.required[j]
      ensures Complete(t.st, r)
    {
      if j in FailedPhases(s.st) {
        CompleteStays(s.st, t.st, r);
      }
    }
  }
}
