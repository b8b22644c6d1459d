/** When a run without errors leaves no task behind. */
module Completeness {
  import opened Tasks
  import opened Scheduler

  /** The run that starts from `st` gets to phase `k`: it is complete, or failed, or waits for another phase. */
  ghost predicate WillRun(st: States, required: seq<set<nat>>, k: nat)
    requires k < |st| == |required|
  {
    || AllSuccess(st[k])
    || HasFailed(st[k])
    || (HasInitial(st[k]) && (FailedPhases(st) != {} ==> required[k] != {}))
  }

  ghost predicate NoneLeftBehind(st: States, required: seq<set<nat>>)
    requires |st| == |required|
  {
    forall k :: 0 <= k < |st| ==> WillRun(st, required, k)
  }

  /** Complete before the run, or launched in it and observed by the master. */
  ghost predicate Settled(s: Run, r: nat) {
    r in s.doneAtStart || (r in s.launched && r !in s.active)
  }

  ghost predicate Waiting(p: Plan, s: Run, k: nat)
    requires Shaped(p, s) && k < |s.st|
  {
    HasInitial(s.st[k]) && exists r :: r in p.required[k] && !Settled(s, r)
  }

  /** Requirements are earlier phases, and nothing requires a cleanup phase. */
  ghost predicate GoodPlan(p: Plan) {
    Earlier(p.required) && forall k, r :: 0 <= k < |p.required| && r in p.required[k] ==> r !in p.cleanup
  }

  ghost predicate PhaseProgress(p: Plan, s: Run, st0: States, k: nat)
    requires Shaped(p, s) && |st0| == |s.st| && k < |s.st|
  {
    && (Settled(s, k) ==> AllSuccess(s.st[k]))
    && (WillRun(st0, p.required, k) ==> k in s.launched || k in s.doneAtStart || Waiting(p, s, k))
    && (!WillRun(st0, p.required, k) ==> k !in s.launched && s.st[k] == st0[k])
  }

  /** The invariant of a run that began in `st0`, as long as it has no error. */
  ghost predicate Progress(p: Plan, s: Run, st0: States)
    requires Shaped(p, s) && |st0| == |s.st|
  {
    !s.errors ==> forall k :: 0 <= k < |s.st| ==> PhaseProgress(p, s, st0, k)
  }

  // ---------- the start ----------

  lemma ResetKeeps(phase: seq<TaskState>, st: States, k: nat)
    requires k < |st|
    ensures !HasFailed(st[k]) ==> Reset(st)[k] == st[k]
    ensures AllSuccess(Reset(st)[k]) ==> AllSuccess(st[k])
    ensures HasFailed(st[k]) ==> HasInitial(Reset(st)[k])
  {
    var r := Reset(st);
    forall i | 0 <= i < |st[k]|
      ensures r[k][i] == ResetTask(st[k][i])
    {
    }
    if HasFailed(st[k]) {
      var i :| 0 <= i < |st[k]| && st[k][i].Failed?;
      assert r[k][i].Initial?;
    }
  }

  lemma LaunchStates(p: Plan, s: Run, ready: set<nat>, k: nat)
    requires Shaped(p, s) && k < |s.st|
    ensures Shaped(p, Launch(p, s, ready))
    ensures k !in ready || k !in p.cleanup ==> Launch(p, s, ready).st[k] == s.st[k]
    ensures !s.state.PlanStopping? && k in ready && k in p.cleanup ==> AllSuccess(Launch(p, s, ready).st[k])
    ensures AllSuccess(s.st[k]) ==> AllSuccess(Launch(p, s, ready).st[k])
  {
    var t := Launch(p, s, ready);
    assert t.st[k] == if k in ready * p.cleanup then CleanedUp(s.st[k], s.state.PlanStopping?) else s.st[k];
  }

  /** Whatever can run and is not launched at once has a requirement that this run has yet to settle. */
  lemma BeginLaunches(p: Plan, s: Run, k: nat)
    requires Shaped(p, s) && GoodPlan(p) && k < |s.st|
    requires HasInitial(s.st[k]) && !HasFailed(s.st[k])
    requires FailedPhases(s.st) != {} ==> p.required[k] != {}
    requires forall r :: r in p.required[k] ==> Complete(Reset(s.st), r)
    ensures k in Begun(p, s).launched
  {
    var st := Reset(s.st);
    ResetKeeps(s.st[k], s.st, k);
    assert Startable(st, p.required, k);
    if FailedPhases(s.st) != {} {
      var r :| r in p.required[k];
      ResetKeeps(s.st[r], s.st, r);
      assert r !in FailedPhases(s.st);
      assert k in ReadyAfter(st, p.required, r);
    }
  }

  lemma BeginNeverLaunches(p: Plan, s: Run, k: nat)
    requires Shaped(p, s) && k < |s.st| && !WillRun(s.st, p.required, k)
    ensures k !in Begun(p, s).launched && k !in Begun(p, s).doneAtStart && Begun(p, s).st[k] == s.st[k]
  {
    var st := Reset(s.st);
    ResetKeeps(s.st[k], s.st, k);
    assert k !in FailedPhases(s.st);
    var ready := ReadyAtStart(st, p.required, FailedPhases(s.st));
    assert k in ready ==> Startable(st, p.required, k);
  }

  lemma BeginWaits(p: Plan, s: Run, k: nat)
    requires Shaped(p, s) && GoodPlan(p) && k < |s.st| && WillRun(s.st, p.required, k)
    requires k !in Begun(p, s).launched && k !in Begun(p, s).doneAtStart
    ensures Shaped(p, Begun(p, s)) && Waiting(p, Begun(p, s), k)
  {
    var t := Begun(p, s);
    ApplyShape(p, s, Begin);
    ResetKeeps(s.st[k], s.st, k);
    assert !HasFailed(s.st[k]) by {
      assert HasFailed(s.st[k]) ==> k in FailedPhases(s.st);
    }
    assert t.st[k] == Reset(s.st)[k];
    if forall r :: r in p.required[k] ==> Settled(t, r) {
      forall r | r in p.required[k]
        ensures Complete(Reset(s.st), r)
      {
        assert Settled(t, r) && r !in p.cleanup;
      }
      BeginLaunches(p, s, k);
    }
  }

  lemma BeginProgress(p: Plan, s: Run)
    requires Shaped(p, s) && GoodPlan(p)
    ensures Shaped(p, Begun(p, s)) && Progress(p, Begun(p, s), s.st)
  {
    var t := Begun(p, s);
    ApplyShape(p, s, Begin);
    var st := Reset(s.st);
    var s1 := s.(st := st, state := PlanRunning, launched := {}, active := {}, posted := {}, errors := false,
                 doneAtStart := set k | 0 <= k < |st| && AllSuccess(st[k]));
    forall k | 0 <= k < |t.st|
      ensures PhaseProgress(p, t, s.st, k)
    {
      LaunchStates(p, s1, ReadyAtStart(st, p.required, FailedPhases(s.st)), k);
      if WillRun(s.st, p.required, k) {
        if k !in t.launched && k !in t.doneAtStart {
          BeginWaits(p, s, k);
        }
      } else {
        BeginNeverLaunches(p, s, k);
      }
    }
  }

  // ---------- the steps of the loop ----------

  /** The actions between the start of the loop and its end, with no worker left over from an earlier run. */
  predicate InLoop(s: Run, step: Step) {
    (step.Work? && step.phase in s.launched) || step.Post? || step.Observe? || step.Stop?
  }

  /** The steps are possible from `s`, and all of them are in the loop. */
  ghost predicate Looping(p: Plan, s: Run, steps: seq<Step>)
    requires Shaped(p, s)
    decreases |steps|
  {
    steps == [] ||
    (Enabled(p, s, steps[0]) && InLoop(s, steps[0]) &&
     (ApplyShape(p, s, steps[0]); Looping(p, Apply(p, s, steps[0]), steps[1..])))
  }

  /** A posted success is final. */
  ghost predicate PostedHold(s: Run) {
    forall k: nat :: (k, true) in s.posted ==> Complete(s.st, k)
  }

  lemma WorkProgress(p: Plan, s: Run, st0: States, k: nat, i: nat, to: TaskState)
    requires Shaped(p, s) && |st0| == |s.st| && Progress(p, s, st0)
    requires Enabled(p, s, Work(k, i, to)) && k in s.launched
    ensures Shaped(p, Apply(p, s, Work(k, i, to))) && Progress(p, Apply(p, s, Work(k, i, to)), st0)
  {
    var t := Apply(p, s, Work(k, i, to));
    ApplyShape(p, s, Work(k, i, to));
    if !t.errors {
      forall j | 0 <= j < |t.st|
        ensures PhaseProgress(p, t, st0, j)
      {
        assert PhaseProgress(p, s, st0, j);
        if j != k {
          assert t.st[j] == s.st[j];
          assert Waiting(p, s, j) ==> Waiting(p, t, j);
        } else {
          assert !AllSuccess(s.st[k]);
        }
      }
    }
  }

  /** A phase that waited for `c` alone is launched when `c` is observed. */
  lemma ObserveLaunches(p: Plan, s: Run, st0: States, c: nat, k: nat)
    requires Shaped(p, s) && GoodPlan(p) && |st0| == |s.st| && k < |s.st| && !s.errors
    requires forall j :: 0 <= j < |s.st| ==> PhaseProgress(p, s, st0, j)
    requires Complete(s.st, c) && Waiting(p, s, k)
    requires forall r :: r in p.required[k] ==> Settled(s, r) || r == c
    ensures k in ReadyAfter(s.st, p.required, c)
  {
    forall r | r in p.required[k]
      ensures Complete(s.st, r)
    {
      assert r < |s.st| && PhaseProgress(p, s, st0, r);
    }
  }

  lemma ObserveOne(p: Plan, s: Run, st0: States, c: nat, k: nat)
    requires Shaped(p, s) && GoodPlan(p) && |st0| == |s.st| && k < |s.st| && !s.errors
    requires forall j :: 0 <= j < |s.st| ==> PhaseProgress(p, s, st0, j)
    requires c in s.active && Complete(s.st, c)
    requires var t := Apply(p, s, Observe(c, true)); !t.errors
    ensures Shaped(p, Apply(p, s, Observe(c, true))) && PhaseProgress(p, Apply(p, s, Observe(c, true)), st0, k)
  {
    var t := Apply(p, s, Observe(c, true));
    ApplyShape(p, s, Observe(c, true));
    var s1 := s.(active := s.active - {c}, errors := s.errors);
    var ready := ReadyAfter(s.st, p.required, c);
    assert t == Launch(p, s1, ready);
    LaunchStates(p, s1, ready, k);
    assert PhaseProgress(p, s, st0, k);
    if !WillRun(st0, p.required, k) {
      assert k !in ready by {
        if k in ready {
          assert HasInitial(s.st[k]) && p.required[k] != {};
          assert WillRun(st0, p.required, k);
        }
      }
    } else if k !in t.launched && k !in t.doneAtStart {
      assert Waiting(p, s, k) && t.st[k] == s.st[k];
      if forall r :: r in p.required[k] ==> Settled(s, r) || r == c {
        ObserveLaunches(p, s, st0, c, k);
        assert false;
      }
      var r :| r in p.required[k] && !Settled(s, r) && r != c;
      assert !Settled(t, r) by {
        assert r !in p.cleanup;
      }
    }
    ObserveSettles(p, s, c, k);
  }

  /** What is settled after the observation was settled before, is `c`, or a cleanup phase just run. */
  lemma ObserveSettles(p: Plan, s: Run, c: nat, k: nat)
    requires Shaped(p, s) && k < |s.st| && !s.errors && c in s.active && Complete(s.st, c)
    requires Settled(s, k) ==> AllSuccess(s.st[k])
    requires !Apply(p, s, Observe(c, true)).errors
    ensures Shaped(p, Apply(p, s, Observe(c, true)))
    ensures Settled(Apply(p, s, Observe(c, true)), k) ==> AllSuccess(Apply(p, s, Observe(c, true)).st[k])
  {
    var t := Apply(p, s, Observe(c, true));
    ApplyShape(p, s, Observe(c, true));
    var s1 := s.(active := s.active - {c}, errors := s.errors);
    var ready := ReadyAfter(s.st, p.required, c);
    LaunchStates(p, s1, ready, k);
    assert s.state.PlanStopping? ==> ready * p.cleanup == {};
    assert k in ready && k in p.cleanup ==> k in ready * p.cleanup;
  }

  lemma ObserveProgress(p: Plan, s: Run, st0: States, c: nat, ok: bool)
    requires Shaped(p, s) && GoodPlan(p) && |st0| == |s.st|
    requires Progress(p, s, st0) && PostedHold(s) && Enabled(p, s, Observe(c, ok))
    ensures Shaped(p, Apply(p, s, Observe(c, ok))) && Progress(p, Apply(p, s, Observe(c, ok)), st0)
  {
    var t := Apply(p, s, Observe(c, ok));
    ApplyShape(p, s, Observe(c, ok));
    if !t.errors {
      assert ok && !s.errors;
      forall k | 0 <= k < |t.st|
        ensures PhaseProgress(p, t, st0, k)
      {
        ObserveOne(p, s, st0, c, k);
      }
    }
  }

  lemma LoopStep(p: Plan, s: Run, st0: States, step: Step)
    requires Shaped(p, s) && GoodPlan(p) && |st0| == |s.st|
    requires Progress(p, s, st0) && PostedHold(s) && Enabled(p, s, step) && InLoop(s, step)
    ensures Shaped(p, Apply(p, s, step)) && Progress(p, Apply(p, s, step), st0) && PostedHold(Apply(p, s, step))
  {
    ApplyShape(p, s, step);
    StepKeepsSuccess(p, s, step);
    PostedStays(p, s, step);
    if step.Work? {
      WorkProgress(p, s, st0, step.phase, step.task, step.to);
    } else if step.Observe? {
      ObserveProgress(p, s, st0, step.phase, step.ok);
    } else {
      SameProgress(p, s, Apply(p, s, step), st0);
    }
  }

  lemma SameProgress(p: Plan, s: Run, t: Run, st0: States)
    requires Shaped(p, s) && |st0| == |s.st| && Progress(p, s, st0)
    requires t.st == s.st && t.launched == s.launched && t.active == s.active && t.doneAtStart == s.doneAtStart
    requires t.errors == s.errors
    ensures Shaped(p, t) && Progress(p, t, st0)
  {
    if !t.errors {
      forall k | 0 <= k < |t.st|
        ensures PhaseProgress(p, t, st0, k)
      {
        assert PhaseProgress(p, s, st0, k);
        assert Waiting(p, s, k) ==> Waiting(p, t, k);
      }
    }
  }

  lemma PostedStays(p: Plan, s: Run, step: Step)
    requires Shaped(p, s) && PostedHold(s) && Enabled(p, s, step) && !step.Begin?
    ensures PostedHold(Apply(p, s, step))
  {
    var t := Apply(p, s, step);
    StepKeepsSuccess(p, s, step);
    forall k: nat | (k, true) in t.posted
      ensures Complete(t.st, k)
    {
      if (k, true) in s.posted {
        CompleteStays(s.st, t.st, k);
      }
    }
  }

  lemma {:induction false} LoopRun(p: Plan, s: Run, st0: States, steps: seq<Step>)
    requires Shaped(p, s) && GoodPlan(p) && |st0| == |s.st| && Progress(p, s, st0) && PostedHold(s)
    requires Looping(p, s, steps)
    ensures Progress(p, Execute(p, s, steps), st0)
    decreases |steps|
  {
    if steps != [] {
      LoopStep(p, s, st0, steps[0]);
      LoopRun(p, Apply(p, s, steps[0]), st0, steps[1..]);
    }
  }

  // ---------- the end of the loop ----------

  /** With nothing active and no error, every phase that could run is settled, in the order of the phases. */
  lemma {:induction false} AllSettled(p: Plan, s: Run, st0: States, k: nat)
    requires Shaped(p, s) && GoodPlan(p) && |st0| == |s.st| && k < |s.st|
    requires Progress(p, s, st0) && !s.errors && s.active == {}
    requires NoneLeftBehind(st0, p.required)
    ensures AllSuccess(s.st[k]) && Settled(s, k)
    decreases k
  {
    assert PhaseProgress(p, s, st0, k) && WillRun(st0, p.required, k);
    if !Settled(s, k) {
      var r :| r in p.required[k] && !Settled(s, r);
      assert r < k;
      AllSettled(p, s, st0, r);
    }
  }

  lemma FailRunningDone(st: States)
    ensures AllDone(FailRunning(st)) <==> AllDone(st)
  {
    var r := FailRunning(st);
    forall k | 0 <= k < |st|
      ensures AllSuccess(r[k]) <==> AllSuccess(st[k])
    {
      assert forall i :: 0 <= i < |st[k]| ==> r[k][i] == FailTask(st[k][i]);
    }
  }

  lemma EndOfLoop(p: Plan, t: Run, st0: States)
    requires Shaped(p, t) && GoodPlan(p) && |st0| == |t.st|
    requires Progress(p, t, st0) && !t.errors && t.active == {}
    ensures AllDone(t.st) <==> NoneLeftBehind(st0, p.required)
  {
    if NoneLeftBehind(st0, p.required) {
      forall k | 0 <= k < |t.st|
        ensures AllSuccess(t.st[k])
      {
        AllSettled(p, t, st0, k);
      }
    } else {
      var k :| 0 <= k < |st0| && !WillRun(st0, p.required, k);
      assert PhaseProgress(p, t, st0, k);
    }
  }

  /**
   * When the loop ends without an error, every task is successful, and `end` makes the plan successful,
   * exactly when the run started with no phase that it would leave behind.
   */
  lemma CompletenessOfRun(p: Plan, s: Run, steps: seq<Step>)
    requires Shaped(p, s) && GoodPlan(p) && Enabled(p, s, Begin) && Shaped(p, Begun(p, s))
    requires Looping(p, Begun(p, s), steps)
    requires Enabled(p, Execute(p, Begun(p, s), steps), Finish) && !Execute(p, Begun(p, s), steps).errors
    ensures AllDone(Execute(p, Begun(p, s), steps).st) <==> NoneLeftBehind(s.st, p.required)
    ensures Apply(p, Execute(p, Begun(p, s), steps), Finish).state.PlanSuccessful? <==> NoneLeftBehind(s.st, p.required)
  {
    var t := Execute(p, Begun(p, s), steps);
    BeginProgress(p, s);
    LoopRun(p, Begun(p, s), s.st, steps);
    EndOfLoop(p, t, s.st);
    FailRunningDone(t.st);
  }

  /** A fresh plan leaves no phase behind. */
  lemma FreshLeavesNothing(p: Plan, s: Run)
    requires IsFresh(p, s)
    ensures NoneLeftBehind(s.st, p.required)
  {
    forall k | 0 <= k < |s.st|
      ensures WillRun(s.st, p.required, k)
    {
      assert s.st[k][0].Initial?;
    }
    forall k | 0 <= k < |s.st|
      ensures k !in FailedPhases(s.st)
    {
    }
  }

  // ---------- a resumed run that leaves a task behind ----------

  lemma PossibleFirst(p: Plan, s: Run, step: Step, rest: seq<Step>)
    requires Shaped(p, s) && Enabled(p, s, step) && Shaped(p, Apply(p, s, step)) && Possible(p, Apply(p, s, step), rest)
    ensures Possible(p, s, [step] + rest) && Execute(p, s, [step] + rest) == Execute(p, Apply(p, s, step), rest)
  {
    assert ([step] + rest)[1..] == rest;
  }

  lemma FinishFailed(p: Plan, s: Run)
    requires p == Plan([{}, {}], {}) && s.st == [[Failed], [Initial]] && s.state.PlanRunning? && s.active == {}
    ensures Possible(p, s, [Finish])
    ensures var u := Execute(p, s, [Finish]); u.state.PlanFailed? && u.st == s.st
  {
    var r := FailRunning(s.st);
    assert r[0] == [Failed] && r[1] == [Initial] && r == s.st;
    assert s.st[0][0].Failed? && !AllSuccess(s.st[0]);
    PossibleFirst(p, s, Finish, []);
  }

  lemma ObservedFailures(p: Plan, s: Run) returns (steps: seq<Step>)
    requires p == Plan([{}, {}], {}) && s.st == [[Failed], [Initial]] && s.state.PlanRunning? && s.active == {0, 1}
    requires (0, false) in s.posted && (1, false) in s.posted
    ensures Possible(p, s, steps)
    ensures var u := Execute(p, s, steps); u.state.PlanFailed? && u.st == s.st
  {
    var s1 := Apply(p, s, Observe(0, false));
    var s2 := Apply(p, s1, Observe(1, false));
    assert s2.active == {} && s2.st == s.st && s2.state == s.state;
    FinishFailed(p, s2);
    var rest := [Observe(1, false)] + [Finish];
    PossibleFirst(p, s1, Observe(1, false), [Finish]);
    PossibleFirst(p, s, Observe(0, false), rest);
    steps := [Observe(0, false)] + rest;
  }

  lemma FailingSteps(p: Plan, s1: Run) returns (steps: seq<Step>)
    requires p == Plan([{}, {}], {}) && s1.st == [[Initial], [Initial]] && s1.state.PlanRunning?
    requires s1.launched == {0, 1} == s1.active && s1.launched <= s1.touched
    ensures Possible(p, s1, steps)
    ensures var u := Execute(p, s1, steps); u.state.PlanFailed? && u.st == [[Failed], [Initial]]
  {
    var s2 := Apply(p, s1, Work(0, 0, Failed));
    assert s1.st[0][0 := Failed] == [Failed] && s2.st == [[Failed], [Initial]];
    var s3 := Apply(p, s2, Post(0, false));
    var s4 := Apply(p, s3, Post(1, false));
    var r4 := ObservedFailures(p, s4);
    PossibleFirst(p, s3, Post(1, false), r4);
    var r3 := [Post(1, false)] + r4;
    PossibleFirst(p, s2, Post(0, false), r3);
    var r2 := [Post(0, false)] + r3;
    PossibleFirst(p, s1, Work(0, 0, Failed), r2);
    steps := [Work(0, 0, Failed)] + r2;
  }

  lemma FirstBegin(p: Plan, s: Run)
    requires p == Plan([{}, {}], {}) && s.st == [[Initial], [Initial]]
    ensures var s1 := Apply(p, s, Begin);
      s1.st == s.st && s1.launched == {0, 1} == s1.active && s1.launched <= s1.touched && s1.state.PlanRunning?
  {
    var s1 := Apply(p, s, Begin);
    assert Reset(s.st)[0] == [Initial] && Reset(s.st)[1] == [Initial] && Reset(s.st) == s.st;
    assert FailedPhases(s.st) == {};
    assert s.st[0][0].Initial? && s.st[1][0].Initial? && Startable(s.st, p.required, 0) &&
      Startable(s.st, p.required, 1);
    assert s1.launched == {0, 1} && s1.active == {0, 1};
    assert s1.st[0] == s.st[0] && s1.st[1] == s.st[1];
  }

  lemma SecondBegin(p: Plan, u: Run)
    requires p == Plan([{}, {}], {}) && u.st == [[Failed], [Initial]]
    ensures var t0 := Apply(p, u, Begin);
      t0.st == [[Initial], [Initial]] && t0.launched == {0} == t0.active && t0.launched <= t0.touched &&
      t0.state.PlanRunning? && !t0.errors
  {
    var t0 := Apply(p, u, Begin);
    assert Reset(u.st)[0] == [Initial] && Reset(u.st)[1] == [Initial] && Reset(u.st) == [[Initial], [Initial]];
    assert u.st[0][0].Failed? && FailedPhases(u.st) == {0};
    assert !AllSuccess([Initial]) by {
      assert [Initial][0].Initial?;
    }
    assert ReadyAtStart(Reset(u.st), p.required, {0}) == {0};
    assert t0.st[0] == [Initial] && t0.st[1] == [Initial];
  }

  /** The loop runs from `t` to its end without an error, but some task never ran. */
  ghost predicate EndsUndone(p: Plan, t: Run, steps: seq<Step>)
    requires Shaped(p, t)
  {
    && Looping(p, t, steps)
    && var end := Execute(p, t, steps);
       Enabled(p, end, Finish) && !end.errors && exists k :: 0 <= k < |end.st| && HasInitial(end.st[k])
  }

  lemma UndoneFirst(p: Plan, s: Run, step: Step, rest: seq<Step>)
    requires Shaped(p, s) && Enabled(p, s, step) && InLoop(s, step) && Shaped(p, Apply(p, s, step))
    requires EndsUndone(p, Apply(p, s, step), rest)
    ensures EndsUndone(p, s, [step] + rest)
  {
    assert ([step] + rest)[1..] == rest;
  }

  lemma ObservedUndone(p: Plan, s: Run)
    requires p == Plan([{}, {}], {}) && s.st == [[Success], [Initial]] && s.state.PlanRunning? && !s.errors
    requires s.active == {0} && (0, true) in s.posted
    ensures EndsUndone(p, s, [Observe(0, true)] + [])
  {
    var t := Apply(p, s, Observe(0, true));
    assert ReadyAfter(s.st, p.required, 0) == {};
    assert t.active == {} && t.st[1] == [Initial] && t.st[1][0].Initial?;
    assert HasInitial(t.st[1]) && EndsUndone(p, t, []);
    UndoneFirst(p, s, Observe(0, true), []);
  }

  lemma ResumedSteps(p: Plan, t: Run) returns (steps: seq<Step>)
    requires p == Plan([{}, {}], {}) && t.st == [[Initial], [Initial]] && t.launched == {0} == t.active
    requires t.launched <= t.touched && t.state.PlanRunning? && !t.errors
    ensures EndsUndone(p, t, steps)
  {
    var t1 := Apply(p, t, Work(0, 0, Success));
    assert t.st[0][0 := Success] == [Success] && t1.st == [[Success], [Initial]];
    var t2 := Apply(p, t1, Post(0, true));
    var last := [Observe(0, true)] + [];
    ObservedUndone(p, t2);
    UndoneFirst(p, t1, Post(0, true), last);
    UndoneFirst(p, t, Work(0, 0, Success), [Post(0, true)] + last);
    steps := [Work(0, 0, Success)] + ([Post(0, true)] + last);
  }

  /** A fresh plan of two phases without requirements. */
  ghost function TwoPhases(): Run {
    Run([[Initial], [Initial]], PlanInitial, {}, {}, {}, false, {}, {})
  }

  lemma FailedRun(p: Plan, s: Run) returns (steps: seq<Step>)
    requires p == Plan([{}, {}], {}) && s == TwoPhases()
    ensures IsFresh(p, s) && Possible(p, s, steps)
    ensures var u := Execute(p, s, steps); u.state.PlanFailed? && u.st == [[Failed], [Initial]]
  {
    FirstBegin(p, s);
    var rest := FailingSteps(p, Apply(p, s, Begin));
    PossibleFirst(p, s, Begin, rest);
    steps := [Begin] + rest;
  }

  /**
   * After a failure, a phase without requirements that was launched but not begun is not launched again:
   * the resumed run ends without an error although a task never ran.
   */
  lemma ResumeLeavesTaskBehind() returns (p: Plan, s: Run, before: seq<Step>, u: Run, steps: seq<Step>)
    ensures GoodPlan(p) && IsFresh(p, s) && Possible(p, s, before) && u == Execute(p, s, before)
    ensures Enabled(p, u, Begin) && Shaped(p, Begun(p, u)) && EndsUndone(p, Begun(p, u), steps)
  {
    p, s := Plan([{}, {}], {}), TwoPhases();
    before := FailedRun(p, s);
    u := Execute(p, s, before);
    SecondBegin(p, u);
    ApplyShape(p, u, Begin);
    steps := ResumedSteps(p, Begun(p, u));
  }
}
