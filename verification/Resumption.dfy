/** Resumed runs that build the requirements anew, because items were deleted since the run before. */
module Resumptions {
  import opened Tasks
  import opened Scheduler
  import opened PhaseDag
  import Completeness

  // ---------- one run, from any state ----------

  /** What a phase of this run requires, directly or not, is complete, also if the phase was complete before. */
  ghost predicate InOrder(p: Plan, t: Run) {
    forall j: nat, k: nat :: (j in t.launched || j in t.doneAtStart) && Reach(p.required, j, k) ==> Complete(t.st, k)
  }

  /** Each phase that is complete or has failed has complete requirements. */
  ghost predicate SettledInOrder(p: Plan, s: Run)
    requires Shaped(p, s)
  {
    forall k, r :: 0 <= k < |s.st| && (AllSuccess(s.st[k]) || HasFailed(s.st[k])) && r in p.required[k] ==>
      Complete(s.st, r)
  }

  /** The phases of this run have complete direct requirements, and a complete phase is one of them. */
  ghost predicate Accounted(p: Plan, t: Run)
    requires Shaped(p, t)
  {
    && (forall k :: k in t.launched || k in t.doneAtStart ==> 0 <= k < |t.st|)
    && (forall k, r :: (k in t.launched || k in t.doneAtStart) && k < |t.st| && r in p.required[k] ==>
      Complete(t.st, r))
    && (forall k :: 0 <= k < |t.st| && AllSuccess(t.st[k]) ==> k in t.launched || k in t.doneAtStart)
  }

  lemma {:induction false} AccountedReach(p: Plan, t: Run, j: nat, k: nat)
    requires Shaped(p, t) && Accounted(p, t) && (j in t.launched || j in t.doneAtStart) && Reach(p.required, j, k)
    ensures Complete(t.st, k)
    decreases j
  {
    var m :| m in p.required[j] && m < j && (m == k || Reach(p.required, m, k));
    assert Complete(t.st, m);
    if m != k {
      AccountedReach(p, t, m, k);
    }
  }

  lemma BegunPhase(p: Plan, s: Run, k: nat)
    requires Shaped(p, s) && k < |s.st|
    ensures Shaped(p, Begun(p, s))
    ensures k in Begun(p, s).doneAtStart <==> AllSuccess(s.st[k])
    ensures k in Begun(p, s).launched ==> HasFailed(s.st[k]) || Startable(Reset(s.st), p.required, k)
    ensures k !in Begun(p, s).launched ==> Begun(p, s).st[k] == Reset(s.st)[k]
    ensures k !in p.cleanup ==> Begun(p, s).st[k] == Reset(s.st)[k]
    ensures AllSuccess(Reset(s.st)[k]) <==> AllSuccess(s.st[k])
  {
    ApplyShape(p, s, Begin);
    Completeness.ResetKeeps(s.st[k], s.st, k);
    if AllSuccess(s.st[k]) {
      assert Reset(s.st)[k] == s.st[k];
    }
  }

  lemma BegunAccounted(p: Plan, s: Run)
    requires Shaped(p, s) && SettledInOrder(p, s)
    ensures Shaped(p, Begun(p, s)) && Accounted(p, Begun(p, s))
  {
    var t := Begun(p, s);
    BegunInOrder(p, s);
    FailedStayInOrder(p, s);
    forall k, r | (k in t.launched || k in t.doneAtStart) && k < |t.st| && r in p.required[k]
      ensures Complete(t.st, r)
    {
      BegunPhase(p, s, k);
      if k !in t.launched {
        CompleteStays(s.st, t.st, r);
      }
    }
    forall k | 0 <= k < |t.st| && AllSuccess(t.st[k])
      ensures k in t.launched || k in t.doneAtStart
    {
      BegunPhase(p, s, k);
    }
  }

  /** Only a launch or the work on a launched phase changes the state of a phase. */
  lemma LoopLeavesOthers(p: Plan, t: Run, step: Step, k: nat)
    requires Shaped(p, t) && Enabled(p, t, step) && Completeness.InLoop(t, step) && k < |t.st|
    ensures Shaped(p, Apply(p, t, step)) && t.launched <= Apply(p, t, step).launched
    ensures Apply(p, t, step).doneAtStart == t.doneAtStart
    ensures k !in Apply(p, t, step).launched ==> Apply(p, t, step).st[k] == t.st[k]
    ensures k in Apply(p, t, step).launched ==> k in t.launched || Startable(t.st, p.required, k)
  {
    ApplyShape(p, t, step);
  }

  lemma StepAccounted(p: Plan, t: Run, step: Step)
    requires Shaped(p, t) && Accounted(p, t) && Enabled(p, t, step) && Completeness.InLoop(t, step)
    ensures Shaped(p, Apply(p, t, step)) && Accounted(p, Apply(p, t, step))
  {
    var u := Apply(p, t, step);
    ApplyShape(p, t, step);
    StepKeepsSuccess(p, t, step);
    forall k, r | (k in u.launched || k in u.doneAtStart) && k < |u.st| && r in p.required[k]
      ensures Complete(u.st, r)
    {
      LoopLeavesOthers(p, t, step, k);
      assert Complete(t.st, r);
      CompleteStays(t.st, u.st, r);
    }
    forall k | 0 <= k < |u.st| && AllSuccess(u.st[k])
      ensures k in u.launched || k in u.doneAtStart
    {
      LoopLeavesOthers(p, t, step, k);
    }
  }

  lemma {:induction false} LoopAccounted(p: Plan, t: Run, steps: seq<Step>)
    requires Shaped(p, t) && Accounted(p, t) && Completeness.Looping(p, t, steps)
    ensures Accounted(p, Execute(p, t, steps))
    decreases |steps|
  {
    if steps != [] {
      StepAccounted(p, t, steps[0]);
      LoopAccounted(p, Apply(p, t, steps[0]), steps[1..]);
    }
  }

  lemma SettledRunIsInOrder(p: Plan, s: Run, steps: seq<Step>)
    requires Shaped(p, s) && Shaped(p, Begun(p, s)) && SettledInOrder(p, s)
    requires Completeness.Looping(p, Begun(p, s), steps)
    ensures InOrder(p, Execute(p, Begun(p, s), steps))
  {
    var t := Execute(p, Begun(p, s), steps);
    BegunAccounted(p, s);
    LoopAccounted(p, Begun(p, s), steps);
    forall j: nat, k: nat | (j in t.launched || j in t.doneAtStart) && Reach(p.required, j, k)
      ensures Complete(t.st, k)
    {
      AccountedReach(p, t, j, k);
    }
  }

  /** Right after the start, the phases complete or failed before are in order only if they were. */
  lemma InOrderIsSettled(p: Plan, s: Run)
    requires Shaped(p, s) && Completeness.GoodPlan(p) && InOrder(p, Begun(p, s))
    ensures SettledInOrder(p, s)
  {
    var t := Begun(p, s);
    forall k, r | 0 <= k < |s.st| && (AllSuccess(s.st[k]) || HasFailed(s.st[k])) && r in p.required[k]
      ensures Complete(s.st, r)
    {
      BegunPhase(p, s, k);
      assert k in t.launched || k in t.doneAtStart;
      assert Reach(p.required, k, r);
      assert Complete(t.st, r);
      BegunPhase(p, s, r);
    }
  }

  /** However the loop goes on from `t`, its phases are in order. */
  ghost predicate AlwaysInOrder(p: Plan, t: Run)
    requires Shaped(p, t)
  {
    forall steps: seq<Step> :: Completeness.Looping(p, t, steps) ==> InOrder(p, Execute(p, t, steps))
  }

  lemma SettledIsAlwaysInOrder(p: Plan, s: Run)
    requires Shaped(p, s) && Shaped(p, Begun(p, s)) && SettledInOrder(p, s)
    ensures AlwaysInOrder(p, Begun(p, s))
  {
    forall steps: seq<Step> | Completeness.Looping(p, Begun(p, s), steps)
      ensures InOrder(p, Execute(p, Begun(p, s), steps))
    {
      SettledRunIsInOrder(p, s, steps);
    }
  }

  lemma AlwaysInOrderAtFirst(p: Plan, t: Run)
    requires Shaped(p, t) && AlwaysInOrder(p, t)
    ensures InOrder(p, t)
  {
    var none: seq<Step> := [];
    assert Completeness.Looping(p, t, none) && Execute(p, t, none) == t;
  }

  /**
   * From any state, and so after any runs under other requirements: in every state of the run, what its phases
   * require, directly or not, is complete, exactly if the phases that are complete or failed at the start have
   * complete requirements. The loop checks the phases that it launches, and no others.
   */
  lemma RunIsInOrder(p: Plan, s: Run)
    requires Shaped(p, s) && Completeness.GoodPlan(p) && Shaped(p, Begun(p, s))
    ensures AlwaysInOrder(p, Begun(p, s)) <==> SettledInOrder(p, s)
  {
    if SettledInOrder(p, s) {
      SettledIsAlwaysInOrder(p, s);
    }
    if AlwaysInOrder(p, Begun(p, s)) {
      AlwaysInOrderAtFirst(p, Begun(p, s));
      InOrderIsSettled(p, s);
    }
  }

  /** Then a suffix phase of the resumed run waits for every phase before it, where the barrier is complete. */
  lemma SuffixWaitsAgain(ids: seq<string>, reqs: seq<set<string>>, a: nat, b: nat, p: Plan, s: Run, steps: seq<Step>,
                         j: nat, k: nat)
    requires Sectioned(ids, reqs, a, b) && p.required == Required(ids, reqs)
    requires a < b <= j < |ids| && (Unlisted(ids, reqs, b) || NeedsAll(ids, reqs, a, b))
    requires Shaped(p, s) && Shaped(p, Begun(p, s)) && SettledInOrder(p, s) &&
      Completeness.Looping(p, Begun(p, s), steps)
    requires j in Execute(p, Begun(p, s), steps).launched && k < j
    ensures Complete(Execute(p, Begun(p, s), steps).st, k)
  {
    SettledRunIsInOrder(p, s, steps);
    SuffixBarrier(ids, reqs, a, b, j);
    assert Reach(p.required, j, k);
  }

  // ---------- a run that is not in order ----------

  /** Two clusters, and a phase after both. */
  lemma RequiredBefore(reqs: seq<set<string>>)
    requires reqs == [{}, {}, {}]
    ensures Required(["a", "b", ""], reqs) == [{}, {}, {0, 1}]
  {
    var ids := ["a", "b", ""];
    assert TablesAt(ids, reqs, 0) == Tables([], map[], {});
    var t1 := Round(ids, reqs, 0, TablesAt(ids, reqs, 0));
    assert TablesAt(ids, reqs, 1) == t1 == Tables([{}], map["a" := 0], {});
    var t2 := Round(ids, reqs, 1, t1);
    assert TablesAt(ids, reqs, 2) == t2 && t2.required == [{}, {}] && t2.ends == map["a" := 0, "b" := 1] &&
      t2.extended == {};
    assert t2.ends["a"] == 0 && t2.ends["b"] == 1 && OpenEnds(t2.ends, {}) == {0, 1};
    var t3 := Round(ids, reqs, 2, t2);
    assert TablesAt(ids, reqs, 3) == t3 && t3.required == [{}, {}] + [{1} + {0, 1}];
    assert {1} + {0, 1} == {0, 1};
  }

  /** The same phases once the items of the second cluster's phase are deleted. */
  lemma RequiredAfter(reqs: seq<set<string>>)
    requires reqs == [{}, {}, {}]
    ensures Required(["a", "", ""], reqs) == [{}, {0}, {1}]
  {
    var ids := ["a", "", ""];
    assert TablesAt(ids, reqs, 0) == Tables([], map[], {});
    var t1 := Round(ids, reqs, 0, TablesAt(ids, reqs, 0));
    assert TablesAt(ids, reqs, 1) == t1 == Tables([{}], map["a" := 0], {});
    assert t1.ends["a"] == 0 && OpenEnds(t1.ends, {}) == {0};
    var t2 := Round(ids, reqs, 1, t1);
    assert TablesAt(ids, reqs, 2) == t2 && t2.required == [{}] + [{0} + {0}];
    assert {0} + {0} == {0};
    var t3 := Round(ids, reqs, 2, t2);
    assert TablesAt(ids, reqs, 3) == t3 && t3.required == t2.required + [{1}];
  }

  /** The steps are possible from `s`, and end in a failed plan with the given states. */
  ghost predicate FailsWith(p: Plan, s: Run, steps: seq<Step>, st: States) {
    Shaped(p, s) && Possible(p, s, steps) && var u := Execute(p, s, steps); u.state.PlanFailed? && u.st == st
  }

  lemma FailsFirst(p: Plan, s: Run, step: Step, rest: seq<Step>, st: States)
    requires Shaped(p, s) && Enabled(p, s, step) && FailsWith(p, Apply(p, s, step), rest, st)
    ensures FailsWith(p, s, [step] + rest, st)
  {
    Completeness.PossibleFirst(p, s, step, rest);
  }

  /** The first phase fails, the second one succeeds, the third one waits for both. */
  ghost predicate Waits(p: Plan, s: Run) {
    && p == Plan([{}, {}, {0, 1}], {}) && s.state.PlanRunning? && !s.errors
    && s.st == [[Failed], [Success], [Initial]]
  }

  lemma FinishWaits(p: Plan, s: Run)
    requires Waits(p, s.(errors := false)) && s.active == {}
    ensures FailsWith(p, s, [Finish] + [], [[Failed], [Success], [Initial]])
  {
    var r := FailRunning(s.st);
    assert r[0] == [Failed] && r[1] == [Success] && r[2] == [Initial] && r == s.st;
    assert s.st[0][0].Failed? && !AllSuccess(s.st[0]);
    FailsFirst(p, s, Finish, [], s.st);
  }

  lemma ObserveBoth(p: Plan, s: Run) returns (steps: seq<Step>)
    requires Waits(p, s) && s.active == {0, 1} && (1, true) in s.posted && (0, false) in s.posted
    ensures FailsWith(p, s, steps, [[Failed], [Success], [Initial]])
  {
    assert s.st[0][0].Failed? && !Complete(s.st, 0);
    assert ReadyAfter(s.st, p.required, 1) == {};
    var s1 := Apply(p, s, Observe(1, true));
    assert s1.st == s.st && s1.active == {0};
    var s2 := Apply(p, s1, Observe(0, false));
    assert s2.st == s.st && s2.active == {};
    FinishWaits(p, s2);
    var rest := [Observe(0, false)] + ([Finish] + []);
    FailsFirst(p, s1, Observe(0, false), [Finish] + [], s.st);
    FailsFirst(p, s, Observe(1, true), rest, s.st);
    steps := [Observe(1, true)] + rest;
  }

  lemma WorkAndPost(p: Plan, s: Run) returns (steps: seq<Step>)
    requires p == Plan([{}, {}, {0, 1}], {}) && s.st == [[Initial], [Initial], [Initial]] && s.state.PlanRunning? &&
      !s.errors
    requires s.launched == {0, 1} == s.active && s.launched <= s.touched
    ensures FailsWith(p, s, steps, [[Failed], [Success], [Initial]])
  {
    var s1 := Apply(p, s, Work(0, 0, Failed));
    assert s.st[0][0 := Failed] == [Failed] && s1.st == [[Failed], [Initial], [Initial]];
    var s2 := Apply(p, s1, Work(1, 0, Success));
    assert s1.st[1][0 := Success] == [Success] && s2.st == [[Failed], [Success], [Initial]];
    var s3 := Apply(p, s2, Post(0, false));
    var s4 := Apply(p, s3, Post(1, true));
    var r4 := ObserveBoth(p, s4);
    FailsFirst(p, s3, Post(1, true), r4, s4.st);
    var r3 := [Post(1, true)] + r4;
    FailsFirst(p, s2, Post(0, false), r3, s4.st);
    var r2 := [Post(0, false)] + r3;
    FailsFirst(p, s1, Work(1, 0, Success), r2, s4.st);
    var r1 := [Work(1, 0, Success)] + r2;
    FailsFirst(p, s, Work(0, 0, Failed), r1, s4.st);
    steps := [Work(0, 0, Failed)] + r1;
  }

  ghost function ThreePhases(): Run {
    Run([[Initial], [Initial], [Initial]], PlanInitial, {}, {}, {}, false, {}, {})
  }

  lemma FirstReady(st: States, required: seq<set<nat>>)
    requires st == [[Initial], [Initial], [Initial]] && required == [{}, {}, {0, 1}]
    ensures Reset(st) == st && FailedPhases(st) == {} && ReadyAtStart(st, required, {}) == {0, 1}
  {
    var r := Reset(st);
    assert r[0] == [Initial] && r[1] == [Initial] && r[2] == [Initial] && r == st;
    assert st[0][0].Initial? && st[1][0].Initial? && st[2][0].Initial?;
    assert !AllSuccess(st[0]) && !AllSuccess(st[1]) && !AllSuccess(st[2]);
    assert Startable(st, required, 0) && Startable(st, required, 1);
    assert 0 in required[2] && !Complete(st, 0) && !Startable(st, required, 2);
  }

  lemma FirstStart(p: Plan, s: Run)
    requires p == Plan([{}, {}, {0, 1}], {}) && s == ThreePhases()
    ensures Shaped(p, s) && Shaped(p, Begun(p, s))
    ensures var t := Begun(p, s); t.st == s.st && t.state.PlanRunning? && !t.errors
    ensures var t := Begun(p, s); t.launched == {0, 1} == t.active && t.launched <= t.touched
  {
    ApplyShape(p, s, Begin);
    FirstReady(s.st, p.required);
    var t := Begun(p, s);
    assert t.st[0] == s.st[0] && t.st[1] == s.st[1] && t.st[2] == s.st[2] && t.st == s.st;
  }

  lemma FirstRun(p: Plan, s: Run) returns (steps: seq<Step>)
    requires p == Plan([{}, {}, {0, 1}], {}) && s == ThreePhases()
    ensures IsFresh(p, s) && FailsWith(p, s, steps, [[Failed], [Success], [Initial]])
  {
    FirstStart(p, s);
    var rest := WorkAndPost(p, Begun(p, s));
    FailsFirst(p, s, Begin, rest, [[Failed], [Success], [Initial]]);
    steps := [Begin] + rest;
  }

  lemma SecondReady(st: States, required: seq<set<nat>>)
    requires st == [[Failed], [Success], [Initial]] && required == [{}, {0}, {1}]
    ensures FailedPhases(st) == {0} && !AllSuccess(st[0]) && AllSuccess(st[1])
    ensures var r := Reset(st); 2 in ReadyAtStart(r, required, {0}) && !AllSuccess(r[0])
  {
    var r := Reset(st);
    assert r[0] == [Initial] && r[1] == [Success] && r[2] == [Initial];
    assert st[0][0].Failed? && st[1][0].Success? && st[2][0].Initial? && r[0][0].Initial? && r[2][0].Initial?;
    assert Complete(r, 1) && Startable(r, required, 2) && 2 in ReadyAfter(r, required, 1);
  }

  lemma SecondRun(p: Plan, u: Run)
    requires p == Plan([{}, {0}, {1}], {}) && u.st == [[Failed], [Success], [Initial]]
    ensures Shaped(p, u) && Shaped(p, Begun(p, u)) && FailedInOrder(p, u) && !SettledInOrder(p, u)
    ensures 2 in Begun(p, u).launched && Reach(p.required, 2, 0) && !Complete(Begun(p, u).st, 0)
  {
    ApplyShape(p, u, Begin);
    SecondReady(u.st, p.required);
    assert 0 in p.required[1] && !Complete(u.st, 0);
    assert Reach(p.required, 1, 0) && 1 in p.required[2];
    BegunPhase(p, u, 0);
  }

  /**
   * A run fails in the first of two clusters. The other cluster is done, and its items are deleted. The resumed run
   * starts the phase after both at once, before the failed phase, although it requires it before and after.
   */
  lemma SuffixStartsEarly() returns (ids0: seq<string>, ids: seq<string>, p0: Plan, s: Run, steps: seq<Step>, p: Plan)
    ensures var none: set<string> := {}; var reqs := [none, none, none];
      ids0 == ["a", "b", ""] && ids == ["a", "", ""] && p0.required == Required(ids0, reqs) &&
        p.required == Required(ids, reqs)
    ensures Barrier(p0.required, 2) && Barrier(p.required, 2)
    ensures IsFresh(p0, s) && Possible(p0, s, steps)
    ensures var u := Execute(p0, s, steps);
      Complete(u.st, 1) && Enabled(p, u, Begin) && Shaped(p, u) && FailedInOrder(p, u) && !SettledInOrder(p, u) &&
      2 in Begun(p, u).launched && !Complete(Begun(p, u).st, 0)
  {
    ids0, ids := ["a", "b", ""], ["a", "", ""];
    p0, p, s := Plan([{}, {}, {0, 1}], {}), Plan([{}, {0}, {1}], {}), ThreePhases();
    RequiredBefore([{}, {}, {}]);
    RequiredAfter([{}, {}, {}]);
    steps := FirstRun(p0, s);
    var u := Execute(p0, s, steps);
    assert AllSuccess(u.st[1]);
    SecondRun(p, u);
    assert 0 in p0.required[2] && 1 in p0.required[2] && Reach(p0.required, 2, 0) && Reach(p0.required, 2, 1);
    assert 1 in p.required[2] && Reach(p.required, 2, 1);
  }

  // ---------- runs under requirements of their own ----------

  /** The steps of one run, with what its start finds: the cluster ids of the phases and the clusters they list. */
  datatype Session = Session(ids: seq<string>, reqs: seq<set<string>>, cleanup: set<nat>, steps: seq<Step>)

  ghost function PlanOf(c: Session): Plan
    requires |c.ids| == |c.reqs|
  {
    Plan(Required(c.ids, c.reqs), c.cleanup)
  }

  ghost predicate Opens(s: Run, c: Session) {
    |c.ids| == |c.reqs| && Shaped(PlanOf(c), s) && Possible(PlanOf(c), s, c.steps)
  }

  /** The state at the end of a session. */
  ghost function After(s: Run, c: Session): Run
    requires Opens(s, c)
  {
    Execute(PlanOf(c), s, c.steps)
  }

  ghost predicate PossibleAll(s: Run, sessions: seq<Session>)
    decreases |sessions|
  {
    sessions == [] || (Opens(s, sessions[0]) && PossibleAll(After(s, sessions[0]), sessions[1..]))
  }

  /** The state after all sessions, the last of which may be under way. */
  ghost function ExecuteAll(s: Run, sessions: seq<Session>): Run
    requires PossibleAll(s, sessions)
    decreases |sessions|
  {
    if sessions == [] then s else ExecuteAll(After(s, sessions[0]), sessions[1..])
  }

  /** The unfinished phases from `lo` to `hi` have one cluster id; those of finished phases are free. */
  ghost predicate OneCluster(st: States, ids: seq<string>, lo: nat, hi: nat) {
    hi <= |ids| == |st| &&
    forall j, k :: lo <= j < k < hi && !Complete(st, j) && !Complete(st, k) ==> ids[j] == ids[k]
  }

  ghost predicate InOneCluster(s: Run, sessions: seq<Session>, lo: nat, hi: nat)
    requires PossibleAll(s, sessions)
    decreases |sessions|
  {
    sessions == [] ||
    (OneCluster(s.st, sessions[0].ids, lo, hi) && InOneCluster(After(s, sessions[0]), sessions[1..], lo, hi))
  }

  /** Of two neighbours that are both unfinished, the later requires the earlier. */
  ghost predicate Chained(p: Plan, st: States, lo: nat, hi: nat) {
    hi <= |st| == |p.required| &&
    forall k :: lo < k < hi && !Complete(st, k - 1) && !Complete(st, k) ==> k - 1 in p.required[k]
  }

  lemma OneClusterIsChained(c: Session, st: States, lo: nat, hi: nat)
    requires |c.ids| == |c.reqs| && OneCluster(st, c.ids, lo, hi)
    ensures Chained(PlanOf(c), st, lo, hi)
  {
    forall k | lo < k < hi && !Complete(st, k - 1) && !Complete(st, k)
      ensures k - 1 in Required(c.ids, c.reqs)[k]
    {
      DirectContinued(c.ids, c.reqs, k);
    }
  }

  lemma WasIncomplete(a: States, b: States, k: nat)
    requires KeepsSuccess(a, b) && !Complete(b, k)
    ensures !Complete(a, k)
  {
  }

  lemma ChainedGrows(p: Plan, a: States, b: States, lo: nat, hi: nat)
    requires KeepsSuccess(a, b) && Chained(p, a, lo, hi)
    ensures Chained(p, b, lo, hi)
  {
    forall k | lo < k < hi && !Complete(b, k - 1) && !Complete(b, k)
      ensures k - 1 in p.required[k]
    {
      WasIncomplete(a, b, k - 1);
      WasIncomplete(a, b, k);
    }
  }

  lemma ChainedStays(p: Plan, s: Run, step: Step, lo: nat, hi: nat)
    requires Shaped(p, s) && Enabled(p, s, step) && Chained(p, s.st, lo, hi)
    ensures Shaped(p, Apply(p, s, step)) && Chained(p, Apply(p, s, step).st, lo, hi)
  {
    ApplyShape(p, s, step);
    StepKeepsSuccess(p, s, step);
    ChainedGrows(p, s.st, Apply(p, s, step).st, lo, hi);
  }

  /** Phases never launched in any run are untouched. */
  ghost predicate Recorded(s: Run) {
    && (forall k :: k in s.touched ==> 0 <= k < |s.st|) && s.launched <= s.touched
    && forall k :: 0 <= k < |s.st| && k !in s.touched ==> s.st[k] != [] && Untouched(s, k)
  }

  /** From `lo` to `hi`, a phase launched in any run has everything before it complete. */
  ghost predicate OneByOne(s: Run, lo: nat, hi: nat) {
    Recorded(s) && forall i: nat, j: nat :: lo <= i < j < hi && j in s.touched ==> Complete(s.st, i)
  }

  lemma CompleteIsTouched(s: Run, k: nat)
    requires Recorded(s) && k < |s.st|
    ensures Complete(s.st, k) ==> k in s.touched
  {
    if k !in s.touched {
      assert s.st[k] != [] && Untouched(s, k);
      assert s.st[k][0].Initial?;
    }
  }

  /** The phase before one that may be launched is complete, and so is everything before it. */
  lemma ReadyInTurn(p: Plan, s: Run, lo: nat, hi: nat, i: nat, j: nat)
    requires Shaped(p, s) && OneByOne(s, lo, hi) && Chained(p, s.st, lo, hi) && lo <= i < j < hi
    requires HasInitial(s.st[j]) && forall r :: r in p.required[j] ==> Complete(s.st, r)
    ensures Complete(s.st, i)
  {
    assert !Complete(s.st, j);
    assert Complete(s.st, j - 1);
    CompleteIsTouched(s, j - 1);
  }

  lemma LaunchRecords(p: Plan, s: Run, ready: set<nat>)
    requires Recorded(s) && forall k :: k in ready ==> k < |s.st|
    ensures Recorded(Launch(p, s, ready))
    ensures KeepsSuccess(s.st, Launch(p, s, ready).st)
  {
    var t := Launch(p, s, ready);
    forall k | 0 <= k < |t.st| && k !in t.touched
      ensures t.st[k] != [] && Untouched(t, k)
    {
      assert t.st[k] == s.st[k] && Untouched(s, k);
    }
  }

  lemma ResetStartable(p: Plan, s: Run, j: nat)
    requires Shaped(p, s) && j < |s.st| && !HasFailed(s.st[j]) && Startable(Reset(s.st), p.required, j)
    ensures HasInitial(s.st[j]) && forall r :: r in p.required[j] ==> Complete(s.st, r)
  {
    Completeness.ResetKeeps(s.st[j], s.st, j);
    forall r | r in p.required[j]
      ensures Complete(s.st, r)
    {
      assert Complete(Reset(s.st), r);
      Completeness.ResetKeeps(s.st[r], s.st, r);
    }
  }

  lemma BegunOneByOne(p: Plan, s: Run, lo: nat, hi: nat)
    requires Shaped(p, s) && OneByOne(s, lo, hi) && Chained(p, s.st, lo, hi)
    ensures OneByOne(Begun(p, s), lo, hi)
  {
    var t := Begun(p, s);
    BegunRecords(p, s);
    BegunInOrder(p, s);
    forall i: nat, j: nat | lo <= i < j < hi && j in t.touched
      ensures Complete(t.st, i)
    {
      if j !in s.touched {
        BegunPhase(p, s, j);
        assert s.st[j] != [] && Untouched(s, j);
        assert j in t.launched && !HasFailed(s.st[j]);
        ResetStartable(p, s, j);
        ReadyInTurn(p, s, lo, hi, i, j);
      }
      CompleteStays(s.st, t.st, i);
    }
  }

  lemma BegunRecords(p: Plan, s: Run)
    requires Shaped(p, s) && Recorded(s)
    ensures Recorded(Begun(p, s)) && Begun(p, s).touched == s.touched + Begun(p, s).launched
  {
    var st := Reset(s.st);
    var s1 := s.(st := st, state := PlanRunning, launched := {}, active := {}, posted := {}, errors := false,
                 doneAtStart := set k | 0 <= k < |st| && AllSuccess(st[k]));
    forall k | 0 <= k < |st| && k !in s.touched
      ensures st[k] != [] && Untouched(s1, k)
    {
      assert Untouched(s, k);
    }
    assert Recorded(s1);
    LaunchRecords(p, s1, ReadyAtStart(st, p.required, FailedPhases(s.st)));
  }

  lemma ObservedOneByOne(p: Plan, s: Run, lo: nat, hi: nat, c: nat, ok: bool)
    requires Shaped(p, s) && OneByOne(s, lo, hi) && Chained(p, s.st, lo, hi)
    ensures OneByOne(Apply(p, s, Observe(c, ok)), lo, hi)
  {
    var t := Apply(p, s, Observe(c, ok));
    var s1 := s.(active := s.active - {c}, errors := s.errors || !ok);
    assert forall k :: 0 <= k < |s.st| && Untouched(s, k) ==> Untouched(s1, k);
    assert Recorded(s1);
    if !s1.errors {
      var ready := ReadyAfter(s.st, p.required, c);
      LaunchRecords(p, s1, ready);
      forall i: nat, j: nat | lo <= i < j < hi && j in t.touched
        ensures Complete(t.st, i)
      {
        if j !in s.touched {
          assert Startable(s.st, p.required, j);
          ReadyInTurn(p, s, lo, hi, i, j);
        }
        CompleteStays(s.st, t.st, i);
      }
    }
  }

  lemma StepOneByOne(p: Plan, s: Run, lo: nat, hi: nat, step: Step)
    requires Shaped(p, s) && Enabled(p, s, step) && OneByOne(s, lo, hi) && Chained(p, s.st, lo, hi)
    ensures OneByOne(Apply(p, s, step), lo, hi)
  {
    match step
    case Begin => BegunOneByOne(p, s, lo, hi);
    case Observe(c, ok) => ObservedOneByOne(p, s, lo, hi, c, ok);
    case _ =>
      var t := Apply(p, s, step);
      StepKeepsSuccess(p, s, step);
      forall k | 0 <= k < |t.st| && k !in t.touched
        ensures t.st[k] != [] && Untouched(t, k)
      {
        assert Untouched(s, k);
      }
      forall i: nat, j: nat | lo <= i < j < hi && j in t.touched
        ensures Complete(t.st, i)
      {
        CompleteStays(s.st, t.st, i);
      }
  }

  lemma {:induction false} StepsOneByOne(p: Plan, s: Run, lo: nat, hi: nat, steps: seq<Step>)
    requires Shaped(p, s) && Possible(p, s, steps) && OneByOne(s, lo, hi) && Chained(p, s.st, lo, hi)
    ensures OneByOne(Execute(p, s, steps), lo, hi)
    decreases |steps|
  {
    if steps != [] {
      StepOneByOne(p, s, lo, hi, steps[0]);
      ChainedStays(p, s, steps[0], lo, hi);
      StepsOneByOne(p, Apply(p, s, steps[0]), lo, hi, steps[1..]);
    }
  }

  lemma {:induction false} SessionsOneByOne(s: Run, sessions: seq<Session>, lo: nat, hi: nat)
    requires PossibleAll(s, sessions) && InOneCluster(s, sessions, lo, hi) && OneByOne(s, lo, hi)
    ensures OneByOne(ExecuteAll(s, sessions), lo, hi)
    decreases |sessions|
  {
    if sessions != [] {
      var c := sessions[0];
      OneClusterIsChained(c, s.st, lo, hi);
      StepsOneByOne(PlanOf(c), s, lo, hi, c.steps);
      SessionsOneByOne(After(s, c), sessions[1..], lo, hi);
    }
  }

  lemma FreshOneByOne(p: Plan, s: Run, lo: nat, hi: nat)
    requires IsFresh(p, s)
    ensures OneByOne(s, lo, hi)
  {
    forall k | 0 <= k < |s.st|
      ensures s.st[k] != [] && Untouched(s, k)
    {
    }
  }

  /**
   * Over any number of runs, each with requirements built from the cluster ids of the day: the phases of a stretch
   * start one by one, each after all before it are complete, as long as its unfinished phases have one cluster id.
   */
  lemma StretchesRunOneByOne(p: Plan, s: Run, sessions: seq<Session>, lo: nat, hi: nat, i: nat, j: nat)
    requires IsFresh(p, s) && PossibleAll(s, sessions) && InOneCluster(s, sessions, lo, hi)
    requires lo <= i < j < hi && j in ExecuteAll(s, sessions).touched
    ensures Complete(ExecuteAll(s, sessions).st, i)
  {
    FreshOneByOne(p, s, lo, hi);
    SessionsOneByOne(s, sessions, lo, hi);
  }
}
