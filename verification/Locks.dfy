/** Node locking: the bracketed phases of a cluster (`_get_cluster_phases`) and the locks held during runs. */
module Locks {
  import opened Tasks
  import opened PhaseDag
  import opened Scheduler
  import opened Resumptions
  import EndToEnd

  // ---------- the phases of a cluster's nodes ----------

  /** A node with the sorted phases of its node groups. */
  datatype NodePlan = NodePlan(node: string, phases: seq<Phase>)

  type LockTasks = map<string, (Task, Task)>

  /** `_lock_tasks_required` */
  predicate NeedsLock(n: NodePlan, lockTasks: LockTasks) {
    n.node in lockTasks && |n.phases| > 0
  }

  /** `_apply_lock_tasks`: the lock task, the phases, the unlock task. */
  function Bracket(n: NodePlan, lockTasks: LockTasks): seq<Phase>
    requires n.node in lockTasks
  {
    [[lockTasks[n.node].0]] + n.phases + [[lockTasks[n.node].1]]
  }

  function LockedPart(nodes: seq<NodePlan>, lockTasks: LockTasks): seq<Phase> {
    if nodes == [] then []
    else
      var last := nodes[|nodes| - 1];
      LockedPart(nodes[..|nodes| - 1], lockTasks) +
      (if NeedsLock(last, lockTasks) then Bracket(last, lockTasks) else [])
  }

  function UnlockedPart(nodes: seq<NodePlan>, lockTasks: LockTasks): seq<Phase> {
    if nodes == [] then []
    else
      var last := nodes[|nodes| - 1];
      UnlockedPart(nodes[..|nodes| - 1], lockTasks) + (if NeedsLock(last, lockTasks) then [] else last.phases)
  }

  /** The node phases of a cluster, locked sections first. */
  method ClusterNodePhases(nodes: seq<NodePlan>, lockTasks: LockTasks) returns (phases: seq<Phase>)
    ensures phases == LockedPart(nodes, lockTasks) + UnlockedPart(nodes, lockTasks)
  {
    var lockedNodePhases, unlockedNodePhases := [], [];
    for i := 0 to |nodes|
      invariant lockedNodePhases == LockedPart(nodes[..i], lockTasks)
      invariant unlockedNodePhases == UnlockedPart(nodes[..i], lockTasks)
    {
      assert nodes[..i + 1][..i] == nodes[..i];
      if NeedsLock(nodes[i], lockTasks) {
        lockedNodePhases := lockedNodePhases + Bracket(nodes[i], lockTasks);
      } else {
        unlockedNodePhases := unlockedNodePhases + nodes[i].phases;
      }
    }
    assert nodes[..|nodes|] == nodes;
    phases := lockedNodePhases + unlockedNodePhases;
  }

  /** The locked section of a node: its lock phase, its unlock phase, and between them its own phases. */
  datatype Section = Section(node: string, lockAt: nat, unlockAt: nat)

  /** The sections of the locked part, if it starts at phase `base` of the plan. */
  function SectionsOf(nodes: seq<NodePlan>, lockTasks: LockTasks, base: nat): (r: seq<Section>) {
    if nodes == [] then []
    else
      var front := nodes[..|nodes| - 1];
      var last := nodes[|nodes| - 1];
      var start := base + |LockedPart(front, lockTasks)|;
      SectionsOf(front, lockTasks, base)
      + (if NeedsLock(last, lockTasks) then [Section(last.node, start, start + |last.phases| + 1)] else [])
  }

  /** One section after the other, none empty, from phase `lo` up to phase `hi`. */
  ghost predicate InARow(sections: seq<Section>, lo: nat, hi: nat) {
    && (forall i :: 0 <= i < |sections| ==>
      lo <= sections[i].lockAt && sections[i].lockAt + 1 < sections[i].unlockAt < hi)
    && forall i, j :: 0 <= i < j < |sections| ==> sections[i].unlockAt < sections[j].lockAt
  }

  /** The section holds exactly the node's phases between its lock phase and its unlock phase. */
  ghost predicate Brackets(plan: seq<Phase>, c: Section, n: NodePlan, lockTasks: LockTasks) {
    && n.node in lockTasks && c.node == n.node && c.lockAt < c.unlockAt < |plan|
    && plan[c.lockAt] == [lockTasks[n.node].0] && plan[c.unlockAt] == [lockTasks[n.node].1]
    && plan[c.lockAt + 1..c.unlockAt] == n.phases
  }

  lemma {:induction false} SectionsAreInARow(nodes: seq<NodePlan>, lockTasks: LockTasks, base: nat)
    ensures InARow(SectionsOf(nodes, lockTasks, base), base, base + |LockedPart(nodes, lockTasks)|)
  {
    if nodes != [] {
      SectionsAreInARow(nodes[..|nodes| - 1], lockTasks, base);
    }
  }

  /** The phases of a plan around the locked part of a cluster. */
  function PlanAround(before: seq<Phase>, nodes: seq<NodePlan>, lockTasks: LockTasks, after: seq<Phase>): seq<Phase> {
    before + LockedPart(nodes, lockTasks) + after
  }

  lemma PlanAroundSplits(before: seq<Phase>, nodes: seq<NodePlan>, lockTasks: LockTasks, after: seq<Phase>)
    requires nodes != []
    ensures var last := nodes[|nodes| - 1];
      var mine := if NeedsLock(last, lockTasks) then Bracket(last, lockTasks) else [];
      PlanAround(before, nodes, lockTasks, after) == PlanAround(before, nodes[..|nodes| - 1], lockTasks, mine + after)
  {
  }

  lemma LastBracket(before: seq<Phase>, nodes: seq<NodePlan>, lockTasks: LockTasks, after: seq<Phase>)
    requires nodes != [] && NeedsLock(nodes[|nodes| - 1], lockTasks)
    ensures var sections := SectionsOf(nodes, lockTasks, |before|);
      sections != [] && Brackets(PlanAround(before, nodes, lockTasks, after), sections[|sections| - 1],
        nodes[|nodes| - 1], lockTasks)
  {
    var last := nodes[|nodes| - 1];
    var head := before + LockedPart(nodes[..|nodes| - 1], lockTasks);
    var locked, unlocked := [lockTasks[last.node].0], [lockTasks[last.node].1];
    assert PlanAround(before, nodes, lockTasks, after) == head + [locked] + last.phases + [unlocked] + after;
    MiddlePart(head, locked, last.phases, unlocked, after);
  }

  lemma MiddlePart(head: seq<Phase>, first: Phase, middle: seq<Phase>, last: Phase, tail: seq<Phase>)
    ensures var plan := head + [first] + middle + [last] + tail;
      plan[|head|] == first && plan[|head| + 1..|head| + |middle| + 1] == middle && plan[|head| + |middle| + 1] == last
  {
  }

  /** Each section is exactly the bracketed phases of one node. */
  lemma {:induction false} SectionIsOneNode(before: seq<Phase>, nodes: seq<NodePlan>, lockTasks: LockTasks,
                                            after: seq<Phase>, i: nat)
    returns (n: NodePlan)
    requires i < |SectionsOf(nodes, lockTasks, |before|)|
    ensures n in nodes &&
      Brackets(PlanAround(before, nodes, lockTasks, after), SectionsOf(nodes, lockTasks, |before|)[i], n, lockTasks)
  {
    var front, last := nodes[..|nodes| - 1], nodes[|nodes| - 1];
    if i < |SectionsOf(front, lockTasks, |before|)| {
      var mine := if NeedsLock(last, lockTasks) then Bracket(last, lockTasks) else [];
      n := SectionIsOneNode(before, front, lockTasks, mine + after, i);
      PlanAroundSplits(before, nodes, lockTasks, after);
    } else {
      n := last;
      LastBracket(before, nodes, lockTasks, after);
    }
  }

  /** Each node that needs a lock has its section. */
  lemma {:induction false} NodeHasSection(before: seq<Phase>, nodes: seq<NodePlan>, lockTasks: LockTasks,
                                          after: seq<Phase>, n: NodePlan)
    returns (i: nat)
    requires n in nodes && n.node in lockTasks && n.phases != []
    ensures i < |SectionsOf(nodes, lockTasks, |before|)|
    ensures
      Brackets(PlanAround(before, nodes, lockTasks, after), SectionsOf(nodes, lockTasks, |before|)[i], n, lockTasks)
  {
    var front, last := nodes[..|nodes| - 1], nodes[|nodes| - 1];
    if n == last {
      LastBracket(before, nodes, lockTasks, after);
      i := |SectionsOf(nodes, lockTasks, |before|)| - 1;
    } else {
      var mine := if NeedsLock(last, lockTasks) then Bracket(last, lockTasks) else [];
      i := NodeHasSection(before, front, lockTasks, mine + after, n);
      PlanAroundSplits(before, nodes, lockTasks, after);
    }
  }

  /** A node has a section exactly if it has lock tasks and a phase. */
  lemma NeedsLockIs(n: NodePlan, lockTasks: LockTasks)
    ensures NeedsLock(n, lockTasks) <==> n.node in lockTasks && n.phases != []
  {
  }

  /** The phases of a node without a section stand together, behind all sections, in the order of the nodes. */
  lemma {:induction false} UnlockedNodePhases(nodes: seq<NodePlan>, lockTasks: LockTasks, i: nat)
    returns (before: seq<Phase>, after: seq<Phase>)
    requires i < |nodes| && (nodes[i].node !in lockTasks || nodes[i].phases == [])
    ensures UnlockedPart(nodes, lockTasks) == before + nodes[i].phases + after
    ensures before == UnlockedPart(nodes[..i], lockTasks)
  {
    var front, last := nodes[..|nodes| - 1], nodes[|nodes| - 1];
    NeedsLockIs(last, lockTasks);
    if i == |nodes| - 1 {
      before, after := UnlockedPart(front, lockTasks), [];
      assert front == nodes[..i] && (NeedsLock(last, lockTasks) ==> false);
    } else {
      before, after := UnlockedNodePhases(front, lockTasks, i);
      assert front[..i] == nodes[..i];
      var mine := if NeedsLock(last, lockTasks) then [] else last.phases;
      assert before + front[i].phases + after + mine == before + nodes[i].phases + (after + mine);
      after := after + mine;
    }
  }

  /** Nothing else is among them. */
  lemma {:induction false} UnlockedPhasesAreNodes(nodes: seq<NodePlan>, lockTasks: LockTasks, phase: Phase)
    requires phase in UnlockedPart(nodes, lockTasks)
    ensures exists n :: n in nodes && phase in n.phases && n.node !in lockTasks
  {
    var front, last := nodes[..|nodes| - 1], nodes[|nodes| - 1];
    if phase in UnlockedPart(front, lockTasks) {
      UnlockedPhasesAreNodes(front, lockTasks, phase);
      var n :| n in front && phase in n.phases && n.node !in lockTasks;
      assert n in nodes;
    } else {
      assert last in nodes && phase in last.phases;
      NeedsLockIs(last, lockTasks);
    }
  }

  // ---------- locks during runs ----------

  /** The sections of one cluster, between phases `lo` and `hi`. Lock and unlock phases hold one task each. */
  ghost predicate LockPlan(st: States, sections: seq<Section>, lo: nat, hi: nat) {
    && lo <= hi <= |st| && InARow(sections, lo, hi)
    && (forall i, j :: 0 <= i < j < |sections| ==> sections[i].node != sections[j].node)
    && forall i :: 0 <= i < |sections| ==> |st[sections[i].lockAt]| == 1 == |st[sections[i].unlockAt]|
  }

  /** No phase from `lo` to `hi` holds cleanup tasks. */
  ghost predicate NoCleanup(cleanup: set<nat>, lo: nat, hi: nat) {
    forall k :: lo <= k < hi ==> k !in cleanup
  }

  /** The `is_locked` marks after a step: a successful lock task sets its node's mark, an unlock task clears it. */
  ghost function Mark(sections: seq<Section>, locked: set<string>, step: Step): set<string> {
    if step.Work? && step.to.Success? then
      locked + (set i | 0 <= i < |sections| && sections[i].lockAt == step.phase :: sections[i].node)
      - (set i | 0 <= i < |sections| && sections[i].unlockAt == step.phase :: sections[i].node)
    else locked
  }

  /** The marks after the steps. */
  ghost function Marks(sections: seq<Section>, locked: set<string>, steps: seq<Step>): set<string>
    decreases |steps|
  {
    if steps == [] then locked else Marks(sections, Mark(sections, locked, steps[0]), steps[1..])
  }

  ghost predicate Done(st: States, k: nat) {
    k < |st| && |st[k]| == 1 && st[k][0].Success?
  }

  /** A node is marked exactly between the success of its lock task and that of its unlock task. */
  ghost predicate MarksAgree(st: States, sections: seq<Section>, locked: set<string>) {
    forall i :: 0 <= i < |sections| ==>
      (sections[i].node in locked <==> Done(st, sections[i].lockAt) && !Done(st, sections[i].unlockAt))
  }

  /** Outside cleanup phases only the work of a worker brings success. */
  lemma SuccessNeedsWork(p: Plan, s: Run, step: Step, k: nat)
    requires Shaped(p, s) && Enabled(p, s, step) && k < |s.st| && k !in p.cleanup && |s.st[k]| == 1
    requires !(step.Work? && step.phase == k && step.to.Success?)
    ensures Done(Apply(p, s, step).st, k) <==> Done(s.st, k)
  {
  }

  /** What comes before a phase of the stretch is complete once the phase is launched or has a success. */
  lemma BeforeIsDone(s: Run, lo: nat, hi: nat, a: nat, b: nat)
    requires OneByOne(s, lo, hi) && lo <= a < b < hi <= |s.st| && (b in s.touched || Done(s.st, b))
    ensures Complete(s.st, a)
  {
    CompleteIsTouched(s, b);
  }

  lemma LockMarked(p: Plan, s: Run, sections: seq<Section>, lo: nat, hi: nat, locked: set<string>, step: Step, i: nat)
    requires Shaped(p, s) && Enabled(p, s, step) && LockPlan(s.st, sections, lo, hi) && NoCleanup(p.cleanup, lo, hi)
    requires OneByOne(s, lo, hi) && MarksAgree(s.st, sections, locked) && i < |sections|
    ensures Shaped(p, Apply(p, s, step))
    ensures var t := Apply(p, s, step).st; sections[i].node in Mark(sections, locked, step) <==>
      Done(t, sections[i].lockAt) && !Done(t, sections[i].unlockAt)
  {
    var c := sections[i];
    ApplyShape(p, s, step);
    EndToEnd.StepShape(p, s, step, c.lockAt);
    EndToEnd.StepShape(p, s, step, c.unlockAt);
    if step.Work? && step.to.Success? && step.phase == c.lockAt {
      if Done(s.st, c.unlockAt) {
        BeforeIsDone(s, lo, hi, c.lockAt, c.unlockAt);
        assert false;
      }
      SuccessNeedsWork(p, s, step, c.unlockAt);
    } else if step.Work? && step.to.Success? && step.phase == c.unlockAt {
    } else {
      SuccessNeedsWork(p, s, step, c.lockAt);
      SuccessNeedsWork(p, s, step, c.unlockAt);
    }
  }

  lemma LockPlanStays(p: Plan, s: Run, sections: seq<Section>, lo: nat, hi: nat, step: Step)
    requires Shaped(p, s) && LockPlan(s.st, sections, lo, hi)
    ensures LockPlan(Apply(p, s, step).st, sections, lo, hi)
  {
  }

  lemma StepMarks(p: Plan, s: Run, sections: seq<Section>, lo: nat, hi: nat, locked: set<string>, step: Step)
    requires Shaped(p, s) && Enabled(p, s, step) && LockPlan(s.st, sections, lo, hi) && NoCleanup(p.cleanup, lo, hi)
    requires OneByOne(s, lo, hi) && MarksAgree(s.st, sections, locked)
    ensures MarksAgree(Apply(p, s, step).st, sections, Mark(sections, locked, step))
  {
    forall i | 0 <= i < |sections|
      ensures var t := Apply(p, s, step).st; sections[i].node in Mark(sections, locked, step) <==>
        Done(t, sections[i].lockAt) && !Done(t, sections[i].unlockAt)
    {
      LockMarked(p, s, sections, lo, hi, locked, step, i);
    }
  }

  lemma {:induction false} MarksFollow(p: Plan, s: Run, sections: seq<Section>, lo: nat, hi: nat, locked: set<string>,
                                       steps: seq<Step>)
    requires Shaped(p, s) && Possible(p, s, steps) && LockPlan(s.st, sections, lo, hi) && NoCleanup(p.cleanup, lo, hi)
    requires OneByOne(s, lo, hi) && Chained(p, s.st, lo, hi) && MarksAgree(s.st, sections, locked)
    ensures var t := Execute(p, s, steps); OneByOne(t, lo, hi) && LockPlan(t.st, sections, lo, hi)
    ensures MarksAgree(Execute(p, s, steps).st, sections, Marks(sections, locked, steps))
    decreases |steps|
  {
    if steps != [] {
      StepMarks(p, s, sections, lo, hi, locked, steps[0]);
      LockPlanStays(p, s, sections, lo, hi, steps[0]);
      StepOneByOne(p, s, lo, hi, steps[0]);
      ChainedStays(p, s, steps[0], lo, hi);
      MarksFollow(p, Apply(p, s, steps[0]), sections, lo, hi, Mark(sections, locked, steps[0]), steps[1..]);
    }
  }

  /** The marks after all sessions. */
  ghost function AllMarks(sections: seq<Section>, locked: set<string>, sessions: seq<Session>): set<string>
    decreases |sessions|
  {
    if sessions == [] then locked else AllMarks(sections, Marks(sections, locked, sessions[0].steps), sessions[1..])
  }

  lemma {:induction false} AllMarksFollow(s: Run, sections: seq<Section>, lo: nat, hi: nat, locked: set<string>,
                                          sessions: seq<Session>)
    requires PossibleAll(s, sessions) && InOneCluster(s, sessions, lo, hi) && LockPlan(s.st, sections, lo, hi)
    requires forall c :: c in sessions ==> NoCleanup(c.cleanup, lo, hi)
    requires OneByOne(s, lo, hi) && MarksAgree(s.st, sections, locked)
    ensures var t := ExecuteAll(s, sessions);
      OneByOne(t, lo, hi) && LockPlan(t.st, sections, lo, hi) &&
        MarksAgree(t.st, sections, AllMarks(sections, locked, sessions))
    decreases |sessions|
  {
    if sessions != [] {
      var c := sessions[0];
      OneClusterIsChained(c, s.st, lo, hi);
      MarksFollow(PlanOf(c), s, sections, lo, hi, locked, c.steps);
      AllMarksFollow(After(s, c), sections, lo, hi, Marks(sections, locked, c.steps), sessions[1..]);
    }
  }

  /** At most one of the sections' nodes is marked. */
  ghost predicate OneLocked(sections: seq<Section>, locked: set<string>) {
    forall i, j ::
      0 <= i < |sections| && 0 <= j < |sections| && sections[i].node in locked && sections[j].node in locked
      ==> i == j
  }

  /** A phase inside a section that was launched and is not finished finds its node marked. */
  ghost predicate LockedWhileRunning(t: Run, sections: seq<Section>, locked: set<string>) {
    forall i, k {:trigger sections[i], k in t.touched} ::
      0 <= i < |sections| && sections[i].lockAt < k < sections[i].unlockAt && k in t.touched && !Complete(t.st, k)
      ==> sections[i].node in locked
  }

  lemma MarkedInTurn(t: Run, sections: seq<Section>, lo: nat, hi: nat, marks: set<string>)
    requires OneByOne(t, lo, hi) && LockPlan(t.st, sections, lo, hi) && MarksAgree(t.st, sections, marks)
    ensures OneLocked(sections, marks)
  {
    forall i, j | 0 <= i < j < |sections|
      ensures !(sections[i].node in marks && sections[j].node in marks)
    {
      if Done(t.st, sections[j].lockAt) {
        BeforeIsDone(t, lo, hi, sections[i].unlockAt, sections[j].lockAt);
        assert Done(t.st, sections[i].unlockAt);
      }
    }
  }

  lemma MarkedWhileRunning(t: Run, sections: seq<Section>, lo: nat, hi: nat, marks: set<string>)
    requires OneByOne(t, lo, hi) && LockPlan(t.st, sections, lo, hi) && MarksAgree(t.st, sections, marks)
    ensures LockedWhileRunning(t, sections, marks)
  {
    forall i, k | 0 <= i < |sections| && sections[i].lockAt < k < sections[i].unlockAt && k in t.touched &&
      !Complete(t.st, k)
      ensures sections[i].node in marks
    {
      BeforeIsDone(t, lo, hi, sections[i].lockAt, k);
      assert Done(t.st, sections[i].lockAt);
      if Done(t.st, sections[i].unlockAt) {
        BeforeIsDone(t, lo, hi, k, sections[i].unlockAt);
        assert false;
      }
    }
  }

  /**
   * In every state of all runs, resumed ones with requirements built anew included, that start with no node of the
   * cluster locked, at most one node of the cluster is locked, and a phase of a node's section that was launched and is
   * not finished finds its node locked. The unfinished phases of the cluster have one cluster id at each start.
   */
  lemma LockBracketing(p: Plan, s: Run, sections: seq<Section>, lo: nat, hi: nat, locked: set<string>,
                       sessions: seq<Session>)
    requires IsFresh(p, s) && LockPlan(s.st, sections, lo, hi)
    requires PossibleAll(s, sessions) && InOneCluster(s, sessions, lo, hi)
    requires forall c :: c in sessions ==> NoCleanup(c.cleanup, lo, hi)
    requires forall i :: 0 <= i < |sections| ==> sections[i].node !in locked
    ensures OneLocked(sections, AllMarks(sections, locked, sessions))
    ensures LockedWhileRunning(ExecuteAll(s, sessions), sections, AllMarks(sections, locked, sessions))
  {
    forall i | 0 <= i < |sections|
      ensures !Done(s.st, sections[i].lockAt)
    {
      assert s.st[sections[i].lockAt][0].Initial?;
    }
    FreshOneByOne(p, s, lo, hi);
    AllMarksFollow(s, sections, lo, hi, locked, sessions);
    var t, marks := ExecuteAll(s, sessions), AllMarks(sections, locked, sessions);
    MarkedInTurn(t, sections, lo, hi, marks);
    MarkedWhileRunning(t, sections, lo, hi, marks);
  }

  // ---------- the phases of a cluster in a running plan ----------

  /** Different entries are different nodes. */
  ghost predicate DifferentNodes(nodes: seq<NodePlan>) {
    forall i, j :: 0 <= i < j < |nodes| ==> nodes[i].node != nodes[j].node
  }

  /** The phases of the plan hold as many tasks as there are states. */
  ghost predicate ShapeOf(plan: seq<Phase>, st: States) {
    |plan| == |st| && forall k :: 0 <= k < |plan| ==> |plan[k]| == |st[k]|
  }

  ghost function NodeNames(nodes: seq<NodePlan>): set<string> {
    set n | n in nodes :: n.node
  }

  /** The sections belong to different nodes of the cluster. */
  ghost predicate SectionsDiffer(sections: seq<Section>, names: set<string>) {
    && (forall i :: 0 <= i < |sections| ==> sections[i].node in names)
    && forall i, j :: 0 <= i < j < |sections| ==> sections[i].node != sections[j].node
  }

  lemma LastIsNew(nodes: seq<NodePlan>)
    requires nodes != [] && DifferentNodes(nodes)
    ensures var front, last := nodes[..|nodes| - 1], nodes[|nodes| - 1];
      DifferentNodes(front) && last.node !in NodeNames(front) && NodeNames(nodes) == NodeNames(front) + {last.node}
  {
    assert nodes == nodes[..|nodes| - 1] + [nodes[|nodes| - 1]];
  }

  lemma {:induction false} SectionNodes(nodes: seq<NodePlan>, lockTasks: LockTasks, base: nat)
    requires DifferentNodes(nodes)
    ensures SectionsDiffer(SectionsOf(nodes, lockTasks, base), NodeNames(nodes))
  {
    if nodes != [] {
      SectionNodes(nodes[..|nodes| - 1], lockTasks, base);
      LastIsNew(nodes);
    }
  }

  lemma BuiltLockPlan(before: seq<Phase>, nodes: seq<NodePlan>, lockTasks: LockTasks, after: seq<Phase>, st: States)
    requires DifferentNodes(nodes) && ShapeOf(PlanAround(before, nodes, lockTasks, after), st)
    ensures LockPlan(st, SectionsOf(nodes, lockTasks, |before|), |before|, |before| + |LockedPart(nodes, lockTasks)|)
  {
    var sections := SectionsOf(nodes, lockTasks, |before|);
    SectionsAreInARow(nodes, lockTasks, |before|);
    SectionNodes(nodes, lockTasks, |before|);
    forall i | 0 <= i < |sections|
      ensures |st[sections[i].lockAt]| == 1 == |st[sections[i].unlockAt]|
    {
      var n := SectionIsOneNode(before, nodes, lockTasks, after, i);
      assert Brackets(PlanAround(before, nodes, lockTasks, after), sections[i], n, lockTasks);
    }
  }

  /** Of the nodes that need a lock, `n` alone is marked, if it is. */
  ghost predicate AloneLocked(nodes: seq<NodePlan>, lockTasks: LockTasks, marks: set<string>, n: NodePlan) {
    n.node in marks ==>
      forall m :: m in nodes && m.node in lockTasks && m.phases != [] && m.node in marks ==> m == n
  }

  /** While a phase of section `c` is launched and not finished, its node is marked. */
  ghost predicate RunsLocked(t: Run, c: Section, marks: set<string>) {
    forall k :: c.lockAt < k < c.unlockAt && k in t.touched && !Complete(t.st, k) ==> c.node in marks
  }

  lemma SectionsLockAlone(before: seq<Phase>, nodes: seq<NodePlan>, lockTasks: LockTasks, after: seq<Phase>,
                          marks: set<string>, n: NodePlan, i: nat)
    requires i < |SectionsOf(nodes, lockTasks, |before|)| && DifferentNodes(nodes)
    requires SectionsOf(nodes, lockTasks, |before|)[i].node == n.node && n in nodes
    requires OneLocked(SectionsOf(nodes, lockTasks, |before|), marks)
    ensures AloneLocked(nodes, lockTasks, marks, n)
  {
    forall m | m in nodes && m.node in lockTasks && m.phases != [] && m.node in marks && n.node in marks
      ensures m == n
    {
      var j := NodeHasSection(before, nodes, lockTasks, after, m);
    }
  }

  lemma ClusterLocks(before: seq<Phase>, nodes: seq<NodePlan>, lockTasks: LockTasks, after: seq<Phase>,
                     p: Plan, s: Run, locked: set<string>, sessions: seq<Session>)
    requires DifferentNodes(nodes) && ShapeOf(PlanAround(before, nodes, lockTasks, after), s.st) && IsFresh(p, s)
    requires PossibleAll(s, sessions) && InOneCluster(s, sessions, |before|, |before| + |LockedPart(nodes, lockTasks)|)
    requires forall x :: x in sessions ==> NoCleanup(x.cleanup, |before|, |before| + |LockedPart(nodes, lockTasks)|)
    requires NodeNames(nodes) !! locked
    ensures var sections := SectionsOf(nodes, lockTasks, |before|);
      var marks := AllMarks(sections, locked, sessions);
      OneLocked(sections, marks) && LockedWhileRunning(ExecuteAll(s, sessions), sections, marks)
  {
    var sections := SectionsOf(nodes, lockTasks, |before|);
    BuiltLockPlan(before, nodes, lockTasks, after, s.st);
    SectionNodes(nodes, lockTasks, |before|);
    LockBracketing(p, s, sections, |before|, |before| + |LockedPart(nodes, lockTasks)|, locked, sessions);
  }

  /**
   * The phases that `ClusterNodePhases` makes of the nodes of a cluster, anywhere in a plan and in any runs: each node
   * that needs a lock has its section, at most one such node is locked, and while a phase of the node is launched and
   * not finished, it is the one.
   */
  lemma ClusterIsLockedNodeByNode(before: seq<Phase>, nodes: seq<NodePlan>, lockTasks: LockTasks, after: seq<Phase>,
                                  p: Plan, s: Run, locked: set<string>, sessions: seq<Session>, n: NodePlan)
    returns (c: Section)
    requires DifferentNodes(nodes) && ShapeOf(PlanAround(before, nodes, lockTasks, after), s.st) && IsFresh(p, s)
    requires PossibleAll(s, sessions) && InOneCluster(s, sessions, |before|, |before| + |LockedPart(nodes, lockTasks)|)
    requires forall x :: x in sessions ==> NoCleanup(x.cleanup, |before|, |before| + |LockedPart(nodes, lockTasks)|)
    requires NodeNames(nodes) !! locked && n in nodes && n.node in lockTasks && n.phases != []
    ensures Brackets(PlanAround(before, nodes, lockTasks, after), c, n, lockTasks)
    ensures var marks := AllMarks(SectionsOf(nodes, lockTasks, |before|), locked, sessions);
      AloneLocked(nodes, lockTasks, marks, n) && RunsLocked(ExecuteAll(s, sessions), c, marks)
  {
    var sections := SectionsOf(nodes, lockTasks, |before|);
    ClusterLocks(before, nodes, lockTasks, after, p, s, locked, sessions);
    var i := NodeHasSection(before, nodes, lockTasks, after, n);
    SectionsLockAlone(before, nodes, lockTasks, after, AllMarks(sections, locked, sessions), n, i);
    c := sections[i];
  }
}
