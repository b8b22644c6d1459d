/** The creation of lock and unlock tasks (`LockTaskCreator`). */
module LockCreation {
  import opened Items

  /** What a plugin answers for a node; anything but a pair of tasks is malformed. */
  datatype Answer = NoLock | Pair(lock: string, unlock: string) | Malformed

  /** A task, with the node it is for, and whether it is the unlock task. */
  datatype Marked = Marked(task: string, node: string, unlocks: bool)

  function MarkedPair(node: string, answer: Answer): (Marked, Marked)
    requires answer.Pair?
  {
    (Marked(answer.lock, node, false), Marked(answer.unlock, node, true))
  }

  /** Plugin `k` has been asked about node `i` before plugin `n` is asked about node `m`. */
  predicate Asked(i: int, k: int, m: int, n: int) {
    i < m || (i == m && k < n)
  }

  predicate Answers(answers: seq<seq<Answer>>, i: int, k: int, pair: bool) {
    0 <= i < |answers| && 0 <= k < |answers[i]| && if pair then answers[i][k].Pair? else answers[i][k].Malformed?
  }

  /** The answers up to the given point are well formed, and no node has two pairs. */
  ghost predicate AtMostOne(nodes: seq<string>, answers: seq<seq<Answer>>, m: int, n: int)
    requires |nodes| == |answers|
  {
    && (forall i, k :: Asked(i, k, m, n) ==> !Answers(answers, i, k, false))
    && forall i, k, j, l ::
         Asked(i, k, m, n) && Asked(j, l, m, n) && Answers(answers, i, k, true) && Answers(answers, j, l, true)
         ==> nodes[i] != nodes[j] || (i == j && k == l)
  }

  /** The pairs recorded so far are those that were answered so far. */
  ghost predicate Recorded(nodes: seq<string>, answers: seq<seq<Answer>>, m: int, n: int,
                           made: map<string, (Marked, Marked)>)
    requires |nodes| == |answers|
  {
    && (forall v :: v in made ==> exists i, k :: Asked(i, k, m, n) && Answers(answers, i, k, true) && nodes[i] == v)
    && (forall i, k :: Asked(i, k, m, n) && Answers(answers, i, k, true) ==>
          nodes[i] in made && made[nodes[i]] == MarkedPair(nodes[i], answers[i][k]))
  }

  lemma RowDone(nodes: seq<string>, answers: seq<seq<Answer>>, m: nat, made: map<string, (Marked, Marked)>)
    requires |nodes| == |answers| && m < |answers|
    requires AtMostOne(nodes, answers, m, |answers[m]|) && Recorded(nodes, answers, m, |answers[m]|, made)
    ensures AtMostOne(nodes, answers, m + 1, 0) && Recorded(nodes, answers, m + 1, 0, made)
  {
  }

  /** One more answer, no second pair for its node, is recorded. */
  lemma AnswerRecorded(nodes: seq<string>, answers: seq<seq<Answer>>, i: nat, k: nat,
                       made: map<string, (Marked, Marked)>)
    requires |nodes| == |answers| && i < |answers| && k < |answers[i]| && !answers[i][k].Malformed?
    requires AtMostOne(nodes, answers, i, k) && Recorded(nodes, answers, i, k, made)
    requires answers[i][k].Pair? ==> nodes[i] !in made
    ensures AtMostOne(nodes, answers, i, k + 1)
    ensures var more := if answers[i][k].Pair? then made[nodes[i] := MarkedPair(nodes[i], answers[i][k])] else made;
      Recorded(nodes, answers, i, k + 1, more)
  {
    assert forall j, l :: Asked(j, l, i, k + 1) <==> Asked(j, l, i, k) || (j == i && l == k);
    assert Asked(i, k, i, k + 1) && (answers[i][k].Pair? ==> Answers(answers, i, k, true));
  }

  /**
   * `create_lock_tasks`: a pair for exactly the nodes for which a plugin has one; none if an answer is malformed
   * or a node gets two.
   */
  method CreateLockTasks(nodes: seq<string>, answers: seq<seq<Answer>>)
    returns (lockTasks: Option<map<string, (Marked, Marked)>>)
    requires |nodes| == |answers|
    ensures lockTasks.Some? <==> AtMostOne(nodes, answers, |nodes|, 0)
    ensures lockTasks.Some? ==> Recorded(nodes, answers, |nodes|, 0, lockTasks.value)
  {
    var made: map<string, (Marked, Marked)> := map[];
    for i := 0 to |nodes|
      invariant AtMostOne(nodes, answers, i, 0) && Recorded(nodes, answers, i, 0, made)
    {
      for k := 0 to |answers[i]|
        invariant AtMostOne(nodes, answers, i, k) && Recorded(nodes, answers, i, k, made)
      {
        var answer := answers[i][k];
        if answer.Malformed? {
          assert Answers(answers, i, k, false) && Asked(i, k, |nodes|, 0);
          return None;
        }
        if answer.Pair? && nodes[i] in made {
          TwoPairs(nodes, answers, i, k, made);
          return None;
        }
        AnswerRecorded(nodes, answers, i, k, made);
        if answer.Pair? {
          made := made[nodes[i] := MarkedPair(nodes[i], answer)];
        }
      }
      RowDone(nodes, answers, i, made);
    }
    return Some(made);
  }

  /**
   * What the result records: for a node that a plugin answers with a pair, the first task is the lock task and the
   * second the unlock task, both marked with the node; other nodes have no tasks.
   */
  lemma LockTasksAre(nodes: seq<string>, answers: seq<seq<Answer>>, made: map<string, (Marked, Marked)>)
    requires |nodes| == |answers| && Recorded(nodes, answers, |nodes|, 0, made)
    ensures forall i, k :: 0 <= i < |nodes| && 0 <= k < |answers[i]| && answers[i][k].Pair? ==>
      && nodes[i] in made
      && made[nodes[i]].0.task == answers[i][k].lock && !made[nodes[i]].0.unlocks
      && made[nodes[i]].1.task == answers[i][k].unlock && made[nodes[i]].1.unlocks
      && made[nodes[i]].0.node == nodes[i] == made[nodes[i]].1.node
    ensures forall v :: v in made ==>
      exists i, k :: 0 <= i < |nodes| && 0 <= k < |answers[i]| && answers[i][k].Pair? && nodes[i] == v
  {
    forall i, k | 0 <= i < |nodes| && 0 <= k < |answers[i]| && answers[i][k].Pair?
      ensures nodes[i] in made && made[nodes[i]] == MarkedPair(nodes[i], answers[i][k])
    {
      assert Asked(i, k, |nodes|, 0) && Answers(answers, i, k, true);
    }
    forall v | v in made
      ensures exists i, k :: 0 <= i < |nodes| && 0 <= k < |answers[i]| && answers[i][k].Pair? && nodes[i] == v
    {
      var i, k :| Asked(i, k, |nodes|, 0) && Answers(answers, i, k, true) && nodes[i] == v;
      assert 0 <= i < |nodes| && 0 <= k < |answers[i]| && answers[i][k].Pair?;
    }
  }

  /** Two answers give a pair for one node. */
  ghost predicate PairedTwice(nodes: seq<string>, answers: seq<seq<Answer>>, i: int, k: int, j: int, l: int)
    requires |nodes| == |answers|
  {
    && 0 <= i < |nodes| && 0 <= k < |answers[i]| && answers[i][k].Pair?
    && 0 <= j < |nodes| && 0 <= l < |answers[j]| && answers[j][l].Pair?
    && nodes[i] == nodes[j] && (i != j || k != l)
  }

  /** It fails exactly if an answer is malformed or two answers give a pair for one node. */
  lemma LockTasksFail(nodes: seq<string>, answers: seq<seq<Answer>>)
    requires |nodes| == |answers|
    ensures !AtMostOne(nodes, answers, |nodes|, 0) <==>
      (exists i, k :: 0 <= i < |nodes| && 0 <= k < |answers[i]| && answers[i][k].Malformed?) ||
      (exists i, k, j, l :: PairedTwice(nodes, answers, i, k, j, l))
  {
    var n := |nodes|;
    if i, k :| 0 <= i < n && 0 <= k < |answers[i]| && answers[i][k].Malformed? {
      assert Asked(i, k, n, 0) && Answers(answers, i, k, false);
    }
    if i, k, j, l :| PairedTwice(nodes, answers, i, k, j, l) {
      assert Asked(i, k, n, 0) && Asked(j, l, n, 0) && Answers(answers, i, k, true) && Answers(answers, j, l, true);
    }
    if !AtMostOne(nodes, answers, n, 0) && forall i, k :: Asked(i, k, n, 0) ==> !Answers(answers, i, k, false) {
      var i, k, j, l :| Asked(i, k, n, 0) && Asked(j, l, n, 0) && Answers(answers, i, k, true) &&
        Answers(answers, j, l, true) && nodes[i] == nodes[j] && !(i == j && k == l);
      assert PairedTwice(nodes, answers, i, k, j, l);
    }
  }

  lemma TwoPairs(nodes: seq<string>, answers: seq<seq<Answer>>, i: nat, k: nat, made: map<string, (Marked, Marked)>)
    requires |nodes| == |answers| && Answers(answers, i, k, true) && Recorded(nodes, answers, i, k, made) &&
      nodes[i] in made
    ensures !AtMostOne(nodes, answers, |nodes|, 0)
  {
  }
}
