/** The entities the plan compiler works on: tasks, phases and dependency graphs. */
module Tasks {

  /** The class of a task: a Puppet task, a callback task (remote execution included), or any other. */
  datatype Kind = Config | Callback | Other

  /**
   * `net` is the `_net_task` mark; `disk` tells whether the task's model item is a "disk-base". The other
   * attributes are those that graph building looks at.
   */
  datatype Task = Task(id: nat, kind: Kind, net: bool, disk: bool, vpath: string, deconfigure: bool, callType: string)

  datatype TaskState = Initial | Running | Stopped | Failed | Success

  type Phase = seq<Task>

  /** For each task, the tasks it depends on. */
  type Graph = map<Task, set<Task>>

  ghost predicate Closed(g: Graph) {
    forall t, d, e :: t in g && d in g[t] && d in g && e in g[d] ==> e in g[t]
  }

  /** The dependencies that placing `t` leaves in the graph: net tasks lose those on disk tasks. */
  function KeptOf(g: Graph, t: Task): set<Task>
    requires t in g
  {
    if t.net then set d | d in g[t] && !d.disk else g[t]
  }

  ghost function Kept(g: Graph): Graph {
    map t | t in g :: KeptOf(g, t)
  }

  /** Two dependent tasks of which one is a callback, or exactly one is a net task, never share a phase. */
  predicate Separated(d: Task, t: Task) {
    d.kind.Callback? || t.kind.Callback? || d.net != t.net
  }

  /** `d` sits in an earlier phase than `t`, wherever they are. */
  ghost predicate Precedes(phases: seq<Phase>, d: Task, t: Task) {
    forall i, j :: 0 <= i < |phases| && 0 <= j < |phases| && d in phases[i] && t in phases[j] ==> i < j
  }

  /** Every dependency sits no later than its dependent, and strictly earlier if the pair must be separated. */
  ghost predicate Ordered(phases: seq<Phase>, g: Graph) {
    forall i, j, d, t ::
      0 <= i < |phases| && 0 <= j < |phases| && d in phases[i] && t in phases[j] && t in g && d in g[t]
      ==> i <= j && (Separated(d, t) ==> i < j)
  }

  predicate AnyNet(phase: Phase) {
    exists t :: t in phase && t.net
  }

  predicate AllNet(phase: Phase) {
    forall t :: t in phase ==> t.net
  }

  /** Every phase holds net tasks only or no net task. */
  ghost predicate Pure(phases: seq<Phase>) {
    forall i :: 0 <= i < |phases| ==> AllNet(phases[i]) || !AnyNet(phases[i])
  }

  ghost predicate NonEmptyPhases(phases: seq<Phase>) {
    forall i :: 0 <= i < |phases| ==> phases[i] != []
  }

  ghost predicate Placed(phases: seq<Phase>, t: Task) {
    exists i :: 0 <= i < |phases| && t in phases[i]
  }

  /** How often `t` occurs in the phases. */
  ghost function Count(phases: seq<Phase>, t: Task): nat {
    if phases == [] then 0 else multiset(phases[0])[t] + Count(phases[1..], t)
  }

  lemma {:induction false} CountConcat(a: seq<Phase>, b: seq<Phase>, t: Task)
    ensures Count(a + b, t) == Count(a, t) + Count(b, t)
  {
    if a == [] {
      assert a + b == b;
    } else {
      CountConcat(a[1..], b, t);
      assert (a + b)[1..] == a[1..] + b;
    }
  }

  /** Replacing phase `k` changes the count by the difference of the two phases. */
  lemma CountUpdate(a: seq<Phase>, k: nat, p: Phase, t: Task)
    requires k < |a|
    ensures Count(a[k := p], t) == Count(a, t) - multiset(a[k])[t] + multiset(p)[t]
  {
    CountConcat(a[..k], [a[k]] + a[k + 1..], t);
    CountConcat(a[..k], [p] + a[k + 1..], t);
    assert a == a[..k] + ([a[k]] + a[k + 1..]);
    assert a[k := p] == a[..k] + ([p] + a[k + 1..]);
  }

  lemma CountInsert(a: seq<Phase>, k: nat, p: Phase, t: Task)
    requires k <= |a|
    ensures Count(a[..k] + [p] + a[k..], t) == Count(a, t) + multiset(p)[t]
  {
    CountConcat(a[..k], [p] + a[k..], t);
    CountConcat(a[..k], a[k..], t);
    assert a[..k] + [p] + a[k..] == a[..k] + ([p] + a[k..]);
    assert a == a[..k] + a[k..];
  }

  lemma {:induction false} CountPlaced(phases: seq<Phase>, t: Task)
    ensures Count(phases, t) > 0 <==> Placed(phases, t)
  {
    if phases != [] {
      CountPlaced(phases[1..], t);
      if Placed(phases[1..], t) {
        var i :| 0 <= i < |phases[1..]| && t in phases[1..][i];
        assert t in phases[i + 1];
      }
      if Placed(phases, t) {
        var i :| 0 <= i < |phases| && t in phases[i];
        if i > 0 {
          assert t in phases[1..][i - 1];
        }
      }
    }
  }

  /** The tasks of `s` with property `p`, in the order of `s`. */
  function Select(p: Task -> bool, s: seq<Task>): (r: seq<Task>)
    ensures forall t :: t in r <==> t in s && p(t)
  {
    if s == [] then []
    else Select(p, s[..|s| - 1]) + (if p(s[|s| - 1]) then [s[|s| - 1]] else [])
  }

  /** The selected tasks stand as they stood. */
  lemma {:induction false} SelectKeepsOrder(p: Task -> bool, s: seq<Task>, i: nat, j: nat) returns (a: nat, b: nat)
    requires i < j < |Select(p, s)|
    ensures a < b < |s| && s[a] == Select(p, s)[i] && s[b] == Select(p, s)[j]
  {
    var most := s[..|s| - 1];
    if j < |Select(p, most)| {
      a, b := SelectKeepsOrder(p, most, i, j);
    } else {
      b := |s| - 1;
      assert Select(p, s)[i] in Select(p, most);
      a :| 0 <= a < |most| && most[a] == Select(p, s)[i];
    }
  }

  /** The dependencies left to a task: a net task loses those on disk tasks, another one none. */
  lemma KeptExactly(g: Graph, t: Task, d: Task)
    requires t in g
    ensures !t.net || !d.disk ==> (d in KeptOf(g, t) <==> d in g[t])
    ensures t.net && d.disk ==> d !in KeptOf(g, t)
  {
  }

  function TaskSet(tasks: seq<Task>): set<Task> {
    set t | t in tasks
  }
}
