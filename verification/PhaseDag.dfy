/** The requirement relation between phases (`_build_phase_dependencies`) and the order it imposes. */
module PhaseDag {

  /** The tables of the loop: required phases, last phase seen of each cluster, clusters that others build on. */
  datatype Tables = Tables(required: seq<set<nat>>, ends: map<string, nat>, extended: set<string>)

  function ListedEnds(listed: set<string>, ends: map<string, nat>): set<nat> {
    set c | c in listed && c in ends :: ends[c]
  }

  function OpenEnds(ends: map<string, nat>, extended: set<string>): set<nat> {
    set c | c in ends && c !in extended && c != "" :: ends[c]
  }

  /** One round of the loop, for phase `k`. */
  function Round(ids: seq<string>, reqs: seq<set<string>>, k: nat, a: Tables): Tables
    requires k < |ids| == |reqs|
  {
    var ends := a.ends[ids[k] := k];
    if k == 0 then Tables([{}], map[ids[0] := 0], {})
    else if ids[k] == ids[k - 1] then Tables(a.required + [{k - 1}], ends, a.extended)
    else if reqs[k] * a.ends.Keys != {} then
      Tables(a.required + [ListedEnds(reqs[k], ends)], ends, a.extended + reqs[k] * ends.Keys)
    else if ids[k - 1] != "" && ids[k] == "" then
      Tables(a.required + [{k - 1} + OpenEnds(a.ends, a.extended)], ends, a.extended)
    else if ids[k] in a.ends then Tables(a.required + [{a.ends[ids[k]]}], ends, a.extended)
    else Tables(a.required + [if "" in a.ends then {a.ends[""]} else {}], ends, a.extended)
  }

  function TablesAt(ids: seq<string>, reqs: seq<set<string>>, n: nat): (a: Tables)
    requires n <= |ids| == |reqs|
    ensures |a.required| == n
  {
    if n == 0 then Tables([], map[], {}) else Round(ids, reqs, n - 1, TablesAt(ids, reqs, n - 1))
  }

  /** The required phases of a plan whose phases have the cluster ids `ids` and list the clusters `reqs`. */
  function Required(ids: seq<string>, reqs: seq<set<string>>): (r: seq<set<nat>>)
    requires |ids| == |reqs|
    ensures |r| == |ids|
  {
    TablesAt(ids, reqs, |ids|).required
  }

  lemma {:induction false} RequiredIsStable(ids: seq<string>, reqs: seq<set<string>>, k: nat, n: nat)
    requires k < n <= |ids| == |reqs|
    ensures TablesAt(ids, reqs, n).required[k] == TablesAt(ids, reqs, k + 1).required[k]
    decreases n
  {
    if n > k + 1 {
      RequiredIsStable(ids, reqs, k, n - 1);
    }
  }

  // ---------- sections ----------

  ghost predicate Seen(ids: seq<string>, c: string, n: nat) {
    exists i :: 0 <= i < n && i < |ids| && ids[i] == c
  }

  function FirstOf(ids: seq<string>, c: string): (f: nat)
    ensures f <= |ids| && (f < |ids| ==> ids[f] == c)
    ensures forall i :: 0 <= i < f ==> ids[i] != c
  {
    if ids == [] then 0 else if ids[0] == c then 0 else FirstOf(ids[1..], c) + 1
  }

  /**
   * Phases without a cluster, then one stretch of phases per cluster, then phases without a cluster from
   * `q` on. No cluster lists itself.
   */
  ghost predicate Sectioned(ids: seq<string>, reqs: seq<set<string>>, p: nat, q: nat) {
    && |ids| == |reqs| && p <= q <= |ids| && (p == q ==> q == |ids|)
    && (forall i :: 0 <= i < |ids| ==> (ids[i] == "" <==> i < p || i >= q))
    && (forall i, j, k :: p <= i < j < k < q && ids[i] == ids[k] ==> ids[j] == ids[i])
    && forall i :: 0 <= i < |ids| ==> "" !in reqs[i] && ids[i] !in reqs[i]
  }

  /** Phase `f` builds on cluster `a`: it lists a cluster seen before that is `a` or builds on it. */
  ghost predicate Needs(ids: seq<string>, reqs: seq<set<string>>, f: nat, a: string)
    requires f < |ids| == |reqs|
    decreases f
  {
    exists b :: b in reqs[f] && FirstOf(ids, b) < f && (b == a || Needs(ids, reqs, FirstOf(ids, b), a))
  }

  /** The first phase `f` of the suffix lists no cluster of the plan. */
  ghost predicate Unlisted(ids: seq<string>, reqs: seq<set<string>>, f: nat)
    requires f < |ids| == |reqs|
  {
    forall b :: b in reqs[f] ==> FirstOf(ids, b) >= f
  }

  /** What phase `j` has to wait for, said without the tables. */
  ghost predicate Cone(ids: seq<string>, reqs: seq<set<string>>, p: nat, q: nat, j: nat, k: nat)
    requires Sectioned(ids, reqs, p, q) && j < |ids| && k < |ids|
  {
    k < j &&
    if k < p || k >= q then true
    else if j < q then ids[k] == ids[j] || Needs(ids, reqs, FirstOf(ids, ids[j]), ids[k])
    else Unlisted(ids, reqs, q) || Needs(ids, reqs, q, ids[k])
  }

  /** `k` is required by `j`, directly or through other phases. */
  ghost predicate Reach(required: seq<set<nat>>, j: nat, k: nat)
    decreases j
  {
    j < |required| && exists m :: m in required[j] && m < j && (m == k || Reach(required, m, k))
  }

  // ---------- what the tables hold ----------

  lemma SeenNext(ids: seq<string>, c: string, n: nat)
    requires 0 < n <= |ids|
    ensures Seen(ids, c, n) <==> Seen(ids, c, n - 1) || ids[n - 1] == c
  {
  }

  lemma {:induction false} EndsAreLast(ids: seq<string>, reqs: seq<set<string>>, n: nat, c: string)
    requires n <= |ids| == |reqs|
    ensures c in TablesAt(ids, reqs, n).ends <==> Seen(ids, c, n)
    ensures c in TablesAt(ids, reqs, n).ends ==>
      var e := TablesAt(ids, reqs, n).ends[c];
      e < n && ids[e] == c && forall i :: e < i < n ==> ids[i] != c
    decreases n
  {
    if n > 0 {
      EndsAreLast(ids, reqs, n - 1, c);
      SeenNext(ids, c, n);
    }
  }

  /** A cluster counts as extended only if the first phase of some other section lists it. */
  ghost predicate Extender(ids: seq<string>, reqs: seq<set<string>>, c: string, f: nat) {
    && 0 < f < |ids| == |reqs| && ids[f] != ids[f - 1] && c in reqs[f]
    && (Seen(ids, c, f) || c == ids[f])
  }

  lemma {:induction false} ExtendedHasExtender(ids: seq<string>, reqs: seq<set<string>>, n: nat, c: string)
    requires n <= |ids| == |reqs|
    requires c in TablesAt(ids, reqs, n).extended
    ensures exists f: nat :: f < n && Extender(ids, reqs, c, f)
    decreases n
  {
    if n > 0 {
      if c in TablesAt(ids, reqs, n - 1).extended {
        ExtendedHasExtender(ids, reqs, n - 1, c);
      } else {
        EndsAreLast(ids, reqs, n - 1, c);
        assert Extender(ids, reqs, c, n - 1);
      }
    }
  }

  lemma SeenIsFirst(ids: seq<string>, c: string, n: nat)
    requires n <= |ids|
    ensures Seen(ids, c, n) <==> FirstOf(ids, c) < n
  {
  }

  /** The last phase of cluster `c`. */
  ghost predicate LastOf(ids: seq<string>, c: string, m: nat) {
    m < |ids| && ids[m] == c && forall i :: m < i < |ids| ==> ids[i] != c
  }

  /** In a sectioned plan a cluster seen before another section starts is complete by then. */
  lemma SeenIsComplete(ids: seq<string>, reqs: seq<set<string>>, p: nat, q: nat, f: nat, c: string, e: nat)
    requires Sectioned(ids, reqs, p, q) && p <= f <= q && f < |ids|
    requires c != "" && c != ids[f]
    requires e < f && ids[e] == c && forall i :: e < i < f ==> ids[i] != c
    ensures LastOf(ids, c, e)
  {
  }

  // ---------- the direct requirements, case by case ----------

  lemma DirectContinued(ids: seq<string>, reqs: seq<set<string>>, j: nat)
    requires 0 < j < |ids| == |reqs| && ids[j] == ids[j - 1]
    ensures Required(ids, reqs)[j] == {j - 1}
  {
    RequiredIsStable(ids, reqs, j, |ids|);
  }

  /** Phase `m` is the last phase of cluster `c` before phase `j`. */
  ghost predicate LastBefore(ids: seq<string>, c: string, j: nat, m: nat) {
    m < j && m < |ids| && ids[m] == c && forall i :: m < i < j && i < |ids| ==> ids[i] != c
  }

  /** Phase `f` opens a stretch of its cluster and lists a cluster seen before. */
  ghost predicate Lists(ids: seq<string>, reqs: seq<set<string>>, f: nat) {
    0 < f < |ids| == |reqs| && ids[f] != ids[f - 1] && exists b :: b in reqs[f] && Seen(ids, b, f)
  }

  /** Phase `f` is such a phase, and lists `c`. */
  ghost predicate BuildsOn(ids: seq<string>, reqs: seq<set<string>>, f: nat, c: string) {
    Lists(ids, reqs, f) && c in reqs[f] && (c == ids[f] || Seen(ids, c, f))
  }

  /** Some phase before `n` builds on cluster `c`. */
  ghost predicate BuiltOn(ids: seq<string>, reqs: seq<set<string>>, n: nat, c: string) {
    exists f: nat :: f < n && BuildsOn(ids, reqs, f, c)
  }

  /** What a phase requires directly, said without the tables, for any plan. */
  ghost predicate Requires(ids: seq<string>, reqs: seq<set<string>>, j: nat, m: nat)
    requires j < |ids| == |reqs|
  {
    if j == 0 then false
    else if ids[j] == ids[j - 1] then m == j - 1
    else if Lists(ids, reqs, j) then
      exists c :: c in reqs[j] && if c == ids[j] then m == j else LastBefore(ids, c, j, m)
    else if ids[j] == "" then
      m == j - 1 || (m < j && ids[m] != "" && LastBefore(ids, ids[m], j, m) && !BuiltOn(ids, reqs, j, ids[m]))
    else LastBefore(ids, if Seen(ids, ids[j], j) then ids[j] else "", j, m)
  }

  lemma EndsBefore(ids: seq<string>, reqs: seq<set<string>>, j: nat, c: string)
    requires j <= |ids| == |reqs|
    ensures var ends := TablesAt(ids, reqs, j).ends;
      (c in ends <==> Seen(ids, c, j)) && (c in ends ==> LastBefore(ids, c, j, ends[c])) &&
      forall m :: LastBefore(ids, c, j, m) ==> c in ends && ends[c] == m
  {
    EndsAreLast(ids, reqs, j, c);
    forall m | LastBefore(ids, c, j, m)
      ensures Seen(ids, c, j)
    {
    }
  }

  lemma ListsIs(ids: seq<string>, reqs: seq<set<string>>, j: nat)
    requires 0 < j < |ids| == |reqs| && ids[j] != ids[j - 1]
    ensures Lists(ids, reqs, j) <==> reqs[j] * TablesAt(ids, reqs, j).ends.Keys != {}
  {
    var ends := TablesAt(ids, reqs, j).ends;
    forall b
      ensures b in ends <==> Seen(ids, b, j)
    {
      EndsAreLast(ids, reqs, j, b);
    }
    if Lists(ids, reqs, j) {
      var b :| b in reqs[j] && Seen(ids, b, j);
      assert b in reqs[j] * ends.Keys;
    }
    if reqs[j] * ends.Keys != {} {
      var b :| b in reqs[j] * ends.Keys;
      assert b in reqs[j] && Seen(ids, b, j);
    }
  }

  lemma {:induction false} ExtendedIs(ids: seq<string>, reqs: seq<set<string>>, n: nat, c: string)
    requires n <= |ids| == |reqs|
    ensures c in TablesAt(ids, reqs, n).extended <==> BuiltOn(ids, reqs, n, c)
    decreases n
  {
    if n > 0 {
      ExtendedIs(ids, reqs, n - 1, c);
      ExtendedByOne(ids, reqs, n - 1, c);
      OneMoreBuilder(ids, reqs, n - 1, c);
    }
  }

  lemma OneMoreBuilder(ids: seq<string>, reqs: seq<set<string>>, n: nat, c: string)
    ensures BuiltOn(ids, reqs, n + 1, c) <==> BuiltOn(ids, reqs, n, c) || BuildsOn(ids, reqs, n, c)
  {
  }

  lemma ExtendedByOne(ids: seq<string>, reqs: seq<set<string>>, k: nat, c: string)
    requires k < |ids| == |reqs|
    ensures c in TablesAt(ids, reqs, k + 1).extended <==>
      c in TablesAt(ids, reqs, k).extended || BuildsOn(ids, reqs, k, c)
  {
    EndsAreLast(ids, reqs, k, c);
    if k > 0 && ids[k] != ids[k - 1] {
      ListsIs(ids, reqs, k);
    }
    assert k == 0 ==> TablesAt(ids, reqs, 0).extended == {};
  }

  lemma ListedRequires(ids: seq<string>, reqs: seq<set<string>>, j: nat, m: nat)
    requires j < |ids| == |reqs| && Lists(ids, reqs, j)
    ensures m in ListedEnds(reqs[j], TablesAt(ids, reqs, j).ends[ids[j] := j]) <==> Requires(ids, reqs, j, m)
  {
    var ends := TablesAt(ids, reqs, j).ends;
    forall c
      ensures (c in ends && ends[c] == m) <==> LastBefore(ids, c, j, m)
    {
      EndsBefore(ids, reqs, j, c);
    }
    var all := ends[ids[j] := j];
    if m in ListedEnds(reqs[j], all) {
      var c :| c in reqs[j] && c in all && m == all[c];
      assert if c == ids[j] then m == j else LastBefore(ids, c, j, m);
    }
    if Requires(ids, reqs, j, m) {
      var c :| c in reqs[j] && if c == ids[j] then m == j else LastBefore(ids, c, j, m);
      assert c in all && all[c] == m;
    }
  }

  lemma OpenRequires(ids: seq<string>, reqs: seq<set<string>>, j: nat, m: nat)
    requires 0 < j < |ids| == |reqs| && ids[j] != ids[j - 1] && !Lists(ids, reqs, j) && ids[j] == ""
    ensures m in {j - 1} + OpenEnds(TablesAt(ids, reqs, j).ends, TablesAt(ids, reqs, j).extended) <==>
      Requires(ids, reqs, j, m)
  {
    var a := TablesAt(ids, reqs, j);
    forall c
      ensures (c in a.ends && a.ends[c] == m) <==> LastBefore(ids, c, j, m)
      ensures c in a.extended <==> BuiltOn(ids, reqs, j, c)
    {
      EndsBefore(ids, reqs, j, c);
      ExtendedIs(ids, reqs, j, c);
    }
    if m in OpenEnds(a.ends, a.extended) {
      var c :| c in a.ends && c !in a.extended && c != "" && m == a.ends[c];
      assert LastBefore(ids, c, j, m) && ids[m] == c;
    }
    if m < j && ids[m] != "" && LastBefore(ids, ids[m], j, m) && ids[m] !in a.extended {
      assert a.ends[ids[m]] == m;
    }
  }

  /** The tables give each phase exactly the direct requirements of `Requires`. */
  lemma DirectlyRequires(ids: seq<string>, reqs: seq<set<string>>, j: nat, m: nat)
    requires j < |ids| == |reqs|
    ensures m in Required(ids, reqs)[j] <==> Requires(ids, reqs, j, m)
  {
    RequiredIsStable(ids, reqs, j, |ids|);
    if j > 0 && ids[j] != ids[j - 1] {
      ListsIs(ids, reqs, j);
      EndsBefore(ids, reqs, j, ids[j]);
      EndsBefore(ids, reqs, j, "");
      if Lists(ids, reqs, j) {
        ListedRequires(ids, reqs, j, m);
      } else if ids[j] == "" {
        OpenRequires(ids, reqs, j, m);
      }
    }
  }

  /** The first phase of a section, or of the suffix, that lists clusters seen before: their last phases. */
  lemma EndsAtSection(ids: seq<string>, reqs: seq<set<string>>, p: nat, q: nat, j: nat, b: string)
    requires Sectioned(ids, reqs, p, q) && p <= j <= q && j < |ids|
    ensures var ends := TablesAt(ids, reqs, j).ends;
      (b in ends <==> FirstOf(ids, b) < j) && (b in ends && b != "" && b != ids[j] ==> LastOf(ids, b, ends[b]))
  {
    EndsAreLast(ids, reqs, j, b);
    SeenIsFirst(ids, b, j);
    var ends := TablesAt(ids, reqs, j).ends;
    if b in ends && b != "" && b != ids[j] {
      SeenIsComplete(ids, reqs, p, q, j, b, ends[b]);
    }
  }

  lemma ListedRound(ids: seq<string>, reqs: seq<set<string>>, j: nat)
    requires 0 < j < |ids| == |reqs| && ids[j] != ids[j - 1] && ids[j] !in reqs[j]
    requires reqs[j] * TablesAt(ids, reqs, j).ends.Keys != {}
    ensures Required(ids, reqs)[j] == ListedEnds(reqs[j], TablesAt(ids, reqs, j).ends)
  {
    RequiredIsStable(ids, reqs, j, |ids|);
  }

  lemma DirectListed(ids: seq<string>, reqs: seq<set<string>>, p: nat, q: nat, j: nat)
    requires Sectioned(ids, reqs, p, q) && p <= j <= q && 0 < j < |ids| && ids[j] != ids[j - 1]
    requires !Unlisted(ids, reqs, j)
    ensures forall b, m :: b in reqs[j] && FirstOf(ids, b) < j && LastOf(ids, b, m) ==> m in Required(ids, reqs)[j]
    ensures forall m :: m in Required(ids, reqs)[j] ==>
      exists b :: b in reqs[j] && FirstOf(ids, b) < j && LastOf(ids, b, m)
  {
    var ends := TablesAt(ids, reqs, j).ends;
    forall b: string
      ensures b in ends <==> FirstOf(ids, b) < j
      ensures b in ends && b in reqs[j] ==> LastOf(ids, b, ends[b])
    {
      EndsAtSection(ids, reqs, p, q, j, b);
    }
    var b0 :| b0 in reqs[j] && FirstOf(ids, b0) < j;
    assert b0 in reqs[j] * ends.Keys;
    ListedRound(ids, reqs, j);
    forall b, m | b in reqs[j] && FirstOf(ids, b) < j && LastOf(ids, b, m)
      ensures m in ListedEnds(reqs[j], ends)
    {
      assert LastOf(ids, b, ends[b]) && m == ends[b];
    }
  }

  /** A section starts at its first phase. */
  lemma SectionStart(ids: seq<string>, reqs: seq<set<string>>, p: nat, q: nat, j: nat)
    requires Sectioned(ids, reqs, p, q) && p <= j < q && (j == 0 || ids[j] != ids[j - 1])
    ensures FirstOf(ids, ids[j]) == j
  {
  }

  lemma UnlistedMeets(ids: seq<string>, reqs: seq<set<string>>, p: nat, q: nat, j: nat)
    requires Sectioned(ids, reqs, p, q) && p <= j <= q && j < |ids| && Unlisted(ids, reqs, j)
    ensures reqs[j] * TablesAt(ids, reqs, j).ends.Keys == {}
  {
    forall b | b in reqs[j]
      ensures b !in TablesAt(ids, reqs, j).ends
    {
      EndsAtSection(ids, reqs, p, q, j, b);
    }
  }

  /** The first phase of a section that lists nothing seen before waits for the last prefix phase. */
  lemma DirectFirst(ids: seq<string>, reqs: seq<set<string>>, p: nat, q: nat, j: nat)
    requires Sectioned(ids, reqs, p, q) && p <= j < q && 0 < j && ids[j] != ids[j - 1] && Unlisted(ids, reqs, j)
    ensures Required(ids, reqs)[j] == if p > 0 then {p - 1} else {}
  {
    UnlistedMeets(ids, reqs, p, q, j);
    SectionStart(ids, reqs, p, q, j);
    EndsAtSection(ids, reqs, p, q, j, ids[j]);
    EndsAreLast(ids, reqs, j, "");
    RequiredIsStable(ids, reqs, j, |ids|);
    if p > 0 {
      assert ids[p - 1] == "";
      assert Seen(ids, "", j);
    }
  }

  lemma BarrierRound(ids: seq<string>, reqs: seq<set<string>>, p: nat, q: nat)
    requires Sectioned(ids, reqs, p, q) && p < q < |ids| && Unlisted(ids, reqs, q)
    ensures Required(ids, reqs)[q] ==
      {q - 1} + OpenEnds(TablesAt(ids, reqs, q).ends, TablesAt(ids, reqs, q).extended)
  {
    UnlistedMeets(ids, reqs, p, q, q);
    RequiredIsStable(ids, reqs, q, |ids|);
  }

  /** The first suffix phase that lists no cluster waits for the phase before and the ends nobody built on. */
  lemma DirectBarrier(ids: seq<string>, reqs: seq<set<string>>, p: nat, q: nat, c: string)
    requires Sectioned(ids, reqs, p, q) && p < q < |ids| && Unlisted(ids, reqs, q)
    requires c != "" && FirstOf(ids, c) < q
    ensures q - 1 in Required(ids, reqs)[q]
    ensures forall m :: m in Required(ids, reqs)[q] ==> p <= m < q
    ensures c !in TablesAt(ids, reqs, q).extended ==> exists m :: m in Required(ids, reqs)[q] && LastOf(ids, c, m)
  {
    BarrierRound(ids, reqs, p, q);
    var a := TablesAt(ids, reqs, q);
    forall m | m in OpenEnds(a.ends, a.extended)
      ensures p <= m < q
    {
      var b :| b in a.ends && b !in a.extended && b != "" && m == a.ends[b];
      EndsAreLast(ids, reqs, q, b);
    }
    EndsAtSection(ids, reqs, p, q, q, c);
    if c !in a.extended {
      assert a.ends[c] in OpenEnds(a.ends, a.extended);
    }
  }

  // ---------- the cone unfolds along the direct requirements ----------

  lemma {:induction false} NeedsIsEarlier(ids: seq<string>, reqs: seq<set<string>>, p: nat, q: nat, f: nat, a: string)
    requires Sectioned(ids, reqs, p, q) && f < |ids| && Needs(ids, reqs, f, a)
    ensures FirstOf(ids, a) < f && a != "" && a != ids[f]
    decreases f
  {
    var b :| b in reqs[f] && FirstOf(ids, b) < f && (b == a || Needs(ids, reqs, FirstOf(ids, b), a));
    if b != a {
      NeedsIsEarlier(ids, reqs, p, q, FirstOf(ids, b), a);
    }
  }

  /** Some direct requirement of `j` is `k` or has it in its cone. */
  ghost predicate Via(ids: seq<string>, reqs: seq<set<string>>, p: nat, q: nat, j: nat, k: nat)
    requires Sectioned(ids, reqs, p, q) && j < |ids| && k < |ids|
  {
    exists m :: m in Required(ids, reqs)[j] && m < j && (m == k || Cone(ids, reqs, p, q, m, k))
  }

  lemma StepFirstPhase(ids: seq<string>, reqs: seq<set<string>>, p: nat, q: nat, k: nat)
    requires Sectioned(ids, reqs, p, q) && 0 < |ids| && k < |ids|
    ensures !Cone(ids, reqs, p, q, 0, k) && !Via(ids, reqs, p, q, 0, k)
  {
  }

  lemma StepContinued(ids: seq<string>, reqs: seq<set<string>>, p: nat, q: nat, j: nat, k: nat)
    requires Sectioned(ids, reqs, p, q) && 0 < j < |ids| && k < |ids| && ids[j] == ids[j - 1]
    ensures Cone(ids, reqs, p, q, j, k) <==> Via(ids, reqs, p, q, j, k)
  {
    DirectContinued(ids, reqs, j);
  }

  lemma StepFirst(ids: seq<string>, reqs: seq<set<string>>, p: nat, q: nat, j: nat, k: nat)
    requires Sectioned(ids, reqs, p, q) && p <= j < q && 0 < j && ids[j] != ids[j - 1] && k < |ids|
    requires Unlisted(ids, reqs, j)
    ensures Cone(ids, reqs, p, q, j, k) <==> Via(ids, reqs, p, q, j, k)
  {
    DirectFirst(ids, reqs, p, q, j);
    SectionStart(ids, reqs, p, q, j);
    if p <= k < j {
      assert ids[k] != ids[j];
    }
  }

  /** Everything in the cone of the last phase of a listed cluster. */
  lemma LastCone(ids: seq<string>, reqs: seq<set<string>>, p: nat, q: nat, b: string, m: nat, k: nat)
    requires Sectioned(ids, reqs, p, q) && b != "" && LastOf(ids, b, m) && k < |ids|
    ensures p <= m < q
    ensures m == k || Cone(ids, reqs, p, q, m, k) <==>
      k < p || (p <= k < q && (ids[k] == b || Needs(ids, reqs, FirstOf(ids, b), ids[k])))
  {
    if p <= k < q && Needs(ids, reqs, FirstOf(ids, b), ids[k]) {
      NeedsIsEarlier(ids, reqs, p, q, FirstOf(ids, b), ids[k]);
      BlocksDoNotMix(ids, reqs, p, q, FirstOf(ids, b), k);
    }
  }

  /** If the section of `k` starts before phase `f` of another section, all of it lies before `f`. */
  lemma BlocksDoNotMix(ids: seq<string>, reqs: seq<set<string>>, p: nat, q: nat, f: nat, k: nat)
    requires Sectioned(ids, reqs, p, q) && p <= k < q && p <= f < q
    requires FirstOf(ids, ids[k]) < f && ids[k] != ids[f]
    ensures k < f
  {
  }

  lemma {:induction false} HasLast(ids: seq<string>, c: string, n: nat) returns (m: nat)
    requires n <= |ids| && FirstOf(ids, c) < n
    requires forall i :: n <= i < |ids| ==> ids[i] != c
    ensures LastOf(ids, c, m) && m < n
    decreases n
  {
    if ids[n - 1] == c {
      m := n - 1;
    } else {
      m := HasLast(ids, c, n - 1);
    }
  }

  lemma ListedLeadsTo(ids: seq<string>, reqs: seq<set<string>>, p: nat, q: nat, j: nat, b: string, m: nat, k: nat)
    requires Sectioned(ids, reqs, p, q) && p <= j <= q && 0 < j < |ids| && k < |ids|
    requires j < q ==> FirstOf(ids, ids[j]) == j
    requires b in reqs[j] && FirstOf(ids, b) < j && LastOf(ids, b, m) && m < j
    requires m == k || Cone(ids, reqs, p, q, m, k)
    ensures Cone(ids, reqs, p, q, j, k)
  {
  }

  lemma ListedIsSound(ids: seq<string>, reqs: seq<set<string>>, p: nat, q: nat, j: nat, k: nat)
    requires Sectioned(ids, reqs, p, q) && p <= j <= q && 0 < j < |ids| && ids[j] != ids[j - 1] && k < |ids|
    requires !Unlisted(ids, reqs, j) && Via(ids, reqs, p, q, j, k)
    ensures Cone(ids, reqs, p, q, j, k)
  {
    DirectListed(ids, reqs, p, q, j);
    if j < q {
      SectionStart(ids, reqs, p, q, j);
    }
    var m :| m in Required(ids, reqs)[j] && m < j && (m == k || Cone(ids, reqs, p, q, m, k));
    var b :| b in reqs[j] && FirstOf(ids, b) < j && LastOf(ids, b, m);
    ListedLeadsTo(ids, reqs, p, q, j, b, m, k);
  }

  lemma ListedIsComplete(ids: seq<string>, reqs: seq<set<string>>, p: nat, q: nat, j: nat, k: nat)
    requires Sectioned(ids, reqs, p, q) && p <= j <= q && 0 < j < |ids| && ids[j] != ids[j - 1] && k < |ids|
    requires !Unlisted(ids, reqs, j) && Cone(ids, reqs, p, q, j, k)
    ensures Via(ids, reqs, p, q, j, k)
  {
    if j < q {
      SectionStart(ids, reqs, p, q, j);
    }
    var b := ListedToward(ids, reqs, p, q, j, k);
    var m := HasLast(ids, b, |ids|);
    LastCone(ids, reqs, p, q, b, m, k);
    LastIsBefore(ids, reqs, p, q, j, b, m);
    DirectListed(ids, reqs, p, q, j);
    assert m in Required(ids, reqs)[j];
  }

  /** A listed cluster on the way to `k`. */
  lemma ListedToward(ids: seq<string>, reqs: seq<set<string>>, p: nat, q: nat, j: nat, k: nat) returns (b: string)
    requires Sectioned(ids, reqs, p, q) && p <= j <= q && j < |ids| && k < |ids|
    requires j < q ==> FirstOf(ids, ids[j]) == j
    requires !Unlisted(ids, reqs, j) && Cone(ids, reqs, p, q, j, k)
    ensures b in reqs[j] && FirstOf(ids, b) < j
    ensures k < p || (p <= k < q && (ids[k] == b || Needs(ids, reqs, FirstOf(ids, b), ids[k])))
  {
    if k < p {
      b :| b in reqs[j] && FirstOf(ids, b) < j;
    } else {
      assert ids[k] != ids[j];
      assert Needs(ids, reqs, j, ids[k]);
      b :| b in reqs[j] && FirstOf(ids, b) < j && (b == ids[k] || Needs(ids, reqs, FirstOf(ids, b), ids[k]));
    }
  }

  lemma LastIsBefore(ids: seq<string>, reqs: seq<set<string>>, p: nat, q: nat, j: nat, b: string, m: nat)
    requires Sectioned(ids, reqs, p, q) && p <= j <= q && j < |ids|
    requires b in reqs[j] && FirstOf(ids, b) < j && LastOf(ids, b, m)
    ensures m < j
  {
  }

  lemma {:induction false} NeedsTrans(ids: seq<string>, reqs: seq<set<string>>, f: nat, b: string, c: string)
    requires f < |ids| == |reqs| && Needs(ids, reqs, f, b)
    requires FirstOf(ids, b) < |ids| && Needs(ids, reqs, FirstOf(ids, b), c)
    ensures Needs(ids, reqs, f, c)
    decreases f
  {
    var x :| x in reqs[f] && FirstOf(ids, x) < f && (x == b || Needs(ids, reqs, FirstOf(ids, x), b));
    if x != b {
      NeedsTrans(ids, reqs, FirstOf(ids, x), b, c);
    }
  }

  /** What has the last phase of `b` in its cone, where `b` builds on `c`, has the last phase of `c` there too. */
  lemma ThroughBuilder(ids: seq<string>, reqs: seq<set<string>>, p: nat, q: nat, m: nat, b: string, eb: nat, c: string,
                       ec: nat)
    requires Sectioned(ids, reqs, p, q) && p <= m < q
    requires b != "" && c != "" && LastOf(ids, b, eb) && LastOf(ids, c, ec)
    requires m == eb || Cone(ids, reqs, p, q, m, eb)
    requires FirstOf(ids, b) < |ids| && c in reqs[FirstOf(ids, b)] && FirstOf(ids, c) < FirstOf(ids, b)
    ensures Cone(ids, reqs, p, q, m, ec)
  {
    var f := FirstOf(ids, b);
    assert Needs(ids, reqs, f, c);
    BlocksDoNotMix(ids, reqs, p, q, f, ec);
    assert ec < f <= eb <= m;
    if ids[m] != b {
      NeedsTrans(ids, reqs, FirstOf(ids, ids[m]), b, c);
    }
  }

  /** Who builds on a cluster that counts as extended. */
  lemma BuilderOf(ids: seq<string>, reqs: seq<set<string>>, p: nat, q: nat, c: string) returns (b: string)
    requires Sectioned(ids, reqs, p, q) && q < |ids| && c in TablesAt(ids, reqs, q).extended
    ensures b != "" && p <= FirstOf(ids, b) < q && c in reqs[FirstOf(ids, b)] && FirstOf(ids, c) < FirstOf(ids, b)
  {
    ExtendedHasExtender(ids, reqs, q, c);
    var f: nat :| f < q && Extender(ids, reqs, c, f);
    assert p <= f;
    SectionStart(ids, reqs, p, q, f);
    SeenIsFirst(ids, c, f);
    b := ids[f];
  }

  /** Every cluster ends in the cone of a direct requirement of the first suffix phase. */
  lemma {:induction false} BarrierCovers(ids: seq<string>, reqs: seq<set<string>>, p: nat, q: nat, c: string)
    returns (m: nat, e: nat)
    requires Sectioned(ids, reqs, p, q) && p < q < |ids| && Unlisted(ids, reqs, q)
    requires c != "" && FirstOf(ids, c) < q
    ensures m in Required(ids, reqs)[q] && p <= m < q && LastOf(ids, c, e)
    ensures m == e || Cone(ids, reqs, p, q, m, e)
    decreases |ids| - FirstOf(ids, c)
  {
    DirectBarrier(ids, reqs, p, q, c);
    e := HasLast(ids, c, |ids|);
    if c !in TablesAt(ids, reqs, q).extended {
      m :| m in Required(ids, reqs)[q] && LastOf(ids, c, m);
    } else {
      var b := BuilderOf(ids, reqs, p, q, c);
      var eb;
      m, eb := BarrierCovers(ids, reqs, p, q, b);
      ThroughBuilder(ids, reqs, p, q, m, b, eb, c, e);
    }
  }

  lemma StepBarrier(ids: seq<string>, reqs: seq<set<string>>, p: nat, q: nat, k: nat)
    requires Sectioned(ids, reqs, p, q) && p < q < |ids| && Unlisted(ids, reqs, q) && k < |ids|
    ensures Cone(ids, reqs, p, q, q, k) <==> Via(ids, reqs, p, q, q, k)
  {
    DirectBarrier(ids, reqs, p, q, ids[q - 1]);
    if k < p {
      assert Cone(ids, reqs, p, q, q - 1, k);
    } else if k < q {
      var m, e := BarrierCovers(ids, reqs, p, q, ids[k]);
      assert m == k || Cone(ids, reqs, p, q, m, k);
    }
  }

  // ---------- the theorem ----------

  lemma ConeStep(ids: seq<string>, reqs: seq<set<string>>, p: nat, q: nat, j: nat, k: nat)
    requires Sectioned(ids, reqs, p, q) && j < |ids| && k < |ids|
    ensures Cone(ids, reqs, p, q, j, k) <==> Via(ids, reqs, p, q, j, k)
  {
    if j == 0 {
      StepFirstPhase(ids, reqs, p, q, k);
    } else if ids[j] == ids[j - 1] {
      StepContinued(ids, reqs, p, q, j, k);
    } else if !Unlisted(ids, reqs, j) {
      if k < j {
        StepListed(ids, reqs, p, q, j, k);
      }
    } else if j < q {
      StepFirst(ids, reqs, p, q, j, k);
    } else {
      StepBarrier(ids, reqs, p, q, k);
    }
  }

  lemma StepListed(ids: seq<string>, reqs: seq<set<string>>, p: nat, q: nat, j: nat, k: nat)
    requires Sectioned(ids, reqs, p, q) && p <= j <= q && 0 < j < |ids| && ids[j] != ids[j - 1] && k < |ids|
    requires !Unlisted(ids, reqs, j)
    ensures Cone(ids, reqs, p, q, j, k) <==> Via(ids, reqs, p, q, j, k)
  {
    if Cone(ids, reqs, p, q, j, k) {
      ListedIsComplete(ids, reqs, p, q, j, k);
    }
    if Via(ids, reqs, p, q, j, k) {
      ListedIsSound(ids, reqs, p, q, j, k);
    }
  }

  /**
   * Phase `j` waits for phase `k`, directly or not, exactly when `k` is in its cone: prefix phases, earlier
   * phases of its own cluster, the clusters it builds on; for a suffix phase everything before, provided
   * that the suffix starts with a phase that lists no cluster, and else only the clusters listed.
   */
  lemma {:induction false} ReachIsCone(ids: seq<string>, reqs: seq<set<string>>, p: nat, q: nat, j: nat, k: nat)
    requires Sectioned(ids, reqs, p, q) && j < |ids| && k < |ids|
    ensures Reach(Required(ids, reqs), j, k) <==> Cone(ids, reqs, p, q, j, k)
    decreases j
  {
    ConeStep(ids, reqs, p, q, j, k);
    forall m: nat | m < j
      ensures Reach(Required(ids, reqs), m, k) <==> Cone(ids, reqs, p, q, m, k)
    {
      ReachIsCone(ids, reqs, p, q, m, k);
    }
  }

  /** Phase `j` waits for every phase before it. */
  ghost predicate Barrier(required: seq<set<nat>>, j: nat) {
    forall k: nat :: k < j ==> Reach(required, j, k)
  }

  /** Phase `f` builds on every cluster that has a phase before it. */
  ghost predicate NeedsAll(ids: seq<string>, reqs: seq<set<string>>, p: nat, f: nat)
    requires f < |ids| == |reqs|
  {
    forall i :: p <= i < f ==> Needs(ids, reqs, f, ids[i])
  }

  /**
   * The barrier in front of the suffix is complete exactly when the first suffix phase lists no cluster, or
   * builds on every cluster of the plan.
   */
  lemma SuffixBarrier(ids: seq<string>, reqs: seq<set<string>>, p: nat, q: nat, j: nat)
    requires Sectioned(ids, reqs, p, q) && p < q <= j < |ids|
    ensures Barrier(Required(ids, reqs), j) <==> Unlisted(ids, reqs, q) || NeedsAll(ids, reqs, p, q)
  {
    forall k: nat | k < j
      ensures Reach(Required(ids, reqs), j, k) <==> Cone(ids, reqs, p, q, j, k)
    {
      ReachIsCone(ids, reqs, p, q, j, k);
    }
    if Barrier(Required(ids, reqs), j) && !Unlisted(ids, reqs, q) {
      forall i: nat | p <= i < q
        ensures Needs(ids, reqs, q, ids[i])
      {
        assert Reach(Required(ids, reqs), j, i);
      }
    }
  }

  /** A suffix phase that lists one of two clusters does not wait for the other. */
  lemma PartialBarrier() returns (ids: seq<string>, reqs: seq<set<string>>)
    ensures Sectioned(ids, reqs, 0, 2) && |ids| == 3 && ids[2] == ""
    ensures !Reach(Required(ids, reqs), 2, 1)
  {
    ids, reqs := ["a", "b", ""], [{}, {}, {"a"}];
    OnlyFirstIsNeeded(ids, reqs);
    ReachIsCone(ids, reqs, 0, 2, 2, 1);
  }

  lemma OnlyFirstIsNeeded(ids: seq<string>, reqs: seq<set<string>>)
    requires ids == ["a", "b", ""] && reqs == [{}, {}, {"a"}]
    ensures Sectioned(ids, reqs, 0, 2) && !Unlisted(ids, reqs, 2) && !Needs(ids, reqs, 2, "b")
  {
    assert FirstOf(ids, "a") == 0 && "a" in reqs[2];
    assert ids[1..] == ["b", ""] && FirstOf(ids[1..], "b") == 0 && FirstOf(ids, "b") == 1;
    assert !Needs(ids, reqs, 0, "b");
  }
}
