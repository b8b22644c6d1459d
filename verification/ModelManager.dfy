/** The model manager: it owns the store, and changes it item by item. */
module ModelManagers {
  import opened Items
  import opened Stores
  import opened Removal
  import opened Snapshots
  import opened Histories
  import opened PostPlans

  // ---------- lemmas on paths ----------

  lemma AncestorOfParent(p: Path, q: Path)
    requires p != []
    ensures Above(q, p) <==> q == Parent(p) || Above(q, Parent(p))
  {
  }

  /** Whatever is beside `p` is a sibling of `p` or has a parent beside `p`. */
  lemma BesideParent(p: Path, q: Path)
    requires Beside(p, q)
    ensures q != [] && (Parent(q) == Parent(p) || Beside(p, Parent(q)))
  {
  }

  /** And its children are beside `p` too. */
  lemma BesideChild(p: Path, q: Path)
    requires q != [] && q != p && p != [] && (Parent(q) == Parent(p) || Beside(p, Parent(q)))
    ensures Beside(p, q)
  {
  }

  /** The items found so far, `done`, and those still to be expanded, `queue`, among the items beside `p`. */
  ghost predicate Expanding(s: Store, p: Path, queue: set<Path>, done: set<Path>) {
    && queue !! done
    && (forall q :: q in queue || q in done ==>
      q in s && q != p && q != [] && (Parent(q) == Parent(p) || Parent(q) in done))
    && (forall q :: q in s && q != p && q != [] && (Parent(q) == Parent(p) || Parent(q) in done) ==>
      q in queue || q in done)
  }

  lemma {:induction false} ExpandedIsBeside(s: Store, p: Path, queue: set<Path>, done: set<Path>, q: Path)
    requires Expanding(s, p, queue, done) && p != [] && (q in queue || q in done)
    ensures Beside(p, q)
    decreases |q|
  {
    if Parent(q) != Parent(p) {
      ExpandedIsBeside(s, p, queue, done, Parent(q));
    }
    BesideChild(p, q);
  }

  lemma {:induction false} BesideIsExpanded(s: Store, clock: nat, p: Path, done: set<Path>, q: Path)
    requires Consistent(s, clock) && Expanding(s, p, {}, done) && q in s && Beside(p, q)
    ensures q in done
    decreases |q|
  {
    BesideParent(p, q);
    assert Fits(s, clock, q);
    if Parent(q) != Parent(p) {
      BesideIsExpanded(s, clock, p, done, Parent(q));
    }
  }

  lemma ExpandOne(s: Store, p: Path, queue: set<Path>, done: set<Path>, q: Path)
    requires Expanding(s, p, queue, done) && q in queue && p != []
    ensures Expanding(s, p, queue - {q} + ChildrenOf(s, q), done + {q})
  {
    ExpandedIsBeside(s, p, queue, done, q);
  }

  lemma SetOfTail(list: seq<Path>)
    requires list != []
    ensures list[0] in SetOf(list) && SetOf(list) - {list[0]} <= SetOf(list[1..]) <= SetOf(list)
  {
  }

  lemma DirectInheritors(s: Store, clock: nat, p: Path)
    requires Dated(s, clock) && p in s
    ensures forall q :: q in s && s[q].source == Some(p) <==> SourceOf(s, q) == Some(p)
  {
  }

  ghost predicate FromAny(s: Store, r: Path, roots: set<Path>) {
    exists q :: q in roots && (r == q || Inherits(s, r, q))
  }

  ghost predicate Listed(s: Store, list: seq<Path>, roots: set<Path>) {
    forall r :: r in list <==> FromAny(s, r, roots)
  }

  lemma ListMore(s: Store, list: seq<Path>, roots: set<Path>, q: Path, more: seq<Path>)
    requires Listed(s, list, roots) && SetOf(more) == InheritorsOf(s, q)
    ensures Listed(s, list + [q] + more, roots + {q})
  {
    forall r
      ensures r in list + [q] + more <==> FromAny(s, r, roots + {q})
    {
      assert r in more <==> r in SetOf(more);
      assert r in SetOf(more) <==> Inherits(s, r, q);
      assert r in list <==> FromAny(s, r, roots);
      if r == q || Inherits(s, r, q) {
        assert q in roots + {q};
      }
      if FromAny(s, r, roots) {
        var x :| x in roots && (r == x || Inherits(s, r, x));
        assert x in roots + {q};
      }
    }
  }

  lemma ListedAll(s: Store, p: Path, list: seq<Path>, direct: set<Path>)
    requires Listed(s, list, direct) && forall q :: q in direct <==> SourceOf(s, q) == Some(p)
    ensures SetOf(list) == InheritorsOf(s, p)
  {
    forall r
      ensures r in SetOf(list) <==> r in InheritorsOf(s, p)
    {
      assert r in list <==> FromAny(s, r, direct);
      if Inherits(s, r, p) {
        var q := InheritsFrom(s, r, p);
        assert q in direct;
      }
      if FromAny(s, r, direct) {
        var q :| q in direct && (r == q || Inherits(s, r, q));
        if r != q {
          InheritsTrans(s, r, q, p);
        }
      }
    }
  }

  ghost predicate AllCanDelete(s: Store, list: seq<Path>) {
    forall q :: q in list ==> q in s && CanDelete(s, q)
  }

  lemma AllCanDeleteSnoc(s: Store, list: seq<Path>, i: nat)
    requires i < |list| && AllCanDelete(s, list[..i]) && list[i] in s && CanDelete(s, list[i])
    ensures AllCanDelete(s, list[..i + 1])
  {
  }

  /** The check for deletion may be made inheritor by inheritor. */
  lemma CanDeleteByInheritors(s: Store, p: Path, list: seq<Path>)
    requires p in s && SetOf(list) == InheritorsOf(s, p)
    ensures CanDelete(s, p) <==> CanDeleteAlone(s, p) && AllCanDelete(s, list)
    ensures forall q :: q in list ==> q in s && s[p].born < s[q].born
  {
    forall q | q in list
      ensures q in s && s[p].born < s[q].born && (CanDelete(s, p) ==> CanDelete(s, q))
    {
      assert q in InheritorsOf(s, p);
      InheritorsAreYounger(s, q, p);
      forall r | Inherits(s, r, q)
        ensures Inherits(s, r, p)
      {
        InheritsTrans(s, r, q, p);
      }
    }
    forall q | Inherits(s, q, p)
      ensures q in list
    {
      assert q in InheritorsOf(s, p);
    }
  }

  /** One more item is applied. */
  lemma ApplyNext(s: Store, exceptions: set<Path>, p: Path)
    requires p in s && p !in exceptions
    ensures var s1 := AllApplied(s, exceptions + {p});
            AllApplied(s, exceptions) ==
            if s1[p].state.Applied? then s1 else s1[p := SetState(s1[p], Applied, Merged(s1, p))]
  {
    var s1 := AllApplied(s, exceptions + {p});
    assert Restated(s, s1);
    RestatedMerged(s, s1, p);
  }

  /** A round of the loop: what is still to be visited counts as an exception. */
  lemma ApplyOneOf(s0: Store, exceptions: set<Path>, left: set<Path>, p: Path)
    requires p in left && left <= s0.Keys
    ensures var s := AllApplied(s0, exceptions + left);
            AllApplied(s0, exceptions + (left - {p})) ==
            if p !in exceptions && !s[p].state.Applied? then s[p := SetState(s[p], Applied, Merged(s, p))] else s
  {
    if p in exceptions {
      assert exceptions + (left - {p}) == exceptions + left;
    } else {
      ApplyNext(s0, exceptions + (left - {p}), p);
      assert exceptions + left == exceptions + (left - {p}) + {p};
    }
  }

  lemma NonConfigsNext(s: Store, list: seq<Path>, i: nat, changes: Changes)
    requires i < |list| && forall q :: q in list ==> q in s
    ensures list[i] in s && (forall q :: q in list[..i] ==> q in s) && forall q :: q in list[..i + 1] ==> q in s
    ensures NonConfigs(s, list[..i + 1], changes) == NonConfigStep(NonConfigs(s, list[..i], changes), list[i], changes)
  {
    assert list[..i + 1][..i] == list[..i] && list[i] in list;
  }

  lemma InheritorStatesNext(s: Store, list: seq<Path>, i: nat, changes: Changes)
    requires i < |list| && forall q :: q in list ==> q in s
    ensures list[i] in s && (forall q :: q in list[..i] ==> q in s) && forall q :: q in list[..i + 1] ==> q in s
    ensures InheritorStates(s, list[..i + 1], changes) ==
      InheritorStep(InheritorStates(s, list[..i], changes), list[i], changes)
  {
    assert list[..i + 1][..i] == list[..i] && list[i] in list;
  }

  /** The inheritors of `p` recovered so far are `visits`; those in `left` are still to be looked at. */
  ghost predicate RecoveringInheritors(s0: Store, s: Store, p: Path, left: set<Path>, visits: seq<Path>) {
    && (forall q :: q in visits ==> q in s0) && s == Recovered(s0, visits)
    && (forall q :: q in left ==> Inherits(s0, q, p))
    && forall q :: q in visits || (q in left && !HasOverwritten(s0, q)) <==>
      Inherits(s0, q, p) && !HasOverwritten(s0, q)
  }

  lemma NextInheritor(s0: Store, s: Store, p: Path, left: set<Path>, visits: seq<Path>, q: Path, rest: set<Path>)
    requires RecoveringInheritors(s0, s, p, left, visits) && q in left && left - {q} <= rest <= left
    ensures q in s && (HasOverwritten(s, q) <==> HasOverwritten(s0, q))
    ensures var next := if HasOverwritten(s, q) then s else s[q := SetPreviousState(s[q], Merged(s, q))];
            RecoveringInheritors(s0, next, p, rest, if HasOverwritten(s, q) then visits else visits + [q])
  {
    InheritorsAreYounger(s0, q, p);
    SameOverwritten(s0, visits, q);
    if !HasOverwritten(s, q) {
      RecoveredSnoc(s0, visits, q);
    }
  }

  lemma SameOverwritten(s: Store, visits: seq<Path>, q: Path)
    requires (forall r :: r in visits ==> r in s) && q in s
    ensures HasOverwritten(Recovered(s, visits), q) <==> HasOverwritten(s, q)
  {
    RecoveredIsRestated(s, visits);
    PartSources(s, Recovered(s, visits), q);
  }

  lemma RecoveredSnoc(s: Store, visits: seq<Path>, q: Path)
    requires (forall r :: r in visits ==> r in s) && q in s
    ensures forall r :: r in visits + [q] ==> r in s
    ensures var most := Recovered(s, visits);
      Recovered(s, visits + [q]) == most[q := SetPreviousState(most[q], Merged(most, q))]
  {
    assert (visits + [q])[..|visits|] == visits;
  }

  /** Where the deletion after a plan stands when an item has its turn. */
  lemma AtTurn(s0: Store, clock: nat, s: Store, list: seq<Path>, i: nat)
    requires Consistent(s0, clock) && Schedule(s0, list) && i < |list|
    requires s == Deleting(s0, list[..i])
    ensures Dated(s, clock) && list[i] in s && list[i] in s0 && s[list[i]] == s0[list[i]]
  {
    AllNamed(s0, clock);
    DeletingGoesOn(s0, list, i);
    DeletingStates(s0, s, SetOf(list[..i]));
    ConsistentIsDated(s0, clock);
    NextHandled(list, i);
    assert list[i] in list && list[i] in RemovedOf(s0);
    assert DeletingAt(s0, s, SetOf(list[..i]), list[i]);
  }

  /** The store with the given items marked for removal. */
  function Marked(s: Store, paths: set<Path>): Store {
    map q | q in s :: if q in paths then SetState(s[q], ForRemoval, map[]) else s[q]
  }

  lemma MarkedIsReset(s: Store, p: Path, children: set<Path>)
    requires p in s && children == set c | c in ChildrenOf(s, p) && s[c].state.Removed?
    ensures forall merged ::
      Marked(s, children)[p := SetState(Marked(s, children)[p], ForRemoval, merged)] == Reset(s, p)
  {
  }

  lemma NextTurn(s0: Store, list: seq<Path>, i: nat)
    requires i < |list| && forall p :: p in list ==> p in s0
    ensures Deleting(s0, list[..i + 1]) == DeleteOrReset(Deleting(s0, list[..i]), list[i])
    ensures (forall p :: p in list[..i] ==> p in s0) && (forall p :: p in list[..i + 1] ==> p in s0)
    ensures CollectionsIn(s0, list[..i + 1]) ==
      CollectionsIn(s0, list[..i]) + if s0[list[i]].collection then [list[i]] else []
  {
    assert list[..i + 1][..i] == list[..i];
    assert list[..i + 1][i] == list[i];
  }

  /** What a removal comes to, in terms of the states of the items. */
  lemma RemovalMeans(s0: Store, clock: nat, s: Store, p: Path)
    requires Consistent(s0, clock) && RemovedFrom(s0, s, p) && p in s0 && !s0[p].collection
    ensures forall q :: q in s0 && q !in s ==> s0[q].state.Initial? || s0[q].state.Removed?
    ensures s0[p].state.Initial? && LoneAndClear(s0, p) ==> p !in s
    ensures s0[p].state.Applied? || s0[p].state.Updated? ==>
      p in s && s[p].state.ForRemoval? && s[p].previous == Some(s0[p].state)
  {
    forall q | q in s0 && q !in s
      ensures s0[q].state.Initial? || s0[q].state.Removed?
    {
      DeletedWasUnused(s0, clock, s, p, q);
    }
    if s0[p].state.Initial? && LoneAndClear(s0, p) {
      UnusedItemGoes(s0, s, p);
    }
    assert RemovedAt(s0, s, p) && !s0[p].collection;
  }

  datatype RemovalOutcome = Refused | Inconsistent | Done

  /** The paths that may not enter the ForRemoval state; the last one stands for a missing comma in the source. */
  const PROTECTED: set<Path> := {["software"], ["infrastructure"], ["infrastructure", "storage"],
                                 ["infrastructure", "networking"], ["ms"], ["snapshots", "litp"]}

  /** The checks of `remove_item`. */
  predicate RefusesRemoval(s: Store, p: Path) {
    p !in s || p == [] || p in PROTECTED || s[p].collection
  }

  /** So two of the paths meant to be protected are not, and a path nobody meant is. */
  lemma ProtectedPaths(s: Store)
    requires ["snapshots"] in s && ["litp"] in s
    ensures RefusesRemoval(s, ["snapshots"]) <==> s[["snapshots"]].collection
    ensures RefusesRemoval(s, ["litp"]) <==> s[["litp"]].collection
    ensures RefusesRemoval(s, ["snapshots", "litp"])
  {
    assert ["snapshots"][0] == "snapshots" && ["litp"][0] == "litp";
    assert |["infrastructure", "storage"]| == |["infrastructure", "networking"]| == |["snapshots", "litp"]| == 2;
  }

  /** What may not be removed: the root, what is not there, collections, and the paths that are listed. */
  lemma RefusedPaths(s: Store, p: Path)
    ensures p !in s || p == [] ==> RefusesRemoval(s, p)
    ensures p in [["ms"], ["software"], ["infrastructure"]] ==> RefusesRemoval(s, p)
    ensures p in [["infrastructure", "storage"], ["infrastructure", "networking"]] ==> RefusesRemoval(s, p)
    ensures p in s && p != [] && (|p| > 2 || p[0] == "deployments") ==> (RefusesRemoval(s, p) <==> s[p].collection)
  {
    assert p in PROTECTED ==> |p| <= 2;
  }

  class ModelManager {
    var items: Store
    var clock: nat

    ghost predicate Valid()
      reads this
    {
      Consistent(items, clock)
    }

    // ---------- reading ----------

    /** `_iterate_inherited_items_recursive`: an inheritor comes before its own inheritors. */
    method InheritedItems(p: Path) returns (list: seq<Path>)
      requires Dated(items, clock) && p in items
      ensures SetOf(list) == InheritorsOf(items, p)
      decreases clock - items[p].born
    {
      list := [];
      var direct := set q | q in items && items[q].source == Some(p);
      ghost var done: set<Path> := {};
      DirectInheritors(items, clock, p);
      while direct != {}
        invariant direct !! done
        invariant forall q :: q in direct || q in done <==> SourceOf(items, q) == Some(p)
        invariant Listed(items, list, done)
      {
        var q :| q in direct;
        var more := InheritedItems(q);
        ListMore(items, list, done, q, more);
        direct, done, list := direct - {q}, done + {q}, list + [q] + more;
      }
      ListedAll(items, p, list, done);
    }

    /** `_has_ancestry_with_apd_false` */
    method UndeterminableAbove(p: Path) returns (found: bool)
      requires Valid() && p in items
      ensures found <==> exists q :: q in items && !items[q].determinable && Above(q, p)
    {
      var q := p;
      while q != [] && Parent(q) in items
        invariant q <= p && q in items
        invariant forall r :: r in items && !items[r].determinable && Above(r, p) ==> Above(r, q)
      {
        if !items[Parent(q)].determinable {
          assert Above(Parent(q), p);
          return true;
        }
        forall r | r in items && !items[r].determinable && Above(r, p)
          ensures Above(r, Parent(q))
        {
          AncestorOfParent(q, r);
        }
        q := Parent(q);
      }
      assert Fits(items, clock, q);
      return false;
    }

    /** `_has_siblings_or_their_descendants_apd_false` */
    method UndeterminableBeside(p: Path) returns (found: bool)
      requires Valid() && p in items
      ensures found <==> exists q :: q in items && !items[q].determinable && Beside(p, q)
    {
      if p == [] {
        return false;
      }
      var queue := ChildrenOf(items, Parent(p)) - {p};
      ghost var done: set<Path> := {};
      while queue != {}
        invariant Expanding(items, p, queue, done)
        invariant forall q :: q in done ==> items[q].determinable
        decreases items.Keys - done
      {
        var q :| q in queue;
        if !items[q].determinable {
          ExpandedIsBeside(items, p, queue, done, q);
          return true;
        }
        ExpandOne(items, p, queue, done, q);
        queue, done := queue - {q} + ChildrenOf(items, q), done + {q};
      }
      forall q | q in items && Beside(p, q)
        ensures items[q].determinable
      {
        BesideIsExpanded(items, clock, p, done, q);
      }
      return false;
    }

    /** The checks for undeterminable items in `_can_item_be_deleted`. */
    method NothingUndeterminable(p: Path) returns (decided: bool)
      requires Valid() && p in items
      ensures decided <==> Decided(items, p)
    {
      if !items[p].determinable {
        return false;
      }
      var above := UndeterminableAbove(p);
      if above {
        return false;
      }
      var beside := UndeterminableBeside(p);
      return !beside;
    }

    /** `_can_item_be_deleted` */
    method CanItemBeDeleted(p: Path) returns (can: bool)
      requires Valid() && p in items
      ensures can <==> CanDelete(items, p)
      decreases clock - items[p].born
    {
      ConsistentIsDated(items, clock);
      var list := InheritedItems(p);
      CanDeleteByInheritors(items, p, list);
      can := NothingUndeterminable(p);
      if can {
        can := AllItemsCanBeDeleted(p, list);
      }
      can := can && Unused(items[p]) && forall c :: c in ChildrenOf(items, p) ==> Unused(items[c]);
    }

    method AllItemsCanBeDeleted(p: Path, list: seq<Path>) returns (can: bool)
      requires Valid() && p in items && forall q :: q in list ==> q in items && items[p].born < items[q].born
      ensures can <==> AllCanDelete(items, list)
      decreases clock - items[p].born, 0
    {
      for i := 0 to |list|
        invariant AllCanDelete(items, list[..i])
      {
        assert Fits(items, clock, list[i]);
        var one := CanItemBeDeleted(list[i]);
        if !one {
          return false;
        }
        AllCanDeleteSnoc(items, list, i);
      }
      assert list[..|list|] == list;
      return true;
    }

    // ---------- removing ----------

    method MarkItem(p: Path, state: ItemState)
      requires p in items
      modifies this`items
      ensures items == old(items)[p := SetState(old(items)[p], state, Merged(old(items), p))]
    {
      items := items[p := SetState(items[p], state, Merged(items, p))];
    }

    /** `_delete_removed_item`; not ok where the source raises its inconsistency exception. */
    method DeleteRemovedItem(p: Path) returns (ok: bool)
      requires Dated(items, clock) && p in items
      modifies this`items
      ensures ok <==> MayDelete(old(items), p)
      ensures items == if ok then old(items) - {p} else old(items)
    {
      var list := InheritedItems(p);
      assert forall q :: q in list <==> q in InheritorsOf(items, p);
      ok := (forall q :: q in list ==> items[q].state.Removed?) &&
        forall c :: c in ChildrenOf(items, p) ==> items[c].state.Removed?;
      if ok {
        items := items - {p};
      }
    }

    /** A removal that began in `s0` is under way, and `p` is still there. */
    ghost predicate Removing(s0: Store, p: Path)
      reads this
    {
      Consistent(s0, clock) && Going(s0, items) && p in items && p in s0
    }

    /** `_remove_item_recursive`; the ok result is false if a deletion would be refused. */
    method RemoveItemRecursive(p: Path, ghost s0: Store) returns (ok: bool)
      requires Removing(s0, p) && s0[p].born < clock
      requires s0[p].collection ==> InheritorsCovered(s0, items, p)
      modifies this`items
      ensures ok && Removing(s0, p) && Within(s0, old(items), items, p)
      ensures items[p].state.ForRemoval? || (items[p].state.Removed? && CleanBelow(s0, items, p))
      ensures CoveredBelow(s0, items, p)
      decreases clock - s0[p].born, 2
    {
      var ok1 := RemoveInheritors(p, s0);
      var ok2 := RemoveChildren(p, s0);
      var ok3 := FinishRemoval(p, s0);
      ok := ok1 && ok2 && ok3;
    }

    /** `_remove_item` */
    method RemoveAndDelete(p: Path, ghost s0: Store) returns (ok: bool)
      requires Removing(s0, p) && s0[p].born < clock
      requires s0[p].collection ==> InheritorsCovered(s0, items, p) && Covered(items, p)
      modifies this`items
      ensures ok && Consistent(s0, clock) && Going(s0, items) && Within(s0, old(items), items, p)
      ensures Covered(items, p) && CoveredBelow(s0, items, p)
      decreases clock - s0[p].born, 3
    {
      ghost var start := items;
      var marked := RemoveItemRecursive(p, s0);
      var deleted := DeleteIfMarked(p, s0, start);
      ok := marked && deleted;
    }

    /** The rest of `_remove_item`. */
    method DeleteIfMarked(p: Path, ghost s0: Store, ghost start: Store) returns (ok: bool)
      requires Removing(s0, p) && p in start && (s0[p].collection ==> Covered(start, p))
      requires Within(s0, start, items, p) && CoveredBelow(s0, items, p)
      requires items[p].state.ForRemoval? || (items[p].state.Removed? && CleanBelow(s0, items, p))
      modifies this`items
      ensures ok && Going(s0, items) && Within(s0, start, items, p)
      ensures Covered(items, p) && CoveredBelow(s0, items, p)
    {
      ok := true;
      if items[p].state.Removed? {
        RemovedIsGoner(s0, start, items, p);
        ok := DeleteMarked(p, s0);
      }
    }

    /** The deletion of an item with nothing left below it. */
    method DeleteMarked(p: Path, ghost s0: Store) returns (ok: bool)
      requires Removing(s0, p) && Goner(s0, p) && CleanBelow(s0, items, p)
      modifies this`items
      ensures ok && Going(s0, items) && items == old(items) - {p}
    {
      GoingIsPart(s0, clock, items);
      RemovedMayBeDeleted(s0, clock, items, p);
      DeleteKeepsGoing(s0, items, p);
      ConsistentIsDated(items, clock);
      ok := DeleteRemovedItem(p);
    }

    /** The first loop of `_remove_item_recursive`. */
    method RemoveInheritors(p: Path, ghost s0: Store) returns (ok: bool)
      requires Removing(s0, p) && s0[p].born < clock
      requires s0[p].collection ==> InheritorsCovered(s0, items, p)
      modifies this`items
      ensures ok && Removing(s0, p) && Within(s0, old(items), items, p) && items[p] == old(items)[p]
      ensures InheritorsCovered(s0, items, p)
      decreases clock - s0[p].born, 1
    {
      GoingIsPart(s0, clock, items);
      ConsistentIsDated(items, clock);
      ghost var start := items;
      var list := InheritedItems(p);
      ok := true;
      InheritorsAtStart(s0, clock, items, p);
      while list != []
        invariant ok && Removing(s0, p) && Within(s0, start, items, p) && items[p] == start[p]
        invariant s0[p].collection ==> InheritorsCovered(s0, items, p)
        invariant InheritorsDone(s0, items, p, SetOf(list))
      {
        var q := list[0];
        ghost var before := items;
        BeforeInheritor(s0, clock, items, p, q);
        if q in items {
          var one := RemoveAndDelete(q, s0);
          ok := ok && one;
        }
        assert DealtWith(s0, before, items, q);
        LoopGoesOn(s0, start, before, items, p, q);
        SetOfTail(list);
        AfterInheritor(s0, before, items, p, SetOf(list), q, SetOf(list[1..]));
        list := list[1..];
      }
      assert SetOf(list) == {};
      InheritorsAreDone(s0, items, p);
    }

    /** The second loop. */
    method RemoveChildren(p: Path, ghost s0: Store) returns (ok: bool)
      requires Removing(s0, p) && s0[p].born < clock && InheritorsCovered(s0, items, p)
      modifies this`items
      ensures ok && Removing(s0, p) && Within(s0, old(items), items, p) && items[p] == old(items)[p]
      ensures InheritorsCovered(s0, items, p) && ChildrenSettled(s0, items, p)
      decreases clock - s0[p].born, 1
    {
      ghost var start := items;
      var left := ChildrenOf(items, p);
      ok := true;
      ChildrenAtStart(s0, items, p);
      while left != {}
        invariant ok && Removing(s0, p) && Within(s0, start, items, p) && items[p] == start[p]
        invariant InheritorsCovered(s0, items, p) && ChildrenDone(s0, items, p, left)
      {
        var c :| c in left;
        ghost var before := items;
        BeforeChild(s0, clock, items, p, c);
        if c in items {
          var one := RemoveItemRecursive(c, s0);
          ok := ok && one;
        }
        assert SettledNow(s0, before, items, c);
        LoopGoesOn(s0, start, before, items, p, c);
        AfterChild(s0, before, items, p, left, c);
        left := left - {c};
      }
    }

    /** The rest of `_remove_item_recursive`. */
    method FinishRemoval(p: Path, ghost s0: Store) returns (ok: bool)
      requires Removing(s0, p) && InheritorsCovered(s0, items, p) && ChildrenSettled(s0, items, p)
      modifies this`items
      ensures ok && Removing(s0, p) && Within(s0, old(items), items, p)
      ensures items[p].state.ForRemoval? || (items[p].state.Removed? && CleanBelow(s0, items, p))
      ensures CoveredBelow(s0, items, p)
    {
      ghost var start := items;
      GoingIsPart(s0, clock, items);
      var can := CanItemBeDeleted(p);
      CheckIsRight(s0, clock, items, p);
      ok := RemoveMarkedChildren(p, can, s0);
      MarkedAtEnd(s0, start, items, p, can);
      LastMark(s0, start, items, p, can);
      MarkItem(p, if can then Removed else ForRemoval);
    }

    /** What happens to the children that are marked as removed. */
    method RemoveMarkedChildren(p: Path, can: bool, ghost s0: Store) returns (ok: bool)
      requires Removing(s0, p) && ChildrenSettled(s0, items, p) && Verdict(s0, items, p, can)
      modifies this`items
      ensures ok && Removing(s0, p) && Within(s0, old(items), items, p) && items[p] == old(items)[p]
      ensures MarkedLeft(s0, items, p, can, {})
    {
      ghost var start := items;
      MarkedAtStart(s0, items, p, can);
      var left := set c | c in ChildrenOf(items, p) && items[c].state.Removed?;
      ok := true;
      while left != {}
        invariant ok && Removing(s0, p) && Within(s0, start, items, p) && items[p] == start[p]
        invariant MarkedLeft(s0, items, p, can, left)
      {
        var c :| c in left;
        ghost var before := items;
        BelowParent(s0, clock, p, c);
        var one := RemoveMarkedChild(p, can, c, s0);
        ok := ok && one;
        AfterMarkedChild(s0, start, before, items, p, can, left, c);
        left := left - {c};
      }
    }

    method RemoveMarkedChild(p: Path, can: bool, c: Path, ghost s0: Store) returns (ok: bool)
      requires Removing(s0, p) && c in ChildrenOf(s0, p) && c in items && items[c].state.Removed? &&
        CleanBelow(s0, items, c)
      requires if can then AllLocal(s0, p) else !Goner(s0, p)
      modifies this`items
      ensures ok && Going(s0, items)
      ensures if !can && old(items)[c].collection
        then c in items && items[c].state.ForRemoval? && items == old(items)[c := items[c]]
              else items == old(items) - {c}
    {
      assert GoingAt(s0, items, c);
      if !can && items[c].collection {
        CollectionStays(s0, clock, items, p, c);
        MarkItem(c, ForRemoval);
        ok := true;
      } else {
        ChildIsGonerOrStays(s0, clock, items, p, c);
        ok := DeleteMarked(c, s0);
      }
    }

    /** `remove_item`; the two failures are the validation error and the inconsistency exception. */
    method RemoveItem(p: Path) returns (outcome: RemovalOutcome)
      requires Valid()
      modifies this`items
      ensures Valid()
      ensures outcome != Inconsistent
      ensures outcome.Refused? <==> RefusesRemoval(old(items), p)
      ensures outcome.Refused? ==> items == old(items)
      ensures outcome.Done? ==> Step(old(items), clock, Remove(p), items, clock)
      ensures forall q :: q in old(items) && q !in items ==>
        old(items)[q].state.Initial? || old(items)[q].state.Removed?
      ensures outcome.Done? && old(items)[p].state.Initial? && LoneAndClear(old(items), p) ==> p !in items
      ensures outcome.Done? && (old(items)[p].state.Applied? || old(items)[p].state.Updated?) ==>
        p in items && items[p].state.ForRemoval? && items[p].previous == Some(old(items)[p].state)
    {
      if RefusesRemoval(items, p) {
        return Refused;
      }
      ghost var s0 := items;
      GoingStarts(items);
      assert Fits(items, clock, p);
      var ok := RemoveAndDelete(p, s0);
      RemovalIsExact(s0, clock, items, p);
      RemovalIsConsistent(s0, clock, items, p);
      RemovalMeans(s0, clock, items, p);
      return if ok then Done else Inconsistent;
    }

    // ---------- creating, updating, recovering ----------

    /** The creation of one item, with or without a source. */
    method CreateItem(p: Path, collection: bool, schema: map<string, PropDef>, source: Option<Path>, properties: Props)
      returns (created: bool)
      requires Valid() && AllSnapped(items)
      modifies this
      ensures Valid() && AllSnapped(items)
      ensures created <==> MayCreate(old(items), p, collection, source)
      ensures created ==> Step(old(items), old(clock), Create(p, collection, schema, source, properties), items, clock)
      ensures !created ==> items == old(items) && clock == old(clock)
    {
      created := MayCreate(items, p, collection, source);
      if created {
        var it := NewItem(collection, schema, source, properties, clock);
        CreateKeeps(items, clock, p, it);
        items, clock := items[p := it], clock + 1;
      }
    }

    /** `_update_item`, once the changes have been validated. */
    method UpdateItem(p: Path, changes: Changes) returns (ghost order: seq<Path>)
      requires Valid() && AllSnapped(items) && p in items
      modifies this`items
      ensures Valid() && AllSnapped(items)
      ensures Step(old(items), clock, Update(p, changes, order), items, clock)
      ensures CarriesOut(old(items)[p], changes, items[p].properties)
      ensures changes != map[] && old(items)[p].state.Applied? ==>
        items[p].state == if items[p].applied == Merged(items, p) then Applied else Updated
    {
      ghost var s0 := items;
      var normal := Normalised(items[p], changes);
      ConsistentIsDated(items, clock);
      var list := InheritedItems(p);
      assert forall q :: q in list ==> q in SetOf(list) && q in items;
      items := UpdateOne(items, p, normal);
      ApplyInheritedNonConfigs(list, normal);
      UpdateInheritedStates(list, normal);
      order := list;
      UpdateKeepsSnapshots(s0, p, changes, order);
      UpdatedIsConsistent(s0, clock, p, changes, order);
      UpdateIsCarriedOut(s0, clock, p, changes, order);
    }

    /** The update that plugins make (`_set_property` on a query item), for an item that is not to be recovered. */
    method PluginUpdateItem(p: Path, changes: Changes) returns (ghost order: seq<Path>)
      requires Valid() && AllSnapped(items) && p in items
      modifies this`items
      ensures Valid() && AllSnapped(items)
      ensures Step(old(items), clock, PluginUpdate(p, changes, order), items, clock)
    {
      ghost var s0 := items;
      ConsistentIsDated(items, clock);
      var list := InheritedItems(p);
      assert forall q :: q in list ==> q in SetOf(list) && q in items;
      items := UpdateOne(items, p, changes);
      UpdateInheritedStates(list, changes);
      order := list;
      PluginUpdateKeepsSnapshots(s0, p, changes, order);
      PluginUpdatedIsConsistent(s0, clock, p, changes, order);
    }

    /** `_apply_inherited_items_non_configs` */
    method ApplyInheritedNonConfigs(list: seq<Path>, changes: Changes)
      requires forall q :: q in list ==> q in items
      modifies this`items
      ensures items == NonConfigs(old(items), list, changes)
    {
      ghost var s := items;
      for i := 0 to |list|
        invariant items == NonConfigs(s, list[..i], changes)
      {
        NonConfigsNext(s, list, i, changes);
        items := NonConfigStep(items, list[i], changes);
      }
      assert list[..|list|] == list;
    }

    /** `_update_inherited_items_state` */
    method UpdateInheritedStates(list: seq<Path>, changes: Changes)
      requires forall q :: q in list ==> q in items
      modifies this`items
      ensures items == InheritorStates(old(items), list, changes)
    {
      ghost var s := items;
      for i := 0 to |list|
        invariant items == InheritorStates(s, list[..i], changes)
      {
        InheritorStatesNext(s, list, i, changes);
        items := InheritorStep(items, list[i], changes);
      }
      assert list[..|list|] == list;
    }

    /** `_recover_item_for_removal_down`; the result lists the items in the order in which they get a new state. */
    method RecoverDown(p: Path) returns (ghost visits: seq<Path>)
      requires Valid() && p in items
      modifies this`items
      ensures Valid() && Recovers(old(items), p, visits)
      ensures items == Recovered(old(items), visits)
      decreases clock - items[p].born
    {
      ghost var s0 := items;
      visits := [p];
      items := items[p := SetPreviousState(items[p], Merged(items, p))];
      assert visits[..0] == [] && Recovering(s0, items, p, visits);
      var left := ChildrenOf(items, p);
      RecoveredIsRestated(s0, visits);
      ghost var done: set<Path> := {};
      while left != {}
        invariant Recovering(s0, items, p, visits) && left !! done && left + done == ChildrenOf(s0, p)
        invariant forall c, q :: c in done && MustRecover(s0, c, q) ==> q in visits
      {
        var c :| c in left;
        ChildToRecover(s0, clock, items, p, visits, c);
        ghost var before := items;
        ghost var more := RecoverDown(c);
        RecoverMore(s0, before, p, c, visits, more);
        visits := visits + more;
        left, done := left - {c}, done + {c};
      }
      RecoveredIsRestated(s0, visits);
      RestatedIsConsistent(s0, clock, items);
      ghost var before := items;
      ghost var more := RecoverInheritors(p);
      RecoverInherited(s0, clock, before, p, visits, more);
      visits := visits + more;
      RecoveredIsRestated(s0, visits);
      RestatedIsConsistent(s0, clock, items);
    }

    /** The loop over the inheritors in `_recover_item_for_removal_down`. */
    method RecoverInheritors(p: Path) returns (ghost visits: seq<Path>)
      requires Valid() && p in items
      modifies this`items
      ensures forall q :: q in visits <==> Inherits(old(items), q, p) && !HasOverwritten(old(items), q)
      ensures forall q :: q in visits ==> q in old(items)
      ensures items == Recovered(old(items), visits)
    {
      ghost var s0 := items;
      ConsistentIsDated(items, clock);
      var list := InheritedItems(p);
      assert forall q :: q in list <==> q in SetOf(list);
      visits := [];
      while list != []
        invariant RecoveringInheritors(s0, items, p, SetOf(list), visits)
      {
        var q := list[0];
        SetOfTail(list);
        NextInheritor(s0, items, p, SetOf(list), visits, q, SetOf(list[1..]));
        if !HasOverwritten(items, q) {
          items := items[q := SetPreviousState(items[q], Merged(items, q))];
          visits := visits + [q];
        }
        list := list[1..];
      }
    }

    /** `set_all_applied` */
    method SetAllApplied(exceptions: set<Path>)
      requires Valid() && AllSnapped(items)
      modifies this`items
      ensures Valid() && AllSnapped(items)
      ensures Step(old(items), clock, ApplyAll(exceptions), items, clock)
    {
      ghost var s0 := items;
      var left := items.Keys;
      while left != {}
        invariant left <= s0.Keys && items == AllApplied(s0, exceptions + left)
      {
        var p :| p in left;
        ApplyOneOf(s0, exceptions, left, p);
        if !items[p].state.Applied? && p !in exceptions {
          MarkItem(p, Applied);
        }
        left := left - {p};
      }
      assert exceptions + left == exceptions;
      AllAppliedKeeps(s0, clock, exceptions);
    }

    // ---------- after a plan ----------

    /** An item that cannot be deleted, and its removed children. */
    method ResetItem(p: Path)
      requires p in items
      modifies this`items
      ensures items == Reset(old(items), p)
    {
      ghost var s := items;
      ghost var done: set<Path> := {};
      var left := set c | c in ChildrenOf(items, p) && items[c].state.Removed?;
      ghost var all := left;
      while left != {}
        invariant left + done == all && left !! done && items == Marked(s, done)
      {
        var c :| c in left;
        MarkItem(c, ForRemoval);
        left, done := left - {c}, done + {c};
        assert items == Marked(s, done);
      }
      MarkItem(p, ForRemoval);
      MarkedIsReset(s, p, done);
    }

    /** `delete_removed_items_after_plan` */
    method DeleteRemovedItemsAfterPlan() returns (ghost order: seq<Path>)
      requires Valid() && AllSnapped(items)
      modifies this`items
      ensures Schedule(old(items), order) && items == PostPlanned(old(items), order)
      ensures NoneRemoved(items) && AllSnapped(items) && items.Keys <= old(items).Keys
      ensures forall p :: p in old(items) ==> PlannedAt(old(items), items, p)
      ensures forall p {:trigger ParentStays(items, p)} :: p in items ==> ParentStays(items, p)
      ensures Valid() <==> !Loses(old(items), order)
      ensures Valid() ==> Step(old(items), clock, EndPlan(order), items, clock)
    {
      var objects := items;
      var list := SortByParent(RemovedOf(items));
      var collections := DeleteInOrder(list);
      RestoreCollections(objects, collections);
      order := list;
      PostPlanResult(objects, clock, order);
      PostPlanKeepsSnapshots(objects, clock, order);
      PostPlanConsistency(objects, clock, order);
    }

    /** The first loop: every removed item is deleted or goes back to ForRemoval. */
    method DeleteInOrder(list: seq<Path>) returns (collections: seq<Path>)
      requires Valid() && Schedule(items, list)
      modifies this`items
      ensures (forall p :: p in list ==> p in old(items)) && collections == CollectionsIn(old(items), list)
      ensures items == Deleting(old(items), list)
    {
      ghost var s0 := items;
      collections := [];
      ConsistentIsDated(s0, clock);
      assert forall p :: p in list ==> p in RemovedOf(s0);
      for i := 0 to |list|
        invariant items == Deleting(s0, list[..i])
        invariant (forall p :: p in list[..i] ==> p in s0) && collections == CollectionsIn(s0, list[..i])
      {
        var p := list[i];
        AtTurn(s0, clock, items, list, i);
        if items[p].collection {
          collections := collections + [p];
        }
        DeleteOrResetItem(p);
        NextTurn(s0, list, i);
      }
      assert list[..|list|] == list;
    }

    method DeleteOrResetItem(p: Path)
      requires Dated(items, clock) && p in items
      modifies this`items
      ensures items == DeleteOrReset(old(items), p)
    {
      var deleted := DeleteRemovedItem(p);
      if !deleted {
        ResetItem(p);
      }
    }

    /** The second loop: collections come back if their parent is still there. */
    method RestoreCollections(objects: Store, collections: seq<Path>)
      requires forall c :: c in collections ==> c in objects
      modifies this`items
      ensures items == Restoring(objects, old(items), collections)
    {
      ghost var s := items;
      for i := 0 to |collections|
        invariant items == Restoring(objects, s, collections[..i])
      {
        var c := collections[i];
        assert c in collections && collections[..i + 1][..i] == collections[..i];
        if c != [] && Parent(c) in items {
          items := items[c := SetState(if c in items then items[c] else objects[c], ForRemoval, map[])];
        }
      }
      assert collections[..|collections|] == collections;
    }
  }
}
