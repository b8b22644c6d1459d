/** The operations on the store, and what every sequence of them keeps. */
module Histories {
  import opened Items
  import opened Stores
  import opened Removal
  import opened Snapshots
  import opened PostPlans

  // ---------- creating ----------

  /** What validation asks for: a new path under an existing parent, and a source that exists. */
  predicate MayCreate(s: Store, p: Path, collection: bool, source: Option<Path>) {
    && p !in s && Named(p)
    && (p == [] ==> !collection && source.None?)
    && (p != [] ==> Parent(p) in s && (collection ==> !s[Parent(p)].collection))
    && (source.Some? ==>
          && source.value in s && s[source.value].collection == collection
          && (collection ==> source.value != [] && s[Parent(p)].source == Some(Parent(source.value))))
  }

  function NewItem(collection: bool, schema: map<string, PropDef>, source: Option<Path>, properties: Props,
                   clock: nat): Item {
    Item(collection, schema, source, properties, map[], Initial, None, true, clock)
  }

  /**
   * Creation is accepted exactly if the new item leaves the store consistent; it is in its initial state, with the
   * properties and the source asked for and nothing applied.
   */
  lemma CreatedExactly(s: Store, clock: nat, p: Path, collection: bool, schema: map<string, PropDef>,
                       source: Option<Path>, properties: Props)
    requires Consistent(s, clock) && p !in s
    ensures var it := NewItem(collection, schema, source, properties, clock);
      && (MayCreate(s, p, collection, source) <==> Consistent(s[p := it], clock + 1))
      && it.state.Initial? && it.previous.None? && it.properties == properties && it.applied == map[] && it.determinable
      && it.source == source && it.collection == collection && it.schema == schema && it.born == clock
  {
    var it := NewItem(collection, schema, source, properties, clock);
    var s1 := s[p := it];
    if MayCreate(s, p, collection, source) {
      CreatedIsConsistent(s, clock, p, it);
    }
    if Consistent(s1, clock + 1) {
      assert Fits(s1, clock + 1, p);
      assert p != [] ==> Parent(p) != p && Parent(p) in s;
      assert source.Some? ==> source.value != p && source.value in s;
    }
  }

  lemma CreatedIsConsistent(s: Store, clock: nat, p: Path, it: Item)
    requires Consistent(s, clock) && MayCreate(s, p, it.collection, it.source) && it.born == clock
    ensures Consistent(s[p := it], clock + 1)
  {
    var s1 := s[p := it];
    forall q | q in s1
      ensures Fits(s1, clock + 1, q)
    {
      if q != p {
        assert Fits(s, clock, q);
      } else {
        assert p != [] ==> Fits(s, clock, Parent(p));
        assert it.source.Some? ==> Fits(s, clock, it.source.value);
      }
    }
  }

  // ---------- recovering ----------

  /** `set_previous_state` on the items of a list, one after the other. */
  function Recovered(s: Store, visits: seq<Path>): (r: Store)
    requires forall q :: q in visits ==> q in s
    ensures r.Keys == s.Keys
  {
    if visits == [] then s
    else
      var most, q := Recovered(s, visits[..|visits| - 1]), visits[|visits| - 1];
      most[q := SetPreviousState(most[q], Merged(most, q))]
  }

  lemma {:induction false} RecoveredKeeps(s: Store, visits: seq<Path>)
    requires AllSnapped(s) && forall q :: q in visits ==> q in s
    ensures AllSnapped(Recovered(s, visits)) && Restated(s, Recovered(s, visits))
  {
    if visits != [] {
      var most, q := Recovered(s, visits[..|visits| - 1]), visits[|visits| - 1];
      RecoveredKeeps(s, visits[..|visits| - 1]);
      StatesSnap(most[q], Initial, Merged(most, q));
      PreviousIsAlike(most[q], Merged(most, q));
      OneStateKeeps(most, q, SetPreviousState(most[q], Merged(most, q)));
    }
  }

  lemma {:induction false} RecoveredIsRestated(s: Store, visits: seq<Path>)
    requires forall q :: q in visits ==> q in s
    ensures Restated(s, Recovered(s, visits))
  {
    if visits != [] {
      var most, q := Recovered(s, visits[..|visits| - 1]), visits[|visits| - 1];
      RecoveredIsRestated(s, visits[..|visits| - 1]);
      PreviousIsAlike(most[q], Merged(most, q));
    }
  }

  lemma PreviousIsAlike(it: Item, merged: Props)
    ensures Alike(it, SetPreviousState(it, merged))
  {
    StateIsAlike(it, Updated, merged);
    StateIsAlike(it, if it.previous.Some? then it.previous.value else Initial, merged);
  }

  lemma {:induction false} RecoveredConcat(s: Store, a: seq<Path>, b: seq<Path>)
    requires forall q :: q in a + b ==> q in s
    ensures (forall q :: q in a ==> q in s) && (forall q :: q in b ==> q in s)
    ensures Recovered(s, a + b) == Recovered(Recovered(s, a), b)
  {
    assert forall q :: q in a ==> q in a + b;
    assert forall q :: q in b ==> q in a + b;
    if b == [] {
      assert a + b == a;
    } else {
      var most := b[..|b| - 1];
      assert (a + b)[..|a + b| - 1] == a + most;
      assert forall q :: q in a + most ==> q in a + b;
      RecoveredConcat(s, a, most);
    }
  }

  /** An item on which `set_previous_state` has its full effect at once looks the same after any number of visits. */
  lemma {:induction false} RecoveredAt(s: Store, visits: seq<Path>, q: Path, it: Item)
    requires (forall r :: r in visits ==> r in s) && q in s
    requires SetPreviousState(s[q], Merged(s, q)) == it && SetPreviousState(it, Merged(s, q)) == it
    ensures Recovered(s, visits)[q] == if q in visits then it else s[q]
  {
    if visits != [] {
      var init := visits[..|visits| - 1];
      assert visits == init + [visits[|visits| - 1]];
      RecoveredAt(s, init, q, it);
      RecoveredIsRestated(s, init);
      RestatedMerged(s, Recovered(s, init), q);
    }
  }

  /** `has_overwritten_properties` */
  predicate HasOverwritten(s: Store, q: Path) {
    SourceOf(s, q).Some? && s[q].properties != map[]
  }

  /** The item, everything in its subtree, and the inheritors of these that have no properties of their own. */
  predicate MustRecover(s: Store, p: Path, q: Path) {
    q in s && (p <= q || exists d :: d in s && p <= d && Inherits(s, q, d) && !HasOverwritten(s, q))
  }

  /** Inheritors are visited if they have no property of their own. */
  lemma InheritorsToVisit(s: Store, p: Path, q: Path)
    requires q in s && !(p <= q)
    ensures MustRecover(s, p, q) <==> s[q].properties == map[] && exists d :: d in s && p <= d && Inherits(s, q, d)
  {
  }

  /** `visits` lists exactly the items that `_recover_item_for_removal_down` goes through. */
  ghost predicate Recovers(s: Store, p: Path, visits: seq<Path>) {
    forall q :: q in visits <==> MustRecover(s, p, q)
  }

  lemma RestatedRecovers(s0: Store, s: Store, p: Path, q: Path)
    requires Restated(s0, s)
    ensures MustRecover(s, p, q) <==> MustRecover(s0, p, q)
  {
    if q in s {
      PartSources(s0, s, q);
      forall d
        ensures Inherits(s, q, d) <==> Inherits(s0, q, d)
      {
        PartInherits(s0, s, q, d);
      }
    }
  }

  /** What must be recovered from a child must be recovered from the item. */
  lemma ChildMustRecover(s: Store, p: Path, c: Path, q: Path)
    requires c in ChildrenOf(s, p) && MustRecover(s, c, q)
    ensures MustRecover(s, p, q)
  {
    assert p <= c;
  }

  /** The child on the way down to a descendant. */
  lemma {:induction false} ChildTowards(s: Store, clock: nat, p: Path, q: Path) returns (c: Path)
    requires Consistent(s, clock) && q in s && p <= q && p != q
    ensures c in ChildrenOf(s, p) && c <= q
    decreases |q|
  {
    assert Fits(s, clock, q);
    if Parent(q) == p {
      c := q;
    } else {
      assert p <= Parent(q);
      c := ChildTowards(s, clock, p, Parent(q));
    }
  }

  /** What must be recovered from `p` is `p`, or must be recovered from a child, or inherits from `p`. */
  lemma MustRecoverFrom(s: Store, clock: nat, p: Path, q: Path)
    requires Consistent(s, clock) && MustRecover(s, p, q)
    ensures q == p || (Inherits(s, q, p) && !HasOverwritten(s, q)) ||
      exists c :: c in ChildrenOf(s, p) && MustRecover(s, c, q)
  {
    if p <= q && q != p {
      var c := ChildTowards(s, clock, p, q);
      assert MustRecover(s, c, q);
    } else if q != p {
      var d :| d in s && p <= d && Inherits(s, q, d) && !HasOverwritten(s, q);
      if d != p {
        var c := ChildTowards(s, clock, p, d);
        assert MustRecover(s, c, q);
      }
    }
  }

  /** The store after the visits so far. */
  ghost predicate Recovering(s0: Store, s: Store, p: Path, visits: seq<Path>) {
    (forall q :: q in visits ==> MustRecover(s0, p, q)) && p in visits && s == Recovered(s0, visits)
  }

  lemma ChildToRecover(s0: Store, clock: nat, s: Store, p: Path, visits: seq<Path>, c: Path)
    requires Consistent(s0, clock) && Recovering(s0, s, p, visits) && c in ChildrenOf(s0, p)
    ensures Consistent(s, clock) && Restated(s0, s) && c in s && p in s0 && s0[p].born < s[c].born < clock
  {
    RecoveredIsRestated(s0, visits);
    RestatedIsConsistent(s0, clock, s);
    assert Fits(s0, clock, c);
  }

  /** The visits of a child follow. */
  lemma RecoverMore(s0: Store, s: Store, p: Path, c: Path, visits: seq<Path>, more: seq<Path>)
    requires Recovering(s0, s, p, visits) && Restated(s0, s) && c in ChildrenOf(s0, p) && Recovers(s, c, more)
    ensures forall q :: q in more ==> q in s
    ensures Recovering(s0, Recovered(s, more), p, visits + more) && Recovers(s0, c, more)
  {
    forall q
      ensures q in more <==> MustRecover(s0, c, q)
      ensures q in more ==> MustRecover(s0, p, q)
    {
      RestatedRecovers(s0, s, c, q);
      if MustRecover(s0, c, q) {
        ChildMustRecover(s0, p, c, q);
      }
    }
    RecoveredConcat(s0, visits, more);
  }

  /** The inheritors without properties of their own are the same in a store with other states. */
  lemma InheritorsToRecover(s0: Store, s: Store, p: Path, q: Path)
    requires Restated(s0, s) && p in s0
    ensures Inherits(s, q, p) && !HasOverwritten(s, q) <==> Inherits(s0, q, p) && !HasOverwritten(s0, q)
    ensures Inherits(s0, q, p) && !HasOverwritten(s0, q) ==> MustRecover(s0, p, q)
  {
    if q in s {
      PartInherits(s0, s, q, p);
      PartSources(s0, s, q);
    }
  }

  /** The visits of the inheritors come last. */
  lemma RecoverInherited(s0: Store, clock: nat, s: Store, p: Path, visits: seq<Path>, more: seq<Path>)
    requires Consistent(s0, clock) && Recovering(s0, s, p, visits) && Restated(s0, s) && p in s0
    requires forall c, q :: c in ChildrenOf(s0, p) && MustRecover(s0, c, q) ==> q in visits
    requires forall q :: q in more <==> Inherits(s, q, p) && !HasOverwritten(s, q)
    ensures forall q :: q in more ==> q in s
    ensures Recovering(s0, Recovered(s, more), p, visits + more) && Recovers(s0, p, visits + more)
  {
    forall q | q in more
      ensures q in s && MustRecover(s0, p, q)
    {
      InheritorsToRecover(s0, s, p, q);
    }
    RecoveredConcat(s0, visits, more);
    forall q | MustRecover(s0, p, q)
      ensures q in visits + more
    {
      MustRecoverFrom(s0, clock, p, q);
      InheritorsToRecover(s0, s, p, q);
    }
  }

  // ---------- recovery after a removal ----------

  /** Without a visit, an item stays as it is. */
  lemma {:induction false} RecoveredSkips(s: Store, visits: seq<Path>, q: Path)
    requires (forall r :: r in visits ==> r in s) && q in s && q !in visits
    ensures Recovered(s, visits)[q] == s[q]
  {
    if visits != [] {
      assert visits == visits[..|visits| - 1] + [visits[|visits| - 1]];
      RecoveredSkips(s, visits[..|visits| - 1], q);
    }
  }

  lemma PreviousIsDetermined(it: Item, merged: Props)
    ensures SetPreviousState(it, merged).determinable || !SetPreviousState(it, merged).state.Applied?
      || (!it.determinable && it.state.Applied?)
  {
  }

  /** No visit makes an item applied and leaves it undeterminable. */
  lemma {:induction false} RecoveredIsDetermined(s: Store, visits: seq<Path>, q: Path)
    requires (forall r :: r in visits ==> r in s) && q in s && (s[q].determinable || !s[q].state.Applied?)
    ensures Recovered(s, visits)[q].determinable || !Recovered(s, visits)[q].state.Applied?
  {
    if visits != [] {
      var most, r := Recovered(s, visits[..|visits| - 1]), visits[|visits| - 1];
      RecoveredIsDetermined(s, visits[..|visits| - 1], q);
      if q == r {
        PreviousIsDetermined(most[q], Merged(most, q));
      }
    }
  }

  /** Whether a visit brings back the state that an item had before it was removed. */
  ghost predicate ComesBack(s0: Store, q: Path)
    requires q in s0
  {
    (Hesitates(s0, q) ==> s0[q].state.Removed?) && (s0[q].determinable || !s0[q].state.Applied?)
  }

  /** An item as it was, but for the memory of its previous state. */
  function BackAgain(it: Item): Item {
    it.(previous := Some(it.state))
  }

  /** One visit of an item that a removal has left in the store. */
  lemma RecoveryBringsBack(s0: Store, s: Store, p: Path, q: Path)
    requires RemovedFrom(s0, s, p) && q in s && q in s0 && !s0[q].state.ForRemoval?
    requires q == p || Under(s0, q, p)
    ensures SetPreviousState(s[q], Merged(s, q)).state == s0[q].state <==> ComesBack(s0, q)
  {
    assert RemovedAt(s0, s, q);
    if Hesitates(s0, q) {
      assert Local(s0, q);
    }
  }

  /** Visits of an item that comes back. */
  lemma VisitsBringBack(s0: Store, clock: nat, s: Store, p: Path, q: Path, visits: seq<Path>)
    requires Consistent(s0, clock) && AllSnapped(s0) && RemovedFrom(s0, s, p) && p in s0 && !s0[p].collection
    requires q in s && q in s0 && (q == p || Under(s0, q, p)) && !s0[q].state.ForRemoval?
    requires ComesBack(s0, q) && q in visits && forall r :: r in visits ==> r in s
    ensures Recovered(s, visits)[q] == BackAgain(s0[q])
  {
    assert RemovedAt(s0, s, q);
    RemovalIsConsistent(s0, clock, s, p);
    PartMerged(s0, s, q);
    assert SetPreviousState(s[q], Merged(s, q)) == BackAgain(s0[q]);
    RecoveredAt(s, visits, q, BackAgain(s0[q]));
  }

  /** Visits, or none, of an item that does not. */
  lemma VisitsDoNot(s0: Store, s: Store, p: Path, q: Path, visits: seq<Path>)
    requires RemovedFrom(s0, s, p) && q in s && q in s0 && (q == p || Under(s0, q, p)) && !s0[q].state.ForRemoval?
    requires (forall r :: r in visits ==> r in s) && (q !in visits || !ComesBack(s0, q))
    ensures Recovered(s, visits)[q] != BackAgain(s0[q])
  {
    assert RemovedAt(s0, s, q);
    if q !in visits {
      RecoveredSkips(s, visits, q);
    } else if !s0[q].determinable && s0[q].state.Applied? {
      RecoveredIsDetermined(s, visits, q);
    } else {
      assert Local(s0, q);
      RecoveredAt(s, visits, q, s[q].(state := Removed));
    }
  }

  /**
   * A recovery undoes a removal exactly for the items that it visits and whose state a visit brings back, however
   * often it visits them.
   */
  lemma RecoveryUndoesRemoval(s0: Store, clock: nat, s: Store, p: Path, q: Path, visits: seq<Path>)
    requires Consistent(s0, clock) && AllSnapped(s0) && RemovedFrom(s0, s, p) && p in s0 && !s0[p].collection
    requires q in s && q in s0 && (q == p || Under(s0, q, p)) && !s0[q].state.ForRemoval?
    requires forall r :: r in visits ==> r in s
    ensures Recovered(s, visits)[q] == BackAgain(s0[q]) <==> q in visits && ComesBack(s0, q)
  {
    if q in visits && ComesBack(s0, q) {
      VisitsBringBack(s0, clock, s, p, q, visits);
    } else {
      VisitsDoNot(s0, s, p, q, visits);
    }
  }

  /**
   * Removing an item and recovering it brings back exactly those of the items left that are in its subtree, or inherit
   * from there without properties of their own, and whose state a visit brings back.
   */
  lemma RemovedAndRecovered(s0: Store, clock: nat, s: Store, p: Path, visits: seq<Path>)
    requires Consistent(s0, clock) && AllSnapped(s0) && RemovedFrom(s0, s, p) && p in s0 && !s0[p].collection
    requires Recovers(s, p, visits)
    ensures forall q :: q in visits ==> q in s
    ensures forall q :: q in s ==> q in s0
    ensures forall q :: q in s && (q == p || Under(s0, q, p)) && !s0[q].state.ForRemoval? ==>
              (Recovered(s, visits)[q] == BackAgain(s0[q]) <==> MustRecover(s, p, q) && ComesBack(s0, q))
  {
    assert forall q :: q in visits <==> MustRecover(s, p, q);
    forall q | q in s
      ensures q in s0
    {
      assert q in s0.Keys;
    }
    forall q | q in s && (q == p || Under(s0, q, p)) && !s0[q].state.ForRemoval?
      ensures Recovered(s, visits)[q] == BackAgain(s0[q]) <==> MustRecover(s, p, q) && ComesBack(s0, q)
    {
      RecoveryUndoesRemoval(s0, clock, s, p, q, visits);
    }
  }

  /** A second visit makes an undeterminable item applied, which the first visit avoids. */
  lemma SecondVisitApplies(it: Item, merged: Props)
    requires !it.determinable && it.state.ForRemoval? && it.previous == Some(Applied)
    ensures SetPreviousState(it, merged).state == Updated
    ensures SetPreviousState(SetPreviousState(it, merged), merged).state == Applied
  {
  }

  // ---------- operations ----------

  datatype Op =
    | Create(path: Path, collection: bool, schema: map<string, PropDef>, source: Option<Path>, properties: Props)
    | Update(path: Path, changes: Changes, order: seq<Path>)
    | PluginUpdate(path: Path, changes: Changes, order: seq<Path>)
    | Remove(path: Path)
    | Recover(visits: seq<Path>)
    | Mark(path: Path, state: ItemState)
    | ApplyAll(exceptions: set<Path>)
    | Judge(path: Path, determinable: bool)
    | EndPlan(order: seq<Path>)

  /** `set_all_applied` */
  function AllApplied(s: Store, exceptions: set<Path>): (r: Store)
    ensures r.Keys == s.Keys
  {
    map p | p in s :: if !s[p].state.Applied? && p !in exceptions then SetState(s[p], Applied, Merged(s, p)) else s[p]
  }

  /** Afterwards every item that is not excepted is applied as it is, and the others are as they were. */
  lemma AllAppliedIs(s: Store, exceptions: set<Path>)
    requires AllSnapped(s)
    ensures var s1 := AllApplied(s, exceptions);
      && (forall p :: p in s && p !in exceptions ==>
            s1[p].state.Applied? && s1[p].applied == Merged(s, p) && s1[p].properties == s[p].properties)
      && (forall p :: p in s && (p in exceptions || s[p].state.Applied?) ==> s1[p] == s[p])
  {
    forall p | p in s && p !in exceptions
      ensures AllApplied(s, exceptions)[p].state.Applied? && AllApplied(s, exceptions)[p].applied == Merged(s, p)
    {
      assert Snapped(s[p], Merged(s, p));
    }
  }

  /** One operation, from one store and clock to the next. */
  ghost predicate Step(s: Store, clock: nat, op: Op, s1: Store, clock1: nat) {
    match op
    case Create(p, collection, schema, source, properties) =>
      MayCreate(s, p, collection, source) &&
      s1 == s[p := NewItem(collection, schema, source, properties, clock)] && clock1 == clock + 1
    case Update(p, changes, order) =>
      p in s && SetOf(order) == InheritorsOf(s, p) && (forall q :: q in order ==> q in s) &&
      s1 == UpdatedStore(s, p, changes, order) && clock1 == clock
    case PluginUpdate(p, changes, order) =>
      p in s && SetOf(order) == InheritorsOf(s, p) && (forall q :: q in order ==> q in s) &&
      s1 == PluginUpdated(s, p, changes, order) && clock1 == clock
    case Remove(p) =>
      p in s && !s[p].collection && RemovedFrom(s, s1, p) && clock1 == clock
    case Recover(visits) =>
      (forall q :: q in visits ==> q in s) && s1 == Recovered(s, visits) && clock1 == clock
    case Mark(p, state) =>
      p in s && s1 == s[p := SetState(s[p], state, Merged(s, p))] && clock1 == clock
    case ApplyAll(exceptions) =>
      s1 == AllApplied(s, exceptions) && clock1 == clock
    case Judge(p, determinable) =>
      p in s && s1 == s[p := s[p].(determinable := determinable)] && clock1 == clock
    case EndPlan(order) =>
      Schedule(s, order) && (forall q :: q in order ==> q in s) && !Loses(s, order) &&
      s1 == PostPlanned(s, order) && clock1 == clock
  }

  /** Every item has its parent and source, and every applied item is snapped. */
  ghost predicate Sound(s: Store, clock: nat) {
    Consistent(s, clock) && AllSnapped(s)
  }

  // ---------- what the operations keep ----------

  /** New values for the items keep the store consistent. */
  lemma SuccessorsAreConsistent(s: Store, clock: nat, s1: Store)
    requires Consistent(s, clock) && s1.Keys == s.Keys && forall p :: p in s ==> Successor(s[p], s1[p])
    ensures Consistent(s1, clock)
  {
    forall p | p in s1
      ensures Fits(s1, clock, p)
    {
      assert Fits(s, clock, p);
      assert Successor(s[p], s1[p]);
    }
  }

  lemma RestatedIsConsistent(s: Store, clock: nat, s1: Store)
    requires Consistent(s, clock) && Restated(s, s1)
    ensures Consistent(s1, clock)
  {
    forall p | p in s
      ensures Successor(s[p], s1[p])
    {
      assert Alike(s[p], s1[p]);
    }
    SuccessorsAreConsistent(s, clock, s1);
  }

  lemma CreateKeeps(s: Store, clock: nat, p: Path, it: Item)
    requires Sound(s, clock) && MayCreate(s, p, it.collection, it.source) && it.born == clock && !it.state.Applied?
    ensures Sound(s[p := it], clock + 1)
  {
    var s1 := s[p := it];
    CreatedIsConsistent(s, clock, p, it);
    forall q | q in s
      ensures Snapped(s1[q], Merged(s1, q))
    {
      CreatedMerged(s, clock, p, it, q);
    }
  }

  lemma {:induction false} CreatedMerged(s: Store, clock: nat, p: Path, it: Item, q: Path)
    requires Consistent(s, clock) && p !in s && q in s
    ensures Merged(s[p := it], q) == Merged(s, q)
    decreases s[q].born
  {
    assert Fits(s, clock, q);
    if SourceOf(s, q).Some? {
      CreatedMerged(s, clock, p, it, SourceOf(s, q).value);
    }
  }

  lemma UpdateOneIsConsistent(s: Store, clock: nat, p: Path, changes: Changes)
    requires Consistent(s, clock) && p in s
    ensures Consistent(UpdateOne(s, p, changes), clock)
  {
    UpdateIsSuccessor(s[p], Own(s, p), Inherited(s, p), changes);
    SuccessorsAreConsistent(s, clock, UpdateOne(s, p, changes));
  }

  lemma PluginUpdatedIsConsistent(s: Store, clock: nat, p: Path, changes: Changes, order: seq<Path>)
    requires Consistent(s, clock) && p in s && forall q :: q in order ==> q in s
    ensures Consistent(PluginUpdated(s, p, changes, order), clock)
  {
    var s1 := UpdateOne(s, p, changes);
    UpdateOneIsConsistent(s, clock, p, changes);
    InheritorStatesRestate(s1, order, changes);
    RestatedIsConsistent(s1, clock, InheritorStates(s1, order, changes));
  }

  lemma UpdatedIsConsistent(s: Store, clock: nat, p: Path, changes: Changes, order: seq<Path>)
    requires Consistent(s, clock) && p in s && forall q :: q in order ==> q in s
    ensures Consistent(UpdatedStore(s, p, changes, order), clock)
  {
    var normal := Normalised(s[p], changes);
    var s1 := UpdateOne(s, p, normal);
    UpdateOneIsConsistent(s, clock, p, normal);
    var s2 := NonConfigs(s1, order, normal);
    NonConfigsRestate(s1, order, normal);
    RestatedIsConsistent(s1, clock, s2);
    InheritorStatesRestate(s2, order, normal);
    RestatedIsConsistent(s2, clock, InheritorStates(s2, order, normal));
  }

  /** Survivors of a removal are applied only if they are as before. */
  lemma RemovalKeeps(s: Store, clock: nat, s1: Store, p: Path)
    requires Sound(s, clock) && RemovedFrom(s, s1, p) && p in s && !s[p].collection
    ensures Sound(s1, clock)
  {
    RemovalIsConsistent(s, clock, s1, p);
    forall q | q in s1
      ensures Snapped(s1[q], Merged(s1, q))
    {
      SurvivorIsAlike(s, s1, p, q);
      PartMerged(s, s1, q);
      if q == p || Under(s, q, p) {
        assert RemovedAt(s, s1, q);
      }
    }
  }

  lemma AllAppliedKeeps(s: Store, clock: nat, exceptions: set<Path>)
    requires Sound(s, clock)
    ensures Sound(AllApplied(s, exceptions), clock)
  {
    var s1 := AllApplied(s, exceptions);
    assert Restated(s, s1);
    RestatedIsConsistent(s, clock, s1);
    forall q | q in s1
      ensures Snapped(s1[q], Merged(s1, q))
    {
      RestatedMerged(s, s1, q);
    }
  }

  lemma OneStateKeepsSound(s: Store, clock: nat, p: Path, it: Item)
    requires Sound(s, clock) && p in s && Alike(s[p], it) && Snapped(it, Merged(s, p))
    ensures Sound(s[p := it], clock)
  {
    OneStateKeeps(s, p, it);
    RestatedIsConsistent(s, clock, s[p := it]);
  }

  /** Each operation keeps the store sound. */
  lemma StepKeeps(s: Store, clock: nat, op: Op, s1: Store, clock1: nat)
    requires Sound(s, clock) && Step(s, clock, op, s1, clock1)
    ensures Sound(s1, clock1)
  {
    match op
    case Create(p, collection, schema, source, properties) =>
      CreateKeeps(s, clock, p, NewItem(collection, schema, source, properties, clock));
    case Update(p, changes, order) =>
      UpdateKeepsSnapshots(s, p, changes, order);
      UpdatedIsConsistent(s, clock, p, changes, order);
    case PluginUpdate(p, changes, order) =>
      PluginUpdateKeepsSnapshots(s, p, changes, order);
      PluginUpdatedIsConsistent(s, clock, p, changes, order);
    case Remove(p) =>
      RemovalKeeps(s, clock, s1, p);
    case Recover(visits) =>
      RecoveredKeeps(s, visits);
      RestatedIsConsistent(s, clock, s1);
    case Mark(p, state) =>
      StatesSnap(s[p], state, Merged(s, p));
      OneStateKeepsSound(s, clock, p, s1[p]);
    case ApplyAll(exceptions) =>
      AllAppliedKeeps(s, clock, exceptions);
    case Judge(p, determinable) =>
      OneStateKeepsSound(s, clock, p, s1[p]);
    case EndPlan(order) =>
      PostPlanKeepsSnapshots(s, clock, order);
      PostPlanConsistency(s, clock, order);
  }

  /** A sequence of operations, with the store and the clock before and after each. */
  ghost predicate History(stores: seq<Store>, clocks: seq<nat>, ops: seq<Op>) {
    && |stores| == |ops| + 1 && |clocks| == |ops| + 1
    && forall i :: 0 <= i < |ops| ==> Step(stores[i], clocks[i], ops[i], stores[i + 1], clocks[i + 1])
  }

  /** Over every sequence of operations, an applied item has its merged properties as applied properties. */
  lemma {:induction false} HistoriesAreSound(stores: seq<Store>, clocks: seq<nat>, ops: seq<Op>, i: nat)
    requires History(stores, clocks, ops) && Sound(stores[0], clocks[0]) && i <= |ops|
    ensures Sound(stores[i], clocks[i])
  {
    if i > 0 {
      HistoriesAreSound(stores, clocks, ops, i - 1);
      StepKeeps(stores[i - 1], clocks[i - 1], ops[i - 1], stores[i], clocks[i]);
    }
  }

  /** Items that have lost a source, however far up, are marked for removal. */
  ghost predicate LossesLeave(s: Store, s1: Store) {
    forall p, q :: p in s1 && p in s && Inherits(s, p, q) && q !in s1 ==> s1[p].state.ForRemoval?
  }

  lemma EndOfPlanLosses(s: Store, clock: nat, order: seq<Path>)
    requires Consistent(s, clock) && Schedule(s, order) && forall q :: q in order ==> q in s
    ensures LossesLeave(s, PostPlanned(s, order))
  {
    var s1 := PostPlanned(s, order);
    PlanPhases(s, clock, order);
    PostPlanResult(s, clock, order);
    LeftOverStays(s, clock, Deleting(s, order), s1, CollectionsIn(s, order));
    forall p, q | p in s1 && p in s && Inherits(s, p, q) && q !in s1
      ensures s1[p].state.ForRemoval?
    {
      assert PlannedAt(s, s1, p);
      assert q !in Deleting(s, order);
    }
  }

  /**
   * After any history, any end of a plan, also one that takes a source away: applied items are snapped, every item has
   * its parent, and an item that has lost a source is marked for removal.
   */
  lemma HistoriesEndSnapped(stores: seq<Store>, clocks: seq<nat>, ops: seq<Op>, order: seq<Path>)
    requires History(stores, clocks, ops) && Sound(stores[0], clocks[0])
    requires var s := stores[|ops|]; Schedule(s, order) && forall q :: q in order ==> q in s
    ensures var s1 := PostPlanned(stores[|ops|], order);
      AllSnapped(s1) && LossesLeave(stores[|ops|], s1) &&
      forall p {:trigger ParentStays(s1, p)} :: p in s1 ==> ParentStays(s1, p)
  {
    HistoriesAreSound(stores, clocks, ops, |ops|);
    PostPlanKeepsSnapshots(stores[|ops|], clocks[|ops|], order);
    PostPlanResult(stores[|ops|], clocks[|ops|], order);
    EndOfPlanLosses(stores[|ops|], clocks[|ops|], order);
  }
}
