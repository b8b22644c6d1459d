/** Updates of an item and everything that inherits from it, and the snapshot invariant. */
module Snapshots {
  import opened Items
  import opened Stores

  /** An item in state Applied has its merged properties as applied properties. */
  ghost predicate AllSnapped(s: Store) {
    forall p :: p in s ==> Snapped(s[p], Merged(s, p))
  }

  // ---------- updating an item ----------

  /** For an item without a source, deleting a property means setting its default. */
  function Normalised(it: Item, changes: Changes): Changes {
    map name | name in changes ::
      if it.source.None? && changes[name].None? && name in it.schema && it.schema[name].default != Some("")
      then it.schema[name].default else changes[name]
  }

  function UpdateOne(s: Store, p: Path, changes: Changes): (r: Store)
    requires p in s
    ensures r.Keys == s.Keys
  {
    s[p := UpdateProperties(s[p], Own(s, p), Inherited(s, p), changes)]
  }

  function NonConfigStep(s: Store, q: Path, changes: Changes): (r: Store)
    requires q in s
    ensures r.Keys == s.Keys
  {
    s[q := ApplyNonConfig(s[q], Own(s, q), changes, false)]
  }

  /** `_apply_inherited_items_non_configs` */
  function NonConfigs(s: Store, order: seq<Path>, changes: Changes): (r: Store)
    requires forall q :: q in order ==> q in s
    ensures r.Keys == s.Keys
  {
    if order == [] then s
    else NonConfigStep(NonConfigs(s, order[..|order| - 1], changes), order[|order| - 1], changes)
  }

  /** `set_state_child_collection` */
  function WithCollections(s: Store, p: Path): (r: Store)
    requires p in s
    ensures r.Keys == s.Keys
  {
    map q | q in s :: if q in ChildrenOf(s, p) &&
      s[q].collection then SetState(s[q], s[p].state, Merged(s, q)) else s[q]
  }

  predicate ParentLeaves(s: Store, q: Path) {
    Parent(q) in s && s[Parent(q)].state.ForRemoval?
  }

  /** The new state of an inheritor, as far as its own fields go. */
  function InheritorItem(s: Store, q: Path): Item
    requires q in s
  {
    Leaving(InheritorState(s[q], Merged(s, q)), Merged(s, q), ParentLeaves(s, q))
  }

  function Leaving(it: Item, merged: Props, parentLeaves: bool): Item {
    if parentLeaves then SetState(it, ForRemoval, merged) else it
  }

  function InheritorStep(s: Store, q: Path, changes: Changes): (r: Store)
    requires q in s
    ensures r.Keys == s.Keys
  {
    if AllOverwritten(s[q], Own(s, q), changes) then s else WithCollections(s[q := InheritorItem(s, q)], q)
  }

  /** `_update_inherited_items_state` */
  function InheritorStates(s: Store, order: seq<Path>, changes: Changes): (r: Store)
    requires forall q :: q in order ==> q in s
    ensures r.Keys == s.Keys
  {
    if order == [] then s
    else InheritorStep(InheritorStates(s, order[..|order| - 1], changes), order[|order| - 1], changes)
  }

  /** `_update_item`, with the inheritors visited in the given order. */
  function UpdatedStore(s: Store, p: Path, changes: Changes, order: seq<Path>): (r: Store)
    requires p in s && forall q :: q in order ==> q in s
    ensures r.Keys == s.Keys
  {
    var normal := Normalised(s[p], changes);
    InheritorStates(NonConfigs(UpdateOne(s, p, normal), order, normal), order, normal)
  }

  /** The update that plugins make while a plan runs: no defaults, and no step for non-configuration properties. */
  function PluginUpdated(s: Store, p: Path, changes: Changes, order: seq<Path>): (r: Store)
    requires p in s && forall q :: q in order ==> q in s
    ensures r.Keys == s.Keys
  {
    InheritorStates(UpdateOne(s, p, changes), order, changes)
  }

  // ---------- what changes with the properties of one item ----------

  /** `it` is `a` with other properties and states. */
  predicate Successor(a: Item, it: Item) {
    it.collection == a.collection && it.schema == a.schema && it.source == a.source && it.born == a.born
  }

  lemma UpdateIsSuccessor(it: Item, own: Option<Props>, inherited: Props, changes: Changes)
    ensures Successor(it, UpdateProperties(it, own, inherited, changes))
  {
    if changes != map[] {
      var it1 := ChangeAll(ApplyNonConfig(it, own, changes, true), changes);
      assert Successor(it, it1);
      AfterUpdateIsAlike(it1, inherited + it1.properties, NonConfigNames(it, own, changes, true) != {});
    }
  }

  lemma AfterUpdateIsAlike(it: Item, merged: Props, nonConfigApplied: bool)
    ensures Alike(it, AfterUpdate(it, merged, nonConfigApplied))
  {
  }

  lemma SameSources(s: Store, p: Path, it: Item, q: Path)
    requires p in s && Successor(s[p], it)
    ensures SourceOf(s[p := it], q) == SourceOf(s, q)
  {
  }

  /** Changing the properties of an item changes merged properties only for it and its transitive inheritors. */
  lemma {:induction false} ChangesAreLocal(s: Store, p: Path, it: Item, q: Path)
    requires p in s && Successor(s[p], it) && q in s && q != p && !Inherits(s, q, p)
    ensures Merged(s[p := it], q) == Merged(s, q)
    decreases s[q].born
  {
    SameSources(s, p, it, q);
    if SourceOf(s, q).Some? {
      ChangesAreLocal(s, p, it, SourceOf(s, q).value);
    }
  }

  /** What the item itself inherits stays the same. */
  lemma InheritedStays(s: Store, p: Path, it: Item)
    requires p in s && Successor(s[p], it)
    ensures Inherited(s[p := it], p) == Inherited(s, p)
  {
    SameSources(s, p, it, p);
    var source := SourceOf(s, p);
    if source.Some? {
      if Inherits(s, source.value, p) {
        InheritorsAreYounger(s, source.value, p);
      }
      ChangesAreLocal(s, p, it, source.value);
    }
  }

  /** The item has new values under the given names only. */
  ghost predicate ChangesOnly(a: Item, it: Item, names: set<string>) {
    forall name :: name !in names ==> ValueAt(it.properties, name) == ValueAt(a.properties, name)
  }

  /** Merged properties change only under the names of the change. */
  lemma {:induction false} ChangesKeepNames(s: Store, p: Path, it: Item, names: set<string>, q: Path, name: string)
    requires p in s && Successor(s[p], it) && ChangesOnly(s[p], it, names) && q in s && name !in names
    ensures ValueAt(Merged(s[p := it], q), name) == ValueAt(Merged(s, q), name)
    decreases s[q].born
  {
    SameSources(s, p, it, q);
    assert ValueAt(it.properties, name) == ValueAt(s[p].properties, name);
    if SourceOf(s, q).Some? {
      ChangesKeepNames(s, p, it, names, SourceOf(s, q).value, name);
    }
  }

  /** An inheritor that overwrites all the changed names keeps its merged properties. */
  lemma OverwritersKeep(s: Store, p: Path, it: Item, changes: Changes, q: Path)
    requires p in s && Successor(s[p], it) && ChangesOnly(s[p], it, changes.Keys)
    requires q in s && q != p && AllOverwritten(s[q], Own(s, q), changes)
    ensures Merged(s[p := it], q) == Merged(s, q)
  {
    var s1 := s[p := it];
    SameSources(s, p, it, q);
    forall name
      ensures ValueAt(Merged(s1, q), name) == ValueAt(Merged(s, q), name)
    {
      if name !in changes {
        ChangesKeepNames(s, p, it, changes.Keys, q, name);
      }
    }
    SameValues(Merged(s1, q), Merged(s, q));
  }

  lemma UpdateChangesOnly(it: Item, own: Option<Props>, inherited: Props, changes: Changes)
    ensures ChangesOnly(it, UpdateProperties(it, own, inherited, changes), changes.Keys)
  {
    if changes != map[] {
      var it1 := ChangeAll(ApplyNonConfig(it, own, changes, true), changes);
      AfterUpdateSnaps(it1, inherited + it1.properties, NonConfigNames(it, own, changes, true) != {});
      forall name | name !in changes.Keys
        ensures ValueAt(it1.properties, name) == ValueAt(it.properties, name)
      {
      }
    }
  }

  // ---------- states ----------

  /** The same items with other states. */
  ghost predicate Restated(s0: Store, s: Store) {
    s.Keys == s0.Keys && forall p :: p in s ==> Alike(s0[p], s[p])
  }

  lemma RestatedMerged(s0: Store, s: Store, p: Path)
    requires Restated(s0, s) && p in s
    ensures Merged(s, p) == Merged(s0, p) && Own(s, p) == Own(s0, p)
  {
    PartSources(s0, s, p);
    PartMerged(s0, s, p);
  }

  /** A new state for one item keeps the other items snapped. */
  lemma OneStateKeeps(s: Store, p: Path, it: Item)
    requires AllSnapped(s) && p in s && Alike(s[p], it) && Snapped(it, Merged(s, p))
    ensures AllSnapped(s[p := it]) && Restated(s, s[p := it])
  {
    forall q | q in s
      ensures Merged(s[p := it], q) == Merged(s, q)
    {
      RestatedMerged(s, s[p := it], q);
    }
  }

  /** All items are snapped but those in `left` that an update does not skip. */
  ghost predicate Settled(s: Store, changes: Changes, left: set<Path>) {
    forall q :: q in s && (q !in left || AllOverwritten(s[q], Own(s, q), changes)) ==> Snapped(s[q], Merged(s, q))
  }

  lemma UpdateOneSettles(s: Store, p: Path, changes: Changes)
    requires AllSnapped(s) && p in s
    ensures Settled(UpdateOne(s, p, changes), changes, InheritorsOf(s, p))
  {
    var it := UpdateProperties(s[p], Own(s, p), Inherited(s, p), changes);
    var s1 := s[p := it];
    UpdateIsSuccessor(s[p], Own(s, p), Inherited(s, p), changes);
    UpdateChangesOnly(s[p], Own(s, p), Inherited(s, p), changes);
    forall q | q in s1 && (q !in InheritorsOf(s, p) || AllOverwritten(s1[q], Own(s1, q), changes))
      ensures Snapped(s1[q], Merged(s1, q))
    {
      if q == p {
        InheritedStays(s, p, it);
        UpdateSnaps(s[p], Own(s, p), Inherited(s, p), changes);
      } else if q !in InheritorsOf(s, p) {
        ChangesAreLocal(s, p, it, q);
      } else {
        SameSources(s, p, it, q);
        OverwritersKeep(s, p, it, changes, q);
      }
    }
  }

  lemma NonConfigStepRestates(s: Store, q: Path, changes: Changes)
    requires q in s
    ensures Restated(s, NonConfigStep(s, q, changes))
    ensures AllOverwritten(s[q], Own(s, q), changes) ==> NonConfigStep(s, q, changes) == s
  {
    if AllOverwritten(s[q], Own(s, q), changes) {
      OverwrittenIsAlone(s[q], Own(s, q), changes);
    }
  }

  lemma NonConfigStepSettles(s: Store, q: Path, changes: Changes, left: set<Path>)
    requires Settled(s, changes, left) && q in s && q in left
    ensures Settled(NonConfigStep(s, q, changes), changes, left) && Restated(s, NonConfigStep(s, q, changes))
  {
    var s1 := NonConfigStep(s, q, changes);
    NonConfigStepRestates(s, q, changes);
    forall r | r in s
      ensures Merged(s1, r) == Merged(s, r) && Own(s1, r) == Own(s, r)
    {
      RestatedMerged(s, s1, r);
    }
  }

  lemma {:induction false} NonConfigsSettle(s: Store, order: seq<Path>, changes: Changes, left: set<Path>)
    requires Settled(s, changes, left) && forall q :: q in order ==> q in s && q in left
    ensures Settled(NonConfigs(s, order, changes), changes, left) && Restated(s, NonConfigs(s, order, changes))
  {
    if order != [] {
      NonConfigsSettle(s, order[..|order| - 1], changes, left);
      NonConfigStepSettles(NonConfigs(s, order[..|order| - 1], changes), order[|order| - 1], changes, left);
    }
  }

  lemma StateIsAlike(it: Item, state: ItemState, merged: Props)
    ensures Alike(it, SetState(it, state, merged))
  {
  }

  lemma WithCollectionsRestates(s: Store, p: Path)
    requires p in s
    ensures Restated(s, WithCollections(s, p))
  {
    forall q | q in s
      ensures Alike(s[q], WithCollections(s, p)[q])
    {
      StateIsAlike(s[q], s[p].state, Merged(s, q));
    }
  }

  lemma InheritorItemSnaps(s: Store, q: Path)
    requires q in s
    ensures Alike(s[q], InheritorItem(s, q)) && Snapped(InheritorItem(s, q), Merged(s, q))
  {
    InheritorSnaps(s[q], Merged(s, q));
    InheritorIsAlike(s[q], Merged(s, q));
    LeavingSnaps(InheritorState(s[q], Merged(s, q)), Merged(s, q), ParentLeaves(s, q));
  }

  lemma InheritorIsAlike(it: Item, merged: Props)
    ensures Alike(it, InheritorState(it, merged))
  {
  }

  lemma LeavingSnaps(it: Item, merged: Props, parentLeaves: bool)
    requires Snapped(it, merged)
    ensures Alike(it, Leaving(it, merged, parentLeaves)) && Snapped(Leaving(it, merged, parentLeaves), merged)
  {
  }

  lemma InheritorStepSettles(s: Store, q: Path, changes: Changes, left: set<Path>)
    requires Settled(s, changes, left) && q in s
    ensures Settled(InheritorStep(s, q, changes), changes, left - {q}) && Restated(s, InheritorStep(s, q, changes))
  {
    if !AllOverwritten(s[q], Own(s, q), changes) {
      InheritorItemSnaps(s, q);
      var s1 := s[q := InheritorItem(s, q)];
      forall r | r in s
        ensures Merged(s1, r) == Merged(s, r) && Own(s1, r) == Own(s, r)
      {
        RestatedMerged(s, s1, r);
      }
      WithCollectionsSettles(s1, q, changes, left - {q});
    }
  }

  lemma InheritorStepRestates(s: Store, q: Path, changes: Changes)
    requires q in s
    ensures Restated(s, InheritorStep(s, q, changes))
  {
    if !AllOverwritten(s[q], Own(s, q), changes) {
      InheritorIsAlike(s[q], Merged(s, q));
      WithCollectionsRestates(s[q := InheritorItem(s, q)], q);
    }
  }

  lemma WithCollectionsSettles(s: Store, p: Path, changes: Changes, left: set<Path>)
    requires Settled(s, changes, left) && p in s
    ensures Settled(WithCollections(s, p), changes, left) && Restated(s, WithCollections(s, p))
  {
    var s1 := WithCollections(s, p);
    WithCollectionsRestates(s, p);
    forall r | r in s
      ensures Merged(s1, r) == Merged(s, r) && Own(s1, r) == Own(s, r)
      ensures AllOverwritten(s1[r], Own(s1, r), changes) == AllOverwritten(s[r], Own(s, r), changes)
      ensures Snapped(s[r], Merged(s, r)) ==> Snapped(s1[r], Merged(s1, r))
    {
      RestatedMerged(s, s1, r);
    }
  }

  lemma {:induction false} InheritorStatesSettle(s: Store, order: seq<Path>, changes: Changes, left: set<Path>)
    requires Settled(s, changes, left) && forall q :: q in order ==> q in s
    ensures Settled(InheritorStates(s, order, changes), changes, left - SetOf(order))
    ensures Restated(s, InheritorStates(s, order, changes))
  {
    if order == [] {
      assert left - SetOf(order) == left;
    } else {
      var most, last := order[..|order| - 1], order[|order| - 1];
      InheritorStatesSettle(s, most, changes, left);
      InheritorStepSettles(InheritorStates(s, most, changes), last, changes, left - SetOf(most));
      SetOfSnoc(order, left);
    }
  }

  function SetOf(order: seq<Path>): set<Path> {
    set q | q in order
  }

  lemma SetOfSnoc(order: seq<Path>, left: set<Path>)
    requires order != []
    ensures left - SetOf(order) == left - SetOf(order[..|order| - 1]) - {order[|order| - 1]}
  {
  }

  /** An update of any item keeps all applied items snapped, in whatever order its inheritors are visited. */
  lemma UpdateKeepsSnapshots(s: Store, p: Path, changes: Changes, order: seq<Path>)
    requires AllSnapped(s) && p in s && SetOf(order) == InheritorsOf(s, p)
    requires forall q :: q in order ==> q in s
    ensures AllSnapped(UpdatedStore(s, p, changes, order))
  {
    var normal, left := Normalised(s[p], changes), SetOf(order);
    var s1 := UpdateOne(s, p, normal);
    UpdateOneSettles(s, p, normal);
    NonConfigsSettle(s1, order, normal, left);
    InheritorStatesSettle(NonConfigs(s1, order, normal), order, normal, left);
    assert left - SetOf(order) == {};
  }

  /** So does the update that plugins make. */
  lemma PluginUpdateKeepsSnapshots(s: Store, p: Path, changes: Changes, order: seq<Path>)
    requires AllSnapped(s) && p in s && SetOf(order) == InheritorsOf(s, p)
    requires forall q :: q in order ==> q in s
    ensures AllSnapped(PluginUpdated(s, p, changes, order))
  {
    UpdateOneSettles(s, p, changes);
    InheritorStatesSettle(UpdateOne(s, p, changes), order, changes, SetOf(order));
    assert SetOf(order) - SetOf(order) == {};
  }

  // ---------- what an update of the store comes to ----------

  /** The default that a deleted property of an item without a source is set to, whether it is required or not. */
  predicate HasDefault(it: Item, name: string, default: string) {
    it.source.None? && name in it.schema && it.schema[name].default == Some(default) && default != ""
  }

  /** The properties are those of `it` with the changes made. */
  ghost predicate CarriesOut(it: Item, changes: Changes, properties: Props) {
    && (forall n :: n !in changes ==> (n in properties <==> n in it.properties))
    && (forall n :: n !in changes && n in properties ==> properties[n] == it.properties[n])
    && (forall n :: n in changes && changes[n].Some? ==> n in properties && properties[n] == changes[n].value)
    && (forall n, d :: n in changes && changes[n].None? && HasDefault(it, n, d) ==>
          n in properties && properties[n] == d)
    && (forall n :: n in changes && changes[n].None? && n in properties ==> exists d :: HasDefault(it, n, d))
  }

  lemma UpdateOneCarriesOut(s: Store, p: Path, changes: Changes)
    requires p in s
    ensures CarriesOut(s[p], changes, UpdateOne(s, p, Normalised(s[p], changes))[p].properties)
  {
    var it, normal := s[p], Normalised(s[p], changes);
    var properties := UpdateOne(s, p, normal)[p].properties;
    forall n
      ensures n !in changes ==> (n in properties <==> n in it.properties)
      ensures n !in changes && n in properties ==> properties[n] == it.properties[n]
      ensures n in changes && changes[n].Some? ==> n in properties && properties[n] == changes[n].value
      ensures forall d :: n in changes && changes[n].None? && HasDefault(it, n, d) ==>
        n in properties && properties[n] == d
      ensures n in changes && changes[n].None? && n in properties ==> exists d :: HasDefault(it, n, d)
    {
      UpdateStores(it, Own(s, p), Inherited(s, p), normal, n);
      NormalisedValue(it, changes, n);
    }
  }

  lemma NormalisedValue(it: Item, changes: Changes, n: string)
    ensures n in Normalised(it, changes) <==> n in changes
    ensures n in changes && changes[n].Some? ==> Normalised(it, changes)[n] == changes[n]
    ensures forall d :: n in changes && changes[n].None? && HasDefault(it, n, d) ==>
      Normalised(it, changes)[n] == Some(d)
    ensures n in changes && Normalised(it, changes)[n].Some? && changes[n].None? ==> exists d :: HasDefault(it, n, d)
    ensures forall d :: FallsBackTo(it, n, d) ==> HasDefault(it, n, d)
  {
    if n in changes && changes[n].None? && Normalised(it, changes)[n].Some? {
      assert HasDefault(it, n, Normalised(it, changes)[n].value);
    }
  }

  lemma {:induction false} NonConfigsLeave(s: Store, order: seq<Path>, changes: Changes, r: Path)
    requires (forall q :: q in order ==> q in s) && r in s && r !in order
    ensures NonConfigs(s, order, changes)[r] == s[r]
  {
    if order != [] {
      NonConfigsLeave(s, order[..|order| - 1], changes, r);
    }
  }

  /** Only the child collections of `q` change beside it, and they have its state. */
  ghost predicate CollectionsFollow(s: Store, s1: Store, q: Path) {
    && s1.Keys == s.Keys && q in s
    && (forall c :: c in s && c != [] && Parent(c) == q && s[c].collection ==> s1[c].state == s1[q].state)
    && forall r :: r in s && r != q && !(r != [] && Parent(r) == q && s[r].collection) ==> s1[r] == s[r]
  }

  /** A step changes the inheritor and its child collections, unless the inheritor overwrites every change. */
  lemma InheritorStepIs(s: Store, q: Path, changes: Changes)
    requires q in s
    ensures changes != map[] && SourceOf(s, q).Some? && changes.Keys <= s[q].properties.Keys ==>
      InheritorStep(s, q, changes) == s
    ensures !(changes != map[] && SourceOf(s, q).Some? && changes.Keys <= s[q].properties.Keys) ==>
      Visited(s, InheritorStep(s, q, changes), q)
  {
    SkippedIs(s, q, changes);
    if !AllOverwritten(s[q], Own(s, q), changes) {
      InheritorItemIs(s, q);
      VisitedIs(s, q, InheritorItem(s, q));
    }
  }

  ghost predicate Visited(s: Store, s1: Store, q: Path)
    requires q in s
  {
    && CollectionsFollow(s, s1, q)
    && if Parent(q) in s && s[Parent(q)].state.ForRemoval? then s1[q].state.ForRemoval? && s1[q].applied == s[q].applied
       else s1[q] == InheritorState(s[q], Merged(s, q))
  }

  lemma VisitedIs(s: Store, q: Path, it: Item)
    requires q in s && it.collection == s[q].collection
    requires ParentLeaves(s, q) ==> it.state.ForRemoval? && it.applied == s[q].applied
    requires !ParentLeaves(s, q) ==> it == InheritorState(s[q], Merged(s, q))
    ensures Visited(s, WithCollections(s[q := it], q), q)
  {
    WithCollectionsIs(s[q := it], q);
    FollowsUpdate(s, q, it, WithCollections(s[q := it], q));
  }

  lemma FollowsUpdate(s: Store, q: Path, it: Item, s1: Store)
    requires q in s && it.collection == s[q].collection && CollectionsFollow(s[q := it], s1, q)
    ensures CollectionsFollow(s, s1, q)
  {
    forall r | r in s && r != q
      ensures s[q := it][r] == s[r]
    {
    }
  }

  lemma SkippedIs(s: Store, q: Path, changes: Changes)
    requires q in s
    ensures AllOverwritten(s[q], Own(s, q), changes) <==>
      changes != map[] && SourceOf(s, q).Some? && changes.Keys <= s[q].properties.Keys
  {
    assert changes.Keys <= s[q].properties.Keys <==> forall name :: name in changes ==> name in s[q].properties;
  }

  lemma WithCollectionsIs(s: Store, q: Path)
    requires q in s
    ensures CollectionsFollow(s, WithCollections(s, q), q) && WithCollections(s, q)[q] == s[q]
  {
    assert q != [] ==> Parent(q) != q;
  }

  lemma InheritorItemIs(s: Store, q: Path)
    requires q in s
    ensures ParentLeaves(s, q) ==> InheritorItem(s, q).state.ForRemoval? && InheritorItem(s, q).applied == s[q].applied
    ensures !ParentLeaves(s, q) ==> InheritorItem(s, q) == InheritorState(s[q], Merged(s, q))
    ensures InheritorItem(s, q).collection == s[q].collection
  {
    InheritorOutcome(s[q], Merged(s, q));
    LeavingKeeps(InheritorState(s[q], Merged(s, q)), Merged(s, q));
    InheritorIsAlike(s[q], Merged(s, q));
    StateIsAlike(InheritorState(s[q], Merged(s, q)), ForRemoval, Merged(s, q));
  }

  lemma LeavingKeeps(it: Item, merged: Props)
    ensures Leaving(it, merged, true).state.ForRemoval? && Leaving(it, merged, true).applied == it.applied
    ensures Leaving(it, merged, false) == it
  {
  }

  /** Items that are neither visited nor child collections of those visited stay as they are. */
  lemma {:induction false} InheritorStatesLeave(s: Store, order: seq<Path>, changes: Changes, r: Path)
    requires (forall q :: q in order ==> q in s) && r in s && r !in order
    requires forall q :: q in order ==> r == [] || Parent(r) != q || !s[r].collection
    ensures InheritorStates(s, order, changes)[r] == s[r]
  {
    if order != [] {
      var most, last := order[..|order| - 1], order[|order| - 1];
      assert forall q :: q in most ==> q in order;
      InheritorStatesLeave(s, most, changes, r);
      InheritorStepIs(InheritorStates(s, most, changes), last, changes);
    }
  }

  /** Nothing but an update of its own properties changes what an item that is no collection has applied. */
  lemma {:induction false} InheritorStatesKeepApplied(s: Store, order: seq<Path>, changes: Changes, r: Path)
    requires (forall q :: q in order ==> q in s) && r in s && !s[r].collection
    ensures var s1 := InheritorStates(s, order, changes);
      s1[r].applied == s[r].applied && s1[r].properties == s[r].properties && !s1[r].collection
  {
    if order != [] {
      var most, last := order[..|order| - 1], order[|order| - 1];
      assert forall q :: q in most ==> q in order;
      InheritorStatesKeepApplied(s, most, changes, r);
      var s1 := InheritorStates(s, most, changes);
      InheritorStepIs(s1, last, changes);
      InheritorOutcome(s1[last], Merged(s1, last));
      InheritorStepRestates(s1, last, changes);
    }
  }

  /** The item itself is not among those visited, nor a child collection of one of them. */
  lemma UpdatedIsOutside(s: Store, clock: nat, p: Path, q: Path)
    requires Consistent(s, clock) && p in s && Inherits(s, q, p)
    ensures q != p && (p == [] || Parent(p) != q)
  {
    InheritorsAreYounger(s, q, p);
    assert Fits(s, clock, p);
  }

  /** After an update the item has the requested properties, and its state says whether they are the applied ones. */
  lemma UpdateIsCarriedOut(s: Store, clock: nat, p: Path, changes: Changes, order: seq<Path>)
    requires Consistent(s, clock) && p in s && SetOf(order) == InheritorsOf(s, p) && forall q :: q in order ==> q in s
    ensures var s1 := UpdatedStore(s, p, changes, order);
      && CarriesOut(s[p], changes, s1[p].properties)
      && (changes != map[] && s[p].state.Applied? ==>
            s1[p].state == if s1[p].applied == Merged(s1, p) then Applied else Updated)
      && forall q :: q in s && q != p ==> s1[q].properties == s[q].properties
  {
    var normal, s1 := Normalised(s[p], changes), UpdatedStore(s, p, changes, order);
    var one := UpdateOne(s, p, normal);
    forall q | q in order
      ensures q != p && (p == [] || Parent(p) != q)
    {
      assert q in SetOf(order);
      UpdatedIsOutside(s, clock, p, q);
    }
    NonConfigsLeave(one, order, normal, p);
    InheritorStatesLeave(NonConfigs(one, order, normal), order, normal, p);
    UpdateOneCarriesOut(s, p, changes);
    UpdateRestates(one, order, normal);
    if changes != map[] {
      assert normal.Keys == changes.Keys;
      UpdateStates(s[p], Own(s, p), Inherited(s, p), normal);
      UpdateIsSuccessor(s[p], Own(s, p), Inherited(s, p), normal);
      InheritedStays(s, p, one[p]);
      RestatedMerged(one, s1, p);
    }
  }

  lemma UpdateRestates(s: Store, order: seq<Path>, changes: Changes)
    requires forall q :: q in order ==> q in s
    ensures Restated(s, InheritorStates(NonConfigs(s, order, changes), order, changes))
  {
    NonConfigsRestate(s, order, changes);
    InheritorStatesRestate(NonConfigs(s, order, changes), order, changes);
  }

  lemma {:induction false} NonConfigsRestate(s: Store, order: seq<Path>, changes: Changes)
    requires forall q :: q in order ==> q in s
    ensures Restated(s, NonConfigs(s, order, changes))
  {
    if order != [] {
      NonConfigsRestate(s, order[..|order| - 1], changes);
    }
  }

  lemma {:induction false} InheritorStatesRestate(s: Store, order: seq<Path>, changes: Changes)
    requires forall q :: q in order ==> q in s
    ensures Restated(s, InheritorStates(s, order, changes))
  {
    if order != [] {
      InheritorStatesRestate(s, order[..|order| - 1], changes);
      InheritorStepRestates(InheritorStates(s, order[..|order| - 1], changes), order[|order| - 1], changes);
    }
  }
}
