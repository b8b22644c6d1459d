/** The deletion of removed items at the end of a plan. */
module PostPlans {
  import opened Items
  import opened Stores
  import opened Removal
  import opened Snapshots

  // ---------- the order of deletion ----------

  /** `_construct_vpath` */
  function Vpath(p: Path): string {
    if p == [] then "/"
    else if |p| == 1 then "/" + p[0]
    else Vpath(Parent(p)) + "/" + p[|p| - 1]
  }

  /** Paths are written with one slash in front of each name. */
  lemma VpathIs(p: Path, name: string)
    ensures Vpath([]) == "/" && Vpath([name]) == "/" + name
    ensures p != [] ==> Vpath(p + [name]) == Vpath(p) + "/" + name
  {
    if p != [] {
      assert Parent(p + [name]) == p;
    }
  }

  /** The sort key: the path of the parent; the root has none. */
  function ParentVpath(p: Path): Option<string> {
    if p == [] then None else Some(Vpath(Parent(p)))
  }

  /** The order of strings. */
  predicate Less(a: string, b: string) {
    b != "" && (a == "" || a[0] < b[0] || (a[0] == b[0] && Less(a[1..], b[1..])))
  }

  /** The order of the sort keys. */
  predicate KeyLess(p: Path, q: Path) {
    ParentVpath(q).Some? && (ParentVpath(p).None? || Less(ParentVpath(p).value, ParentVpath(q).value))
  }

  lemma {:induction false} PrefixIsLess(a: string, b: string)
    requires |b| > 0
    ensures Less(a, a + b)
  {
    if a == "" {
      assert a + b == b;
    } else {
      assert (a + b)[1..] == a[1..] + b;
      PrefixIsLess(a[1..], b);
    }
  }

  lemma {:induction false} LessIsAnOrder(a: string, b: string)
    ensures !Less(a, a) && (Less(a, b) ==> !Less(b, a)) && (Less(a, b) || Less(b, a) || a == b)
  {
    if a != "" {
      LessIsAnOrder(a[1..], if b == "" then "" else b[1..]);
      assert a == [a[0]] + a[1..];
      assert b != "" ==> b == [b[0]] + b[1..];
    }
  }

  lemma {:induction false} LessTrans(a: string, b: string, c: string)
    requires !Less(b, a) && !Less(c, b)
    ensures !Less(c, a)
  {
    if a != "" && b != "" && c != "" && a[0] == b[0] == c[0] {
      LessTrans(a[1..], b[1..], c[1..]);
    }
  }

  lemma KeyTrans(p: Path, q: Path, r: Path)
    requires !KeyLess(p, q) && !KeyLess(q, r)
    ensures !KeyLess(p, r)
  {
    if p != [] && q != [] && r != [] {
      LessTrans(Vpath(Parent(r)), Vpath(Parent(q)), Vpath(Parent(p)));
    }
  }

  lemma KeyTotal(p: Path, q: Path)
    ensures KeyLess(p, q) ==> !KeyLess(q, p)
  {
    if p != [] && q != [] {
      LessIsAnOrder(Vpath(Parent(p)), Vpath(Parent(q)));
    }
  }

  predicate NamedItems(s: Store) {
    forall p :: p in s ==> Named(p)
  }

  lemma AllNamed(s: Store, clock: nat)
    requires Consistent(s, clock)
    ensures NamedItems(s)
  {
    forall p | p in s
      ensures Named(p)
    {
      assert Fits(s, clock, p);
    }
  }

  /** The key of an item is smaller than the key of its children. */
  lemma ParentsHaveSmallerKeys(p: Path, c: Path)
    requires Named(c) && c != [] && Parent(c) == p
    ensures KeyLess(p, c)
  {
    if p != [] {
      assert p[|p| - 1] == c[|p| - 1] != "";
      var parent, id := Vpath(Parent(p)), p[|p| - 1];
      if |p| == 1 {
        assert Parent(p) == [];
        PrefixIsLess(parent, id);
      } else {
        assert parent + ("/" + id) == parent + "/" + id;
        PrefixIsLess(parent, "/" + id);
      }
    }
  }

  /** Sorted by the keys, the greatest first. */
  ghost predicate Descending(list: seq<Path>) {
    DescendingBy(list, (p, q) => KeyLess(p, q))
  }

  ghost predicate DescendingBy(list: seq<Path>, less: (Path, Path) -> bool) {
    forall i, j :: 0 <= i < j < |list| ==> !less(list[i], list[j]) && list[i] != list[j]
  }

  /** Every child is handled before its parent. */
  lemma ChildrenFirst(list: seq<Path>, i: nat, j: nat)
    requires Descending(list) && i < |list| && j < |list| && Named(list[i]) && list[i] != [] &&
      Parent(list[i]) == list[j]
    ensures i < j
  {
    ParentsHaveSmallerKeys(list[j], list[i]);
    KeyTotal(list[j], list[i]);
    assert list[i] != list[j];
  }

  /** The position at which an item goes into the sorted list. */
  method SortByParent(paths: set<Path>) returns (list: seq<Path>)
    ensures Descending(list) && forall p :: p in list <==> p in paths
  {
    list := [];
    var left := paths;
    while left != {}
      invariant Descending(list) && left <= paths && forall p :: p in list <==> p in paths && p !in left
    {
      var p :| p in left;
      var i := 0;
      while i < |list| && !KeyLess(list[i], p)
        invariant i <= |list| && forall k :: 0 <= k < i ==> !KeyLess(list[k], p)
      {
        i := i + 1;
      }
      InsertDescending(list, i, p);
      list := list[..i] + [p] + list[i..];
      left := left - {p};
    }
  }

  lemma InsertDescending(list: seq<Path>, i: nat, p: Path)
    requires Descending(list) && i <= |list| && p !in list
    requires forall k :: 0 <= k < i ==> !KeyLess(list[k], p)
    requires i < |list| ==> KeyLess(list[i], p)
    ensures Descending(list[..i] + [p] + list[i..])
    ensures forall q :: q in list[..i] + [p] + list[i..] <==> q in list || q == p
  {
    forall k | i <= k < |list|
      ensures !KeyLess(p, list[k])
    {
      KeyTotal(list[i], p);
      if k > i {
        KeyTrans(p, list[i], list[k]);
      }
    }
    InsertBy(list, i, p, (p, q) => KeyLess(p, q));
  }

  lemma InsertBy(list: seq<Path>, i: nat, p: Path, less: (Path, Path) -> bool)
    requires DescendingBy(list, less) && i <= |list| && p !in list
    requires forall k :: 0 <= k < i ==> !less(list[k], p)
    requires forall k :: i <= k < |list| ==> !less(p, list[k])
    ensures DescendingBy(list[..i] + [p] + list[i..], less)
    ensures forall q :: q in list[..i] + [p] + list[i..] <==> q in list || q == p
  {
  }

  // ---------- deleting ----------

  /** An item that cannot be deleted goes back to ForRemoval, with its removed children. */
  function Reset(s: Store, p: Path): Store {
    map q | q in s ::
      if q == p || (q in ChildrenOf(s, p) && s[q].state.Removed?) then SetState(s[q], ForRemoval, Merged(s, q))
      else s[q]
  }

  ghost function DeleteOrReset(s: Store, p: Path): Store {
    if MayDelete(s, p) then s - {p} else Reset(s, p)
  }

  ghost function Deleting(s: Store, list: seq<Path>): Store {
    if list == [] then s else DeleteOrReset(Deleting(s, list[..|list| - 1]), list[|list| - 1])
  }

  /** A collection whose parent is in the store comes back. */
  function RestoreOne(s0: Store, s: Store, c: Path): Store
    requires c in s0
  {
    if c != [] && Parent(c) in s then s[c := SetState(if c in s then s[c] else s0[c], ForRemoval, map[])] else s
  }

  function Restoring(s0: Store, s: Store, collections: seq<Path>): Store
    requires forall c :: c in collections ==> c in s0
  {
    if collections == [] then s
    else RestoreOne(s0, Restoring(s0, s, collections[..|collections| - 1]), collections[|collections| - 1])
  }

  function CollectionsIn(s: Store, list: seq<Path>): (r: seq<Path>)
    requires forall p :: p in list ==> p in s
    ensures forall c :: c in r <==> c in list && s[c].collection
  {
    if list == [] then []
    else
      assert list[|list| - 1] in list;
      var most := CollectionsIn(s, list[..|list| - 1]);
      assert list == list[..|list| - 1] + [list[|list| - 1]];
      if s[list[|list| - 1]].collection then most + [list[|list| - 1]] else most
  }

  function RemovedOf(s: Store): set<Path> {
    set p | p in s && s[p].state.Removed?
  }

  /** The items to delete, in the order of deletion. */
  ghost predicate Schedule(s: Store, list: seq<Path>) {
    Descending(list) && forall p :: p in list <==> p in RemovedOf(s)
  }

  /** `delete_removed_items_after_plan` */
  ghost function PostPlanned(s: Store, list: seq<Path>): Store
    requires forall p :: p in list ==> p in s
  {
    Restoring(s, Deleting(s, list), CollectionsIn(s, list))
  }

  // ---------- while deleting ----------

  function Left(it: Item): Item {
    it.(state := ForRemoval, previous := Some(it.state))
  }

  /** An item after those in `handled` have been dealt with. */
  ghost predicate DeletingAt(s0: Store, s: Store, handled: set<Path>, p: Path)
    requires p in s0
  {
    if p !in handled then p in s && s[p] == s0[p]
    else if p in s then s[p] == Left(s0[p])
    else forall c :: c in ChildrenOf(s0, p) ==> c !in s
  }

  /** The source of an item that is not removed stays, and so on upwards. */
  ghost predicate ChainsAreWhole(s0: Store, s: Store) {
    forall p, q :: p in s0 && !s0[p].state.Removed? && Inherits(s0, p, q) ==> q in s
  }

  ghost predicate DeletingSo(s0: Store, s: Store, handled: set<Path>) {
    s.Keys <= s0.Keys && handled <= RemovedOf(s0) && (forall p :: p in s0 ==> DeletingAt(s0, s, handled, p)) &&
      ChainsAreWhole(s0, s)
  }

  /** No link to a source goes missing for an item that is not removed. */
  lemma {:induction false} ChainsStay(s0: Store, s: Store, p: Path, q: Path)
    requires s.Keys <= s0.Keys && (forall r :: r in s ==> Alike(s0[r], s[r])) && p in s && Inherits(s0, p, q)
    requires forall r :: Inherits(s0, p, r) ==> r in s
    ensures Inherits(s, p, q)
    decreases s0[p].born
  {
    var source := SourceOf(s0, p).value;
    assert Inherits(s0, p, source);
    if source != q {
      forall r | Inherits(s0, source, r)
        ensures r in s
      {
        assert Inherits(s0, p, r);
      }
      ChainsStay(s0, s, source, q);
    }
  }

  lemma DeletingStates(s0: Store, s: Store, handled: set<Path>)
    requires DeletingSo(s0, s, handled)
    ensures forall p :: p in s ==> p in s0 && Alike(s0[p], s[p])
    ensures forall p :: p in s && s[p].state.Removed? ==> p !in handled && p in RemovedOf(s0)
  {
  }

  /** At its turn, an item has no removed children left. */
  lemma NoRemovedChildren(s0: Store, s: Store, list: seq<Path>, k: nat, c: Path)
    requires Schedule(s0, list) && k < |list| && NamedItems(s0)
    requires DeletingSo(s0, s, SetOf(list[..k])) && c in ChildrenOf(s, list[k])
    ensures !s[c].state.Removed?
  {
    DeletingStates(s0, s, SetOf(list[..k]));
    if c in RemovedOf(s0) {
      assert c in list;
      var i :| 0 <= i < |list| && list[i] == c;
      ChildrenFirst(list, i, k);
      assert list[..k][i] == c;
    }
  }

  /** With no removed children, only the item itself changes. */
  lemma OneChange(s: Store, p: Path)
    requires p in s && s[p].state.Removed? && forall c :: c in ChildrenOf(s, p) ==> !s[c].state.Removed?
    ensures DeleteOrReset(s, p) == if MayDelete(s, p) then s - {p} else s[p := Left(s[p])]
    ensures MayDelete(s, p) ==> ChildrenOf(s, p) == {}
  {
  }

  /** One more item is deleted, or goes back to ForRemoval. */
  lemma DeletingStep(s0: Store, s: Store, handled: set<Path>, p: Path)
    requires DeletingSo(s0, s, handled) && p in RemovedOf(s0) && p !in handled
    requires forall c :: c in ChildrenOf(s, p) ==> !s[c].state.Removed?
    ensures DeletingSo(s0, DeleteOrReset(s, p), handled + {p})
  {
    assert DeletingAt(s0, s, handled, p);
    OneChange(s, p);
    var s1 := DeleteOrReset(s, p);
    forall q | q in s0
      ensures DeletingAt(s0, s1, handled + {p}, q)
    {
      assert DeletingAt(s0, s, handled, q);
      assert q == p ==> forall c :: c in ChildrenOf(s0, p) && c in s ==> c in ChildrenOf(s, p);
    }
    ChainsStayWhole(s0, s, handled, p);
  }

  lemma ChainsStayWhole(s0: Store, s: Store, handled: set<Path>, p: Path)
    requires DeletingSo(s0, s, handled) && p in s
    ensures MayDelete(s, p) ==> ChainsAreWhole(s0, s - {p})
    ensures ChainsAreWhole(s0, s[p := Left(s[p])])
  {
    DeletingStates(s0, s, handled);
    if MayDelete(s, p) {
      forall r | r in s0 && !s0[r].state.Removed?
        ensures !Inherits(s0, r, p)
      {
        assert DeletingAt(s0, s, handled, r);
        if Inherits(s0, r, p) {
          ChainsStay(s0, s, r, p);
        }
      }
    }
  }

  lemma NothingHandled(s0: Store)
    ensures DeletingSo(s0, s0, {})
  {
    forall p, q | Inherits(s0, p, q)
      ensures q in s0
    {
      InheritorsAreYounger(s0, p, q);
    }
  }

  lemma DeletingNext(s0: Store, list: seq<Path>, k: nat)
    requires k < |list|
    ensures Deleting(s0, list[..k + 1]) == DeleteOrReset(Deleting(s0, list[..k]), list[k])
  {
    assert list[..k + 1][..k] == list[..k] && list[..k + 1][k] == list[k];
  }

  lemma NextHandled(list: seq<Path>, k: nat)
    requires k < |list| && Descending(list)
    ensures list[..k + 1][..k] == list[..k] && list[..k + 1][k] == list[k]
    ensures SetOf(list[..k + 1]) == SetOf(list[..k]) + {list[k]} && list[k] !in SetOf(list[..k])
  {
  }

  lemma DeletingTurn(s0: Store, list: seq<Path>, k: nat)
    requires Schedule(s0, list) && k < |list| && NamedItems(s0)
    requires DeletingSo(s0, Deleting(s0, list[..k]), SetOf(list[..k]))
    ensures DeletingSo(s0, Deleting(s0, list[..k + 1]), SetOf(list[..k + 1]))
  {
    var s, p := Deleting(s0, list[..k]), list[k];
    forall c | c in ChildrenOf(s, p)
      ensures !s[c].state.Removed?
    {
      NoRemovedChildren(s0, s, list, k, c);
    }
    NextHandled(list, k);
    DeletingNext(s0, list, k);
    assert p in list;
    DeletingStep(s0, s, SetOf(list[..k]), p);
  }

  lemma {:induction false} DeletingGoesOn(s0: Store, list: seq<Path>, k: nat)
    requires Schedule(s0, list) && k <= |list| && NamedItems(s0)
    ensures DeletingSo(s0, Deleting(s0, list[..k]), SetOf(list[..k]))
  {
    if k == 0 {
      assert SetOf(list[..0]) == {};
      NothingHandled(s0);
    } else {
      DeletingGoesOn(s0, list, k - 1);
      DeletingTurn(s0, list, k - 1);
    }
  }

  // ---------- restoring ----------

  /** The store while collections come back, starting from `s1`. */
  ghost predicate RestoringSo(s0: Store, s1: Store, s: Store, collections: seq<Path>) {
    && (forall p :: p in s1 || p in s ==> p in s0)
    && (forall p :: p in s0 && p !in collections ==> (p in s <==> p in s1) && (p in s ==> s[p] == s1[p]))
    && (forall c :: c in collections ==> c in s0 && (c in s <==> Parent(c) in s1) && (c in s ==> s[c] == Left(s0[c])))
  }

  lemma {:induction false} RestoringGoesOn(s0: Store, clock: nat, s1: Store, collections: seq<Path>)
    requires Consistent(s0, clock) && s1.Keys <= s0.Keys &&
      forall p {:trigger ParentStays(s1, p)} :: p in s1 ==> ParentStays(s1, p)
    requires forall c :: c in collections ==> c in s0 && s0[c].collection && s0[c].state.Removed?
    requires forall c :: c in collections && c in s1 ==> s1[c] == Left(s0[c])
    ensures RestoringSo(s0, s1, Restoring(s0, s1, collections), collections)
  {
    if collections != [] {
      var most, c := collections[..|collections| - 1], collections[|collections| - 1];
      assert collections == most + [c];
      RestoringGoesOn(s0, clock, s1, most);
      var s := Restoring(s0, s1, most);
      assert c in collections;
      assert c in s1 ==> ParentStays(s1, c);
      RestoringNext(s0, clock, s1, s, most, c);
    }
  }

  lemma RestoringNext(s0: Store, clock: nat, s1: Store, s: Store, most: seq<Path>, c: Path)
    requires Consistent(s0, clock) && RestoringSo(s0, s1, s, most)
    requires forall d :: d in most ==> d in s0 && s0[d].collection
    requires c in s0 && s0[c].collection && s0[c].state.Removed? &&
      (c in s1 ==> s1[c] == Left(s0[c]) && ParentStays(s1, c))
    ensures RestoringSo(s0, s1, RestoreOne(s0, s, c), most + [c])
  {
    assert Fits(s0, clock, c);
    ParentInBoth(s0, clock, s1, s, most, c);
  }

  /** The parent of a collection is not a collection, so it does not come back. */
  lemma ParentInBoth(s0: Store, clock: nat, s1: Store, s: Store, collections: seq<Path>, c: Path)
    requires Consistent(s0, clock) && RestoringSo(s0, s1, s, collections) && c in s0 && s0[c].collection
    requires forall d :: d in collections ==> d in s0 && s0[d].collection
    ensures Parent(c) in s <==> Parent(c) in s1
  {
    assert Fits(s0, clock, c);
  }

  // ---------- the result ----------

  /** What becomes of an item at the end of a plan. */
  ghost predicate PlannedAt(s0: Store, s: Store, p: Path)
    requires p in s0
  {
    if !s0[p].state.Removed? then p in s && s[p] == s0[p]
    else
      && (p in s ==> s[p] == Left(s0[p]))
      && (s0[p].collection && Parent(p) in s ==> p in s)
  }

  /**
   * After the deletion no item is removed, every item has its parent, removed collections whose parent is still
   * there are marked for removal, and all other items are as they were.
   */
  lemma PostPlanResult(s0: Store, clock: nat, list: seq<Path>)
    requires Consistent(s0, clock) && Schedule(s0, list)
    requires forall p :: p in list ==> p in s0
    ensures NoneRemoved(PostPlanned(s0, list)) && PostPlanned(s0, list).Keys <= s0.Keys
    ensures forall p :: p in s0 ==> PlannedAt(s0, PostPlanned(s0, list), p)
    ensures forall p {:trigger ParentStays(PostPlanned(s0, list), p)} ::
              p in PostPlanned(s0, list) ==> ParentStays(PostPlanned(s0, list), p)
  {
    AllNamed(s0, clock);
    var s1, s, collections := Deleting(s0, list), PostPlanned(s0, list), CollectionsIn(s0, list);
    PlanPhases(s0, clock, list);
    forall p | p in s0
      ensures PlannedAt(s0, s, p) && (p in s ==> !s[p].state.Removed? && ParentStays(s, p))
    {
      assert p in collections <==> p in RemovedOf(s0) && s0[p].collection;
      ResultAt(s0, clock, s1, s, SetOf(list), collections, p);
      if p in s && p != [] {
        assert Fits(s0, clock, p);
        assert Parent(p) in collections <==> Parent(p) in RemovedOf(s0) && s0[Parent(p)].collection;
        ParentAt(s0, clock, s1, s, collections, p);
      }
    }
    forall p | p in s
      ensures p in s0
    {
    }
  }

  lemma ResultAt(s0: Store, clock: nat, s1: Store, s: Store, handled: set<Path>, collections: seq<Path>, p: Path)
    requires Consistent(s0, clock) && p in s0 && DeletingAt(s0, s1, handled, p) &&
      (p in handled <==> p in RemovedOf(s0))
    requires RestoringSo(s0, s1, s, collections) &&
      forall c :: c in collections ==> c in RemovedOf(s0) && s0[c].collection
    requires p in collections <==> p in RemovedOf(s0) && s0[p].collection
    ensures PlannedAt(s0, s, p) && (p in s ==> !s[p].state.Removed?)
  {
    assert Fits(s0, clock, p);
  }

  lemma ParentAt(s0: Store, clock: nat, s1: Store, s: Store, collections: seq<Path>, p: Path)
    requires Consistent(s0, clock) && p in s0 && p in s && p != [] && RestoringSo(s0, s1, s, collections)
    requires forall q {:trigger ParentStays(s1, q)} :: q in s1 ==> ParentStays(s1, q)
    requires forall c :: c in collections ==> c in s0 && s0[c].collection
    ensures ParentStays(s, p)
  {
    assert Fits(s0, clock, p);
    assert ParentStays(s1, p) || p in collections;
    if Parent(p) in collections {
      assert Fits(s0, clock, Parent(p));
      assert ParentStays(s1, Parent(p));
    }
  }

  /** The two phases: deleting, and restoring collections. */
  lemma PlanPhases(s0: Store, clock: nat, list: seq<Path>)
    requires Consistent(s0, clock) && Schedule(s0, list)
    requires forall p :: p in list ==> p in s0
    ensures DeletingSo(s0, Deleting(s0, list), SetOf(list)) && SetOf(list) == RemovedOf(s0)
    ensures forall p {:trigger ParentStays(Deleting(s0, list), p)} :: p in Deleting(s0, list) ==>
      ParentStays(Deleting(s0, list), p)
    ensures RestoringSo(s0, Deleting(s0, list), PostPlanned(s0, list), CollectionsIn(s0, list))
    ensures forall c :: c in CollectionsIn(s0, list) <==> c in RemovedOf(s0) && s0[c].collection
  {
    AllNamed(s0, clock);
    var s1, collections := Deleting(s0, list), CollectionsIn(s0, list);
    assert list[..|list|] == list;
    DeletingGoesOn(s0, list, |list|);
    forall p | p in s1
      ensures ParentStays(s1, p)
    {
      assert p in s1.Keys;
      assert Fits(s0, clock, p);
      assert p != [] ==> DeletingAt(s0, s1, SetOf(list), Parent(p)) && p in ChildrenOf(s0, Parent(p));
    }
    forall c | c in collections
      ensures c in s0 && s0[c].collection && s0[c].state.Removed? && (c in s1 ==> s1[c] == Left(s0[c]))
    {
      assert c in RemovedOf(s0);
      assert DeletingAt(s0, s1, SetOf(list), c);
    }
    RestoringGoesOn(s0, clock, s1, collections);
  }

  /** What the deletion has left in the store is still there after the restoring. */
  lemma LeftOverStays(s0: Store, clock: nat, s1: Store, s: Store, collections: seq<Path>)
    requires Consistent(s0, clock) && RestoringSo(s0, s1, s, collections)
    requires forall q {:trigger ParentStays(s1, q)} :: q in s1 ==> ParentStays(s1, q)
    requires forall c :: c in collections ==> c in s0 && s0[c].collection
    ensures forall q :: q in s1 ==> q in s
  {
    forall q | q in s1
      ensures q in s
    {
      assert ParentStays(s1, q) && Fits(s0, clock, q);
    }
  }

  /** The end of a plan keeps applied items snapped. */
  lemma PostPlanKeepsSnapshots(s0: Store, clock: nat, list: seq<Path>)
    requires Consistent(s0, clock) && Schedule(s0, list) && AllSnapped(s0)
    requires forall p :: p in list ==> p in s0
    ensures AllSnapped(PostPlanned(s0, list))
  {
    AllNamed(s0, clock);
    var s1, s := Deleting(s0, list), PostPlanned(s0, list);
    PlanPhases(s0, clock, list);
    PostPlanResult(s0, clock, list);
    LeftOverStays(s0, clock, s1, s, CollectionsIn(s0, list));
    forall p | p in s
      ensures p in s0 && Alike(s0[p], s[p]) && (s0[p].state.Removed? ==> s[p].state.ForRemoval?)
      ensures !s0[p].state.Removed? ==> s[p] == s0[p]
    {
      assert p in s0.Keys && PlannedAt(s0, s, p);
    }
    forall p | p in s && s[p].state.Applied?
      ensures Snapped(s[p], Merged(s, p))
    {
      WholeChainMerges(s0, s, p);
    }
  }

  lemma {:induction false} WholeChainMerges(s0: Store, s: Store, p: Path)
    requires (forall r :: r in s ==> r in s0 && Alike(s0[r], s[r])) && p in s
    requires forall q :: Inherits(s0, p, q) ==> q in s
    ensures Merged(s, p) == Merged(s0, p)
    decreases s0[p].born
  {
    var source := SourceOf(s0, p);
    if source.Some? {
      assert Inherits(s0, p, source.value);
      forall q | Inherits(s0, source.value, q)
        ensures q in s
      {
        assert Inherits(s0, p, q);
      }
      WholeChainMerges(s0, s, source.value);
    }
  }

  // ---------- sources ----------

  /** One turn: the item at hand is deleted, or it alone goes back to ForRemoval. */
  lemma TurnChanges(s0: Store, list: seq<Path>, k: nat)
    requires Schedule(s0, list) && k < |list| && NamedItems(s0)
    ensures DeletingSo(s0, Deleting(s0, list[..k]), SetOf(list[..k])) && list[k] in s0 && list[k] !in SetOf(list[..k])
    ensures var s, p := Deleting(s0, list[..k]), list[k];
            p in s && s[p] == s0[p] &&
            Deleting(s0, list[..k + 1]) == if MayDelete(s, p) then s - {p} else s[p := Left(s[p])]
  {
    var s, p := Deleting(s0, list[..k]), list[k];
    DeletingGoesOn(s0, list, k);
    NextHandled(list, k);
    DeletingNext(s0, list, k);
    assert p in list && p in RemovedOf(s0);
    assert DeletingAt(s0, s, SetOf(list[..k]), p);
    forall c | c in ChildrenOf(s, p)
      ensures !s[c].state.Removed?
    {
      NoRemovedChildren(s0, s, list, k, c);
    }
    OneChange(s, p);
  }

  lemma TurnNow(s0: Store, list: seq<Path>, k: nat)
    requires Schedule(s0, list) && k < |list| && NamedItems(s0)
    ensures list[k] in Deleting(s0, list[..k + 1]) <==> !MayDelete(Deleting(s0, list[..k]), list[k])
  {
    TurnChanges(s0, list, k);
  }

  /** The turn of another item leaves an item that had its turn where it is. */
  lemma LaterTurn(s0: Store, list: seq<Path>, k: nat, n: nat)
    requires Schedule(s0, list) && k < n < |list| && NamedItems(s0)
    ensures list[k] in Deleting(s0, list[..n + 1]) <==> list[k] in Deleting(s0, list[..n])
  {
    TurnChanges(s0, list, n);
    assert list[..n][k] == list[k] && list[k] in SetOf(list[..n]);
  }

  /** Membership that no step changes is the same at the end. */
  lemma {:induction false} SameToTheEnd(stores: seq<Store>, p: Path, k: nat, n: nat)
    requires k <= n < |stores|
    requires forall i :: k <= i < n ==> (p in stores[i] <==> p in stores[i + 1])
    ensures p in stores[n] <==> p in stores[k]
  {
    if k < n {
      SameToTheEnd(stores, p, k, n - 1);
      assert p in stores[n - 1] <==> p in stores[n - 1 + 1];
    }
  }

  /** The stores after each turn. */
  ghost function Turns(s0: Store, list: seq<Path>): (r: seq<Store>)
    ensures |r| == |list| + 1
  {
    seq(|list| + 1, i requires 0 <= i <= |list| => Deleting(s0, list[..i]))
  }

  lemma TurnsAt(s0: Store, list: seq<Path>, i: nat)
    requires i <= |list|
    ensures Turns(s0, list)[i] == Deleting(s0, list[..i])
  {
  }

  lemma LaterTurns(s0: Store, list: seq<Path>, stores: seq<Store>, k: nat)
    requires Schedule(s0, list) && k < |list| && NamedItems(s0) && stores == Turns(s0, list)
    ensures forall i :: k + 1 <= i < |list| ==> (list[k] in stores[i] <==> list[k] in stores[i + 1])
  {
    forall i | k + 1 <= i < |list|
      ensures list[k] in stores[i] <==> list[k] in stores[i + 1]
    {
      LaterTurn(s0, list, k, i);
      TurnsAt(s0, list, i);
      TurnsAt(s0, list, i + 1);
    }
  }

  /** What happens to an item at its turn is final. */
  lemma TurnStays(s0: Store, list: seq<Path>, stores: seq<Store>, k: nat, n: nat)
    requires Schedule(s0, list) && k < n <= |list| && NamedItems(s0) && stores == Turns(s0, list)
    ensures list[k] in stores[n] <==> list[k] in stores[k + 1]
  {
    LaterTurns(s0, list, stores, k);
    SameToTheEnd(stores, list[k], k + 1, n);
  }

  lemma TurnIsFinal(s0: Store, list: seq<Path>, k: nat, n: nat)
    requires Schedule(s0, list) && k < n <= |list| && NamedItems(s0)
    ensures list[k] in Deleting(s0, list[..n]) <==> !MayDelete(Deleting(s0, list[..k]), list[k])
  {
    TurnNow(s0, list, k);
    TurnStays(s0, list, Turns(s0, list), k, n);
    TurnsAt(s0, list, n);
    TurnsAt(s0, list, k + 1);
  }

  lemma TurnDecides(s0: Store, list: seq<Path>, k: nat)
    requires Schedule(s0, list) && k < |list| && NamedItems(s0)
    ensures list[k] in Deleting(s0, list) <==> !MayDelete(Deleting(s0, list[..k]), list[k])
  {
    TurnIsFinal(s0, list, k, |list|);
    assert list[..|list|] == list;
  }

  /** An item is deleted while an inheritor of it is still waiting for its turn, and then that inheritor is refused. */
  ghost predicate LosesAt(s0: Store, list: seq<Path>, j: nat, k: nat)
    requires j < k < |list|
  {
    && list[k] in s0 && !s0[list[k]].collection && s0[list[k]].source == Some(list[j])
    && MayDelete(Deleting(s0, list[..j]), list[j]) && !MayDelete(Deleting(s0, list[..k]), list[k])
  }

  ghost predicate Loses(s0: Store, list: seq<Path>) {
    exists j, k :: 0 <= j < k < |list| && LosesAt(s0, list, j, k)
  }

  lemma LosesIsInconsistent(s0: Store, clock: nat, list: seq<Path>, j: nat, k: nat)
    requires Consistent(s0, clock) && Schedule(s0, list) && (forall p :: p in list ==> p in s0)
    requires j < k < |list| && LosesAt(s0, list, j, k)
    ensures !Consistent(PostPlanned(s0, list), clock)
  {
    var s1, s, collections := Deleting(s0, list), PostPlanned(s0, list), CollectionsIn(s0, list);
    AllNamed(s0, clock);
    TurnDecides(s0, list, j);
    TurnDecides(s0, list, k);
    PlanPhases(s0, clock, list);
    PostPlanResult(s0, clock, list);
    LeftOverStays(s0, clock, s1, s, collections);
    assert Fits(s0, clock, list[k]);
    assert list[k] in list && list[j] in list && PlannedAt(s0, s, list[k]);
    assert !Fits(s, clock, list[k]);
  }

  /** An item that is no collection has its source, unless the source was deleted before its own turn. */
  lemma SourceIsKept(s0: Store, clock: nat, list: seq<Path>, p: Path)
    requires Consistent(s0, clock) && Schedule(s0, list) && !Loses(s0, list)
    requires p in Deleting(s0, list) && p in s0 && !s0[p].collection && s0[p].source.Some?
    ensures s0[p].source.value in Deleting(s0, list)
  {
    var s1, source := Deleting(s0, list), s0[p].source.value;
    AllNamed(s0, clock);
    assert Fits(s0, clock, p);
    assert SourceOf(s0, p) == Some(source) && Inherits(s0, p, source);
    assert list[..|list|] == list;
    DeletingGoesOn(s0, list, |list|);
    assert DeletingAt(s0, s1, SetOf(list), source);
    if source in list && p in list {
      var j :| 0 <= j < |list| && list[j] == source;
      var k :| 0 <= k < |list| && list[k] == p;
      TurnDecides(s0, list, j);
      TurnDecides(s0, list, k);
      if j < k {
        assert !LosesAt(s0, list, j, k);
      } else {
        LaterSourceIsKept(s0, list, j, k);
      }
    }
  }

  /** An inheritor that has been refused before keeps its source from being deleted. */
  lemma LaterSourceIsKept(s0: Store, list: seq<Path>, j: nat, k: nat)
    requires Schedule(s0, list) && j < |list| && k <= j && NamedItems(s0)
    requires list[k] in s0 && SourceOf(s0, list[k]) == Some(list[j]) && list[k] in Deleting(s0, list)
    ensures list[j] in Deleting(s0, list)
  {
    var s, p := Deleting(s0, list[..j]), list[k];
    TurnChanges(s0, list, j);
    TurnDecides(s0, list, j);
    TurnDecides(s0, list, k);
    if k < j {
      TurnIsFinal(s0, list, k, j);
      assert list[..j][k] == p;
      RefusedInheritor(s0, s, SetOf(list[..j]), p, list[j]);
    }
  }

  /** An inheritor that went back to ForRemoval has its source refused too. */
  lemma RefusedInheritor(s0: Store, s: Store, handled: set<Path>, p: Path, source: Path)
    requires DeletingSo(s0, s, handled) && p in s && p in handled && source in s && SourceOf(s0, p) == Some(source)
    ensures !MayDelete(s, source)
  {
    DeletingStates(s0, s, handled);
    assert SourceOf(s, p) == Some(source) && Inherits(s, p, source);
  }

  lemma SourcesStay(s0: Store, clock: nat, list: seq<Path>, p: Path)
    requires Consistent(s0, clock) && Schedule(s0, list) && (forall q :: q in list ==> q in s0) && !Loses(s0, list)
    requires p in PostPlanned(s0, list) && p in s0 && s0[p].source.Some?
    ensures s0[p].source.value in PostPlanned(s0, list)
  {
    var s1, s, collections := Deleting(s0, list), PostPlanned(s0, list), CollectionsIn(s0, list);
    PlanPhases(s0, clock, list);
    LeftOverStays(s0, clock, s1, s, collections);
    assert Fits(s0, clock, p);
    var source := s0[p].source.value;
    if s0[p].collection {
      assert Fits(s0, clock, Parent(p)) && Fits(s0, clock, source);
      assert ParentStays(s1, p);
      assert Parent(p) in s1;
      SourceIsKept(s0, clock, list, Parent(p));
      assert DeletingAt(s0, s1, SetOf(list), source);
    } else {
      SourceIsKept(s0, clock, list, p);
    }
  }

  /**
   * Every item that is left has its parent and its source exactly if no item is deleted while an inheritor waits that
   * is then refused.
   */
  lemma PostPlanConsistency(s0: Store, clock: nat, list: seq<Path>)
    requires Consistent(s0, clock) && Schedule(s0, list) && (forall p :: p in list ==> p in s0)
    ensures Consistent(PostPlanned(s0, list), clock) <==> !Loses(s0, list)
  {
    var s := PostPlanned(s0, list);
    if Loses(s0, list) {
      var j, k :| 0 <= j < k < |list| && LosesAt(s0, list, j, k);
      LosesIsInconsistent(s0, clock, list, j, k);
    } else {
      PostPlanResult(s0, clock, list);
      forall p | p in s
        ensures p in s0 && Alike(s0[p], s[p]) && (SourceOf(s0, p).Some? ==> SourceOf(s0, p).value in s)
      {
        assert p in s0.Keys && PlannedAt(s0, s, p);
        if SourceOf(s0, p).Some? {
          SourcesStay(s0, clock, list, p);
        }
      }
      PartIsConsistent(s0, clock, s);
    }
  }

  // ---------- when all of a removal has been carried out ----------

  /** Whatever is below a removed item is removed too. */
  ghost predicate Complete(s: Store) {
    forall p, q :: p in s && s[p].state.Removed? && Under(s, q, p) ==> s[q].state.Removed?
  }

  lemma {:induction false} FewerInherit(s0: Store, s: Store, q: Path, p: Path)
    requires (forall r :: r in s ==> r in s0 && s[r] == s0[r]) && Inherits(s, q, p)
    ensures Inherits(s0, q, p)
    decreases if q in s then s[q].born else 0
  {
    if SourceOf(s, q).value != p {
      FewerInherit(s0, s, SourceOf(s, q).value, p);
    }
  }

  /** Then nothing is refused. */
  lemma {:induction false} CompleteDeleting(s0: Store, clock: nat, list: seq<Path>, k: nat)
    requires Consistent(s0, clock) && Schedule(s0, list) && k <= |list| && Complete(s0)
    ensures Deleting(s0, list[..k]) == s0 - SetOf(list[..k])
  {
    if k == 0 {
      NothingDeleted(s0, list);
    } else {
      CompleteDeleting(s0, clock, list, k - 1);
      CompleteNext(s0, clock, list, k - 1);
    }
  }

  lemma CompleteNext(s0: Store, clock: nat, list: seq<Path>, k: nat)
    requires Consistent(s0, clock) && Schedule(s0, list) && k < |list| && Complete(s0)
    requires Deleting(s0, list[..k]) == s0 - SetOf(list[..k])
    ensures Deleting(s0, list[..k + 1]) == s0 - SetOf(list[..k + 1])
  {
    CompleteTurn(s0, clock, list, k);
    NextHandled(list, k);
    DeletingNext(s0, list, k);
    MinusTwice(s0, SetOf(list[..k]), list[k]);
  }

  lemma NothingDeleted(s0: Store, list: seq<Path>)
    ensures Deleting(s0, list[..0]) == s0 - SetOf(list[..0])
  {
    assert SetOf(list[..0]) == {} && s0 - {} == s0;
  }

  lemma MinusTwice(s: Store, handled: set<Path>, p: Path)
    ensures s - handled - {p} == s - (handled + {p})
  {
  }

  lemma CompleteTurn(s0: Store, clock: nat, list: seq<Path>, k: nat)
    requires Consistent(s0, clock) && Schedule(s0, list) && k < |list| && Complete(s0)
    requires Deleting(s0, list[..k]) == s0 - SetOf(list[..k])
    ensures MayDelete(Deleting(s0, list[..k]), list[k])
  {
    AllNamed(s0, clock);
    var s, handled, p := Deleting(s0, list[..k]), SetOf(list[..k]), list[k];
    DeletingGoesOn(s0, list, k);
    NextHandled(list, k);
    assert p in list && p in RemovedOf(s0);
    forall c | c in ChildrenOf(s, p)
      ensures !s[c].state.Removed?
    {
      NoRemovedChildren(s0, s, list, k, c);
    }
    CompleteStep(s0, clock, s, handled, p);
  }

  lemma CompleteStep(s0: Store, clock: nat, s: Store, handled: set<Path>, p: Path)
    requires Consistent(s0, clock) && Complete(s0) && s == s0 - handled && p in s && p in RemovedOf(s0)
    requires forall c :: c in ChildrenOf(s, p) ==> !s[c].state.Removed?
    ensures MayDelete(s, p)
  {
    forall c | c in ChildrenOf(s0, p)
      ensures s0[c].state.Removed?
    {
      assert Fits(s0, clock, c) && Under(s0, c, p);
    }
    forall q | Inherits(s, q, p)
      ensures s[q].state.Removed?
    {
      FewerInherit(s0, s, q, p);
      InheritsIsUnder(s0, q, p);
      InheritorsAreYounger(s, q, p);
    }
  }

  /**
   * If everything below the removed items is removed too, exactly the removed items go, except the collections whose
   * parent is not removed; and every item that is left has its parent and its source.
   */
  lemma CompleteRemoval(s0: Store, clock: nat, list: seq<Path>)
    requires Consistent(s0, clock) && Schedule(s0, list) && Complete(s0)
    requires forall p :: p in list ==> p in s0
    ensures forall p :: p in PostPlanned(s0, list) <==> Stays(s0, p)
    ensures Consistent(PostPlanned(s0, list), clock)
  {
    AllNamed(s0, clock);
    var s := PostPlanned(s0, list);
    assert list[..|list|] == list;
    CompleteDeleting(s0, clock, list, |list|);
    PlanPhases(s0, clock, list);
    PostPlanResult(s0, clock, list);
    forall p
      ensures p in s <==> Stays(s0, p)
    {
      assert p in s ==> p in s0.Keys;
      CompleteAt(s0, clock, Deleting(s0, list), s, CollectionsIn(s0, list), p);
    }
    forall j, k | 0 <= j < k < |list|
      ensures !LosesAt(s0, list, j, k)
    {
      CompleteDeleting(s0, clock, list, k);
      CompleteTurn(s0, clock, list, k);
    }
    PostPlanConsistency(s0, clock, list);
  }

  lemma CompleteAt(s0: Store, clock: nat, s1: Store, s: Store, collections: seq<Path>, p: Path)
    requires Consistent(s0, clock) && s1 == s0 - RemovedOf(s0) && RestoringSo(s0, s1, s, collections) &&
      (p in s ==> p in s0)
    requires forall c :: c in collections <==> c in RemovedOf(s0) && s0[c].collection
    ensures p in s <==> Stays(s0, p)
  {
  }

  predicate Stays(s: Store, p: Path) {
    p in s && (!s[p].state.Removed? || (s[p].collection && Parent(p) in s && !s[Parent(p)].state.Removed?))
  }

  // ---------- when it has not ----------

  function Plain(source: Option<Path>, state: ItemState, born: nat): Item {
    Item(false, map[], source, map[], map[], state, Some(Applied), true, born)
  }

  /**
   * `/z/q` and its inheritor `/y` have been removed, but not the child `/y/x` of the inheritor, which inherits from
   * elsewhere.
   */
  function HalfRemoved(): Store {
    map[[] := Plain(None, Applied, 0), ["z"] := Plain(None, Applied, 1), ["b"] := Plain(None, Applied, 2),
        ["b", "x"] := Plain(None, Applied, 3), ["z", "q"] := Plain(Some(["b"]), Removed, 4),
        ["y"] := Plain(Some(["z", "q"]), Removed, 5), ["y", "x"] := Plain(Some(["b", "x"]), ForRemoval, 6)]
  }

  lemma HalfRemovedFits(p: Path)
    requires p in HalfRemoved()
    ensures Fits(HalfRemoved(), 7, p)
  {
    assert Parent(["z", "q"]) == ["z"] && Parent(["b", "x"]) == ["b"] && Parent(["y", "x"]) == ["y"];
    assert Parent(["z"]) == Parent(["b"]) == Parent(["y"]) == [];
  }

  lemma HalfRemovedIsConsistent()
    ensures Consistent(HalfRemoved(), 7) && forall p :: p in HalfRemoved() ==> !HalfRemoved()[p].collection
  {
    var s := HalfRemoved();
    forall p | p in s
      ensures Fits(s, 7, p)
    {
      HalfRemovedFits(p);
    }
    forall p | p in s
      ensures !s[p].collection
    {
      HalfRemovedIsPlain(p);
    }
  }

  lemma HalfRemovedIsPlain(p: Path)
    requires p in HalfRemoved()
    ensures !HalfRemoved()[p].collection
  {
  }

  lemma HalfRemovedInherits(p: Path)
    requires p in HalfRemoved()
    ensures p !in ChildrenOf(HalfRemoved(), ["z", "q"]) && (Inherits(HalfRemoved(), p, ["z", "q"]) ==> p == ["y"])
  {
  }

  lemma HalfRemovedSchedule()
    ensures Schedule(HalfRemoved(), [["z", "q"], ["y"]])
  {
  }

  /** Then `/z/q` is deleted first, and `/y` is left without its source. */
  lemma SourceMayGoMissing()
    ensures var s0, list := HalfRemoved(), [["z", "q"], ["y"]];
            Consistent(s0, 7) && Schedule(s0, list) && (forall p :: p in list ==> p in s0) &&
              s0[["y"]].source == Some(["z", "q"]) &&
            ["y"] in PostPlanned(s0, list) && ["z", "q"] !in PostPlanned(s0, list)
  {
    var s0, list := HalfRemoved(), [["z", "q"], ["y"]];
    HalfRemovedIsConsistent();
    HalfRemovedSchedule();
    HalfRemovedOrder();
    TwoTurns(s0, ["z", "q"], ["y"]);
  }

  lemma TwoTurns(s: Store, q: Path, p: Path)
    requires q in s && p in s && forall r :: r in s ==> !s[r].collection
    requires DeleteOrReset(s, q) == s - {q} && DeleteOrReset(s - {q}, p).Keys == s.Keys - {q}
    ensures forall r :: r in [q, p] ==> r in s
    ensures PostPlanned(s, [q, p]).Keys == s.Keys - {q}
  {
    var list := [q, p];
    assert Deleting(s, list[..0]) == s;
    DeletingNext(s, list, 0);
    DeletingNext(s, list, 1);
    assert list[..2] == list;
    NoCollections(s, list);
  }

  lemma {:induction false} NoCollections(s: Store, list: seq<Path>)
    requires (forall p :: p in list ==> p in s) && forall r :: r in s ==> !s[r].collection
    ensures CollectionsIn(s, list) == []
  {
    if list != [] {
      assert list[|list| - 1] in list;
      NoCollections(s, list[..|list| - 1]);
    }
  }

  lemma HalfRemovedOrder()
    ensures DeleteOrReset(HalfRemoved(), ["z", "q"]) == HalfRemoved() - {["z", "q"]}
    ensures DeleteOrReset(HalfRemoved() - {["z", "q"]}, ["y"]).Keys == HalfRemoved().Keys - {["z", "q"]}
  {
    var s0 := HalfRemoved();
    forall p | p in s0
      ensures p !in ChildrenOf(s0, ["z", "q"]) && (Inherits(s0, p, ["z", "q"]) ==> p == ["y"])
    {
      HalfRemovedInherits(p);
    }
    assert MayDelete(s0, ["z", "q"]);
    var s1 := s0 - {["z", "q"]};
    assert Parent(["y", "x"]) == ["y"] && ["y", "x"] in ChildrenOf(s1, ["y"]);
    assert !MayDelete(s1, ["y"]);
  }
}
