/** What removing an item does to everything below it: its children, its inheritors, and theirs in turn. */
module Removal {
  import opened Items
  import opened Stores

  // ---------- the child-or-inheritor relation ----------

  predicate HasParent(s: Store, q: Path) {
    q in s && q != [] && Parent(q) in s && s[Parent(q)].born < s[q].born
  }

  /** `q` is a child or a direct inheritor of `p`. */
  predicate Edge(s: Store, q: Path, p: Path) {
    (HasParent(s, q) && Parent(q) == p) || SourceOf(s, q) == Some(p)
  }

  /** `q` is reached from `p` by going to children and inheritors, at least once. */
  predicate Under(s: Store, q: Path, p: Path)
    decreases if q in s then s[q].born else 0
  {
    || (HasParent(s, q) && (Parent(q) == p || Under(s, Parent(q), p)))
    || (SourceOf(s, q).Some? && (SourceOf(s, q).value == p || Under(s, SourceOf(s, q).value, p)))
  }

  lemma {:induction false} UnderIsYounger(s: Store, q: Path, p: Path)
    requires Under(s, q, p)
    ensures q in s && p in s && s[p].born < s[q].born
    decreases if q in s then s[q].born else 0
  {
    if HasParent(s, q) && Under(s, Parent(q), p) {
      UnderIsYounger(s, Parent(q), p);
    } else if SourceOf(s, q).Some? && Under(s, SourceOf(s, q).value, p) {
      UnderIsYounger(s, SourceOf(s, q).value, p);
    }
  }

  lemma {:induction false} UnderTrans(s: Store, r: Path, q: Path, p: Path)
    requires Under(s, r, q) && Under(s, q, p)
    ensures Under(s, r, p)
    decreases if r in s then s[r].born else 0
  {
    if HasParent(s, r) && Under(s, Parent(r), q) {
      UnderTrans(s, Parent(r), q, p);
    } else if SourceOf(s, r).Some? && Under(s, SourceOf(s, r).value, q) {
      UnderTrans(s, SourceOf(s, r).value, q, p);
    }
  }

  /** The way down from `p` begins with a child or a direct inheritor. */
  lemma {:induction false} UnderFrom(s: Store, r: Path, p: Path) returns (q: Path)
    requires Under(s, r, p)
    ensures Edge(s, q, p) && (r == q || Under(s, r, q))
    decreases if r in s then s[r].born else 0
  {
    if Edge(s, r, p) {
      q := r;
    } else if HasParent(s, r) && Under(s, Parent(r), p) {
      q := UnderFrom(s, Parent(r), p);
    } else {
      q := UnderFrom(s, SourceOf(s, r).value, p);
    }
  }

  lemma {:induction false} InheritsIsUnder(s: Store, q: Path, p: Path)
    requires Inherits(s, q, p)
    ensures Under(s, q, p)
    decreases if q in s then s[q].born else 0
  {
    if SourceOf(s, q).value != p {
      InheritsIsUnder(s, SourceOf(s, q).value, p);
    }
  }

  /** An inheriting collection has a parent that inherits from the parent of its source. */
  lemma {:induction false} ParentsInherit(s: Store, clock: nat, c: Path, q: Path)
    requires Consistent(s, clock) && Inherits(s, c, q) && q in s
    ensures s[c].collection == s[q].collection
    ensures s[q].collection ==> c != [] && HasParent(s, c) && Inherits(s, Parent(c), Parent(q))
    decreases s[c].born
  {
    assert Fits(s, clock, c);
    var source := SourceOf(s, c).value;
    if source != q {
      ParentsInherit(s, clock, source, q);
    }
    if s[q].collection {
      assert Fits(s, clock, Parent(c));
    }
  }

  // ---------- what may be deleted ----------

  predicate Above(q: Path, p: Path) {
    q < p
  }

  /** `q` is in the subtree of the parent of `p`, but neither `p` nor below `p`. */
  predicate Beside(p: Path, q: Path) {
    p != [] && Parent(p) < q && !(p <= q)
  }

  /** Neither the item, nor an ancestor, nor a sibling or descendant of a sibling is undeterminable. */
  predicate Decided(s: Store, p: Path)
    requires p in s
  {
    s[p].determinable && forall q :: q in s && !s[q].determinable ==> !Above(q, p) && !Beside(p, q)
  }

  predicate Unused(it: Item) {
    it.state.Initial? || it.state.Removed?
  }

  /** `_can_item_be_deleted`, for the item and all its transitive inheritors. */
  ghost predicate CanDelete(s: Store, p: Path)
    requires p in s
  {
    forall q :: q == p || Inherits(s, q, p) ==> CanDeleteAlone(s, q)
  }

  predicate CanDeleteAlone(s: Store, p: Path) {
    p in s && Decided(s, p) && Unused(s[p]) && forall c :: c in ChildrenOf(s, p) ==> Unused(s[c])
  }

  /** What a single item has to be for everything above it to be deletable. */
  predicate Local(s: Store, p: Path) {
    p in s && Decided(s, p) && Unused(s[p])
  }

  ghost predicate AllLocal(s: Store, p: Path) {
    Local(s, p) && forall q :: Under(s, q, p) ==> Local(s, q)
  }

  /** Whether a removal deletes the item; a collection goes with its parent only. */
  ghost predicate Goner(s: Store, p: Path) {
    p in s && AllLocal(s, if s[p].collection then Parent(p) else p)
  }

  lemma AllLocalBelow(s: Store, p: Path, q: Path)
    requires AllLocal(s, p) && Under(s, q, p)
    ensures AllLocal(s, q)
  {
    forall r | Under(s, r, q)
      ensures Local(s, r)
    {
      UnderTrans(s, r, q, p);
    }
  }

  /** Below an item that is no collection, each collection has a parent that is the item or below it too. */
  lemma {:induction false} CollectionParent(s: Store, clock: nat, c: Path, p: Path)
    requires Consistent(s, clock) && Under(s, c, p) && p in s && !s[p].collection
    ensures c in s && (s[c].collection ==> HasParent(s, c) && (Parent(c) == p || Under(s, Parent(c), p)))
    decreases if c in s then s[c].born else 0
  {
    UnderIsYounger(s, c, p);
    assert Fits(s, clock, c);
    var source := SourceOf(s, c);
    if s[c].collection && source.Some? && Under(s, source.value, p) {
      CollectionParent(s, clock, source.value, p);
      assert Fits(s, clock, Parent(c)) && SourceOf(s, Parent(c)) == Some(Parent(source.value));
    }
  }

  /** All items below a goner are goners. */
  lemma GonersBelow(s: Store, clock: nat, p: Path, q: Path)
    requires Consistent(s, clock) && Goner(s, p) && (q == p || Under(s, q, p))
    ensures Goner(s, q) && AllLocal(s, q)
  {
    assert Fits(s, clock, p);
    var top := if s[p].collection then Parent(p) else p;
    assert top in s && !s[top].collection;
    if q != top {
      if s[p].collection {
        assert Under(s, p, top);
        if q != p {
          UnderTrans(s, q, p, top);
        }
      }
      AllLocalBelow(s, top, q);
      CollectionParent(s, clock, q, top);
      if s[q].collection && Parent(q) != top {
        AllLocalBelow(s, top, Parent(q));
      }
    }
  }

  // ---------- a removal under way ----------

  /** Everything below is deleted, as it should be. */
  ghost predicate CleanBelow(s0: Store, s: Store, p: Path) {
    AllLocal(s0, p) && forall q :: Under(s0, q, p) ==> q !in s
  }

  /** A collection that is marked as removed for a while, before its parent turns out to stay. */
  ghost predicate Hesitates(s0: Store, p: Path) {
    p in s0 && s0[p].collection && AllLocal(s0, p) && forall c :: Inherits(s0, c, p) ==> AllLocal(s0, Parent(c))
  }

  /** What a removal makes of an item that it leaves in the store. */
  predicate OnlyStates(a: Item, it: Item) {
    it == a.(state := it.state, previous := it.previous) &&
    (it == a || it.state.ForRemoval? || it.state.Removed?)
  }

  ghost predicate Leaves(s0: Store, s: Store, p: Path)
    requires p in s0 && p in s
  {
    !Goner(s0, p) && s[p].previous == Some(if Hesitates(s0, p) then Removed else s0[p].state)
  }

  /** The state of one item during a removal that began in `s0`. */
  ghost predicate GoingAt(s0: Store, s: Store, p: Path)
    requires p in s0
  {
    if p !in s then Goner(s0, p) && CleanBelow(s0, s, p)
    else
      && OnlyStates(s0[p], s[p])
      && (s[p].state.Removed? && s[p] != s0[p] ==> CleanBelow(s0, s, p))
      && (s[p].state.ForRemoval? && s[p] != s0[p] ==> Leaves(s0, s, p))
  }

  /** The store during a removal that began in `s0`. */
  ghost predicate Going(s0: Store, s: Store) {
    s.Keys <= s0.Keys && forall p :: p in s0 ==> GoingAt(s0, s, p)
  }

  ghost predicate NoneRemoved(s: Store) {
    forall p :: p in s ==> !s[p].state.Removed?
  }

  lemma GoingStarts(s: Store)
    ensures Going(s, s)
  {
  }

  /** Undeterminable items are never deleted, so the check for them gives the same result all along. */
  lemma DecidedStays(s0: Store, s: Store, p: Path)
    requires Going(s0, s) && p in s
    ensures Decided(s, p) <==> Decided(s0, p)
  {
  }

  /** Survivors keep their source and their parent. */
  lemma GoingIsPart(s0: Store, clock: nat, s: Store)
    requires Consistent(s0, clock) && Going(s0, s)
    ensures PartOf(s0, s) && Consistent(s, clock)
  {
    forall p | p in s
      ensures p in s0 && Alike(s0[p], s[p]) && (SourceOf(s0, p).Some? ==> SourceOf(s0, p).value in s) &&
        Fits(s, clock, p)
    {
      GoingIsPartAt(s0, clock, s, p);
    }
  }

  lemma GoingIsPartAt(s0: Store, clock: nat, s: Store, p: Path)
    requires Consistent(s0, clock) && Going(s0, s) && p in s
    ensures p in s0 && Alike(s0[p], s[p]) && (SourceOf(s0, p).Some? ==> SourceOf(s0, p).value in s) && Fits(s, clock, p)
  {
    assert GoingAt(s0, s, p) && Fits(s0, clock, p);
    if p != [] {
      assert Under(s0, p, Parent(p));
      assert GoingAt(s0, s, Parent(p));
    }
    if s0[p].source.Some? {
      var source := s0[p].source.value;
      assert Under(s0, p, source);
      assert GoingAt(s0, s, source);
    }
  }

  // ---------- the steps of a removal ----------

  /** Deleted, or marked for removal. */
  predicate Covered(s: Store, p: Path) {
    p in s ==> s[p].state.ForRemoval?
  }

  ghost predicate CoveredBelow(s0: Store, s: Store, p: Path) {
    forall q :: Under(s0, q, p) ==> Covered(s, q)
  }

  /** All transitive inheritors are dealt with, and everything below them. */
  ghost predicate InheritorsCovered(s0: Store, s: Store, p: Path) {
    forall q :: Inherits(s0, q, p) ==> Covered(s, q) && CoveredBelow(s0, s, q)
  }

  /** The children are dealt with, except that they may still be marked as removed. */
  ghost predicate ChildrenSettled(s0: Store, s: Store, p: Path) {
    forall c :: c in ChildrenOf(s0, p) ==> ChildSettled(s0, s, c)
  }

  ghost predicate ChildSettled(s0: Store, s: Store, c: Path) {
    ((c in s && s[c].state.Removed? && CleanBelow(s0, s, c)) || Covered(s, c)) && CoveredBelow(s0, s, c)
  }

  /** The items outside of the removed part stay as they are, and what is marked for removal stays in the store. */
  ghost predicate Within(s0: Store, s1: Store, s2: Store, p: Path) {
    && s2.Keys <= s1.Keys
    && (forall q :: q in s1 && q != p && !Under(s0, q, p) ==> q in s2 && s2[q] == s1[q])
    && (forall q :: q in s1 && s1[q].state.ForRemoval? ==> q in s2 && s2[q] == s1[q])
  }

  lemma CoveredPersists(s0: Store, s1: Store, s2: Store, p: Path, q: Path)
    requires Within(s0, s1, s2, p)
    ensures Covered(s1, q) ==> Covered(s2, q)
    ensures CoveredBelow(s0, s1, q) ==> CoveredBelow(s0, s2, q)
    ensures InheritorsCovered(s0, s1, q) ==> InheritorsCovered(s0, s2, q)
  {
  }

  /** A removal further down is within the removal at `p`, and leaves `p` alone. */
  lemma WithinBelow(s0: Store, s1: Store, s2: Store, s3: Store, p: Path, q: Path)
    requires Within(s0, s1, s2, p) && Within(s0, s2, s3, q) && Under(s0, q, p) && p in s2
    ensures Within(s0, s1, s3, p) && p in s3 && s3[p] == s2[p]
  {
    if Under(s0, p, q) || p == q {
      UnderIsYounger(s0, q, p);
      if p != q {
        UnderIsYounger(s0, p, q);
      }
    }
    forall r | r in s1 && r != p && !Under(s0, r, p)
      ensures r in s3 && s3[r] == s1[r]
    {
      if Under(s0, r, q) {
        UnderTrans(s0, r, q, p);
      }
    }
  }

  /** With all inheritors and children dealt with, the check for deletion is right. */
  lemma CanDeleteIsAllLocal(s0: Store, clock: nat, s: Store, p: Path)
    requires Consistent(s0, clock) && Going(s0, s) && p in s
    requires InheritorsCovered(s0, s, p) && ChildrenSettled(s0, s, p) && CanDelete(s, p)
    ensures AllLocal(s0, p)
    ensures forall q :: Under(s0, q, p) ==> q !in s || (q in ChildrenOf(s, p) && s[q].state.Removed?)
  {
    GoingIsPart(s0, clock, s);
    assert GoingAt(s0, s, p) && CanDeleteAlone(s, p);
    DecidedStays(s0, s, p);
    assert s[p].state.Removed? ==> Local(s0, p);
    forall q | Under(s0, q, p)
      ensures Local(s0, q) && (q !in s || (q in ChildrenOf(s, p) && s[q].state.Removed?))
    {
      var x := UnderFrom(s0, q, p);
      BelowIsLocal(s0, clock, s, p, x, q);
    }
  }

  lemma BelowIsLocal(s0: Store, clock: nat, s: Store, p: Path, x: Path, q: Path)
    requires Consistent(s0, clock) && Going(s0, s) && PartOf(s0, s) && p in s
    requires InheritorsCovered(s0, s, p) && ChildrenSettled(s0, s, p) && CanDelete(s, p)
    requires Edge(s0, x, p) && (q == x || Under(s0, q, x))
    ensures Local(s0, q) && (q !in s || (q in ChildrenOf(s, p) && s[q].state.Removed?))
  {
    UnderIsYounger(s0, x, p);
    assert GoingAt(s0, s, x) && CanDeleteAlone(s, p);
    if x in s {
      PartInherits(s0, s, x, p);
      assert Inherits(s, x, p) ==> CanDeleteAlone(s, x) && Covered(s, x);
    }
    if HasParent(s0, x) && Parent(x) == p {
      assert x in ChildrenOf(s0, p);
      assert x in s ==> x in ChildrenOf(s, p) && s[x].state.Removed?;
    }
    assert CleanBelow(s0, s, x);
  }

  /** And it holds whenever all items below may be deleted. */
  lemma AllLocalIsCanDelete(s0: Store, clock: nat, s: Store, p: Path)
    requires Consistent(s0, clock) && Going(s0, s) && p in s
    requires InheritorsCovered(s0, s, p) && ChildrenSettled(s0, s, p)
    requires Goner(s0, p) || Hesitates(s0, p)
    requires s[p].state.ForRemoval? ==> s[p] == s0[p] || Goner(s0, p)
    ensures CanDelete(s, p)
  {
    GoingIsPart(s0, clock, s);
    assert GoingAt(s0, s, p);
    if Goner(s0, p) {
      GonersBelow(s0, clock, p, p);
    }
    assert Local(s0, p);
    DecidedStays(s0, s, p);
    forall q | Inherits(s0, q, p)
      ensures q !in s
    {
      InheritorIsGoner(s0, clock, p, q);
      assert GoingAt(s0, s, q) && Covered(s, q);
    }
    forall q | q in s
      ensures !Inherits(s, q, p)
    {
      PartInherits(s0, s, q, p);
    }
    forall c | c in ChildrenOf(s, p)
      ensures Unused(s[c])
    {
      assert c in ChildrenOf(s0, p);
      ChildIsGoner(s0, clock, p, c);
      assert GoingAt(s0, s, c) && Local(s0, c);
    }
  }

  lemma InheritorIsGoner(s0: Store, clock: nat, p: Path, q: Path)
    requires Consistent(s0, clock) && (Goner(s0, p) || Hesitates(s0, p)) && Inherits(s0, q, p)
    ensures Goner(s0, q) && Local(s0, q)
  {
    InheritorsAreYounger(s0, q, p);
    InheritsIsUnder(s0, q, p);
    if Goner(s0, p) {
      GonersBelow(s0, clock, p, q);
    } else {
      ParentsInherit(s0, clock, q, p);
    }
  }

  lemma ChildIsGoner(s0: Store, clock: nat, p: Path, c: Path)
    requires Consistent(s0, clock) && (Goner(s0, p) || Hesitates(s0, p)) && c in ChildrenOf(s0, p)
    ensures Goner(s0, c) && Local(s0, c)
  {
    assert Fits(s0, clock, c);
    assert Under(s0, c, p);
    if Goner(s0, p) {
      GonersBelow(s0, clock, p, c);
    } else {
      AllLocalBelow(s0, p, c);
    }
  }

  /** An item is deleted. */
  lemma DeleteKeepsGoing(s0: Store, s: Store, c: Path)
    requires Going(s0, s) && c in s && CleanBelow(s0, s, c) && Goner(s0, c)
    ensures Going(s0, s - {c})
  {
  }

  /** An item is given another state. */
  lemma MarkKeepsGoing(s0: Store, s: Store, p: Path, it: Item)
    requires Going(s0, s) && p in s && GoingAt(s0, s[p := it], p)
    ensures Going(s0, s[p := it])
  {
  }

  /** What the check in `_delete_removed_item` asks for. */
  ghost predicate MayDelete(s: Store, p: Path) {
    (forall q :: Inherits(s, q, p) ==> s[q].state.Removed?) &&
      (forall c :: c in ChildrenOf(s, p) ==> s[c].state.Removed?)
  }

  /** An item that the removal has marked as removed is never refused. */
  lemma RemovedMayBeDeleted(s0: Store, clock: nat, s: Store, p: Path)
    requires Consistent(s0, clock) && Going(s0, s) && p in s && CleanBelow(s0, s, p)
    ensures MayDelete(s, p) && ChildrenOf(s, p) == {}
  {
    GoingIsPart(s0, clock, s);
    forall q | q in s
      ensures !Inherits(s, q, p)
    {
      PartInherits(s0, s, q, p);
      if Inherits(s0, q, p) {
        InheritsIsUnder(s0, q, p);
      }
    }
    forall c | c in s
      ensures c !in ChildrenOf(s, p)
    {
      assert Fits(s0, clock, c);
      if c in ChildrenOf(s0, p) {
        assert Under(s0, c, p);
      }
    }
  }

  /** An item that the removal has marked as removed may be deleted, and the rest of the removal stays as it is. */
  lemma RemovedIsGoner(s0: Store, s1: Store, s2: Store, p: Path)
    requires p in s0 && p in s1 && p in s2 && Within(s0, s1, s2, p) && (s0[p].collection ==> Covered(s1, p))
    requires s2[p].state.Removed? && CleanBelow(s0, s2, p) && CoveredBelow(s0, s2, p)
    ensures Goner(s0, p) && Within(s0, s1, s2 - {p}, p) && Covered(s2 - {p}, p) && CoveredBelow(s0, s2 - {p}, p)
  {
    assert !s1[p].state.ForRemoval?;
  }

  lemma GoneIsCovered(s0: Store, s: Store, p: Path)
    requires Going(s0, s) && p in s0 && p !in s
    ensures Covered(s, p) && CoveredBelow(s0, s, p)
  {
  }

  lemma InheritorsOfInheritor(s0: Store, s: Store, p: Path, q: Path)
    requires InheritorsCovered(s0, s, p) && Inherits(s0, q, p)
    ensures InheritorsCovered(s0, s, q)
  {
    forall r | Inherits(s0, r, q)
      ensures Covered(s, r) && CoveredBelow(s0, s, r)
    {
      InheritsTrans(s0, r, q, p);
    }
  }

  /** The inheritors of a child collection are below the inheritors of the item. */
  lemma InheritorsOfChild(s0: Store, clock: nat, s: Store, p: Path, c: Path)
    requires Consistent(s0, clock) && InheritorsCovered(s0, s, p) && c in ChildrenOf(s0, p) && s0[c].collection
    ensures InheritorsCovered(s0, s, c)
  {
    forall r | Inherits(s0, r, c)
      ensures Covered(s, r) && CoveredBelow(s0, s, r)
    {
      ParentsInherit(s0, clock, r, c);
      assert CoveredBelow(s0, s, Parent(r));
      assert Under(s0, r, Parent(r));
      forall x | Under(s0, x, r)
        ensures Covered(s, x)
      {
        UnderTrans(s0, x, r, Parent(r));
      }
    }
  }

  /** An item that the check keeps in the store is no goner, and has not been marked as removed. */
  lemma ItemStays(s0: Store, clock: nat, s: Store, p: Path)
    requires Consistent(s0, clock) && Going(s0, s) && p in s
    requires InheritorsCovered(s0, s, p) && ChildrenSettled(s0, s, p) && !CanDelete(s, p)
    ensures !Goner(s0, p) && (s[p].state.Removed? ==> s[p] == s0[p]) && (s[p].state.ForRemoval? || !Hesitates(s0, p))
  {
    assert GoingAt(s0, s, p);
    if s[p].state.Removed? && s[p] != s0[p] {
      if s0[p].collection {
        forall c | Inherits(s0, c, p)
          ensures AllLocal(s0, Parent(c))
        {
          InheritsIsUnder(s0, c, p);
          InheritorsAreYounger(s0, c, p);
          ParentsInherit(s0, clock, c, p);
          assert GoingAt(s0, s, c);
        }
      }
      assert Goner(s0, p) || Hesitates(s0, p);
    }
    if (Goner(s0, p) || Hesitates(s0, p)) && (s[p].state.ForRemoval? ==> s[p] == s0[p] || Goner(s0, p)) {
      AllLocalIsCanDelete(s0, clock, s, p);
    }
  }

  /** A collection that was marked as removed is left in the store along with its parent. */
  lemma CollectionStays(s0: Store, clock: nat, s: Store, p: Path, c: Path)
    requires Consistent(s0, clock) && Going(s0, s) && c in ChildrenOf(s0, p) && s0[c].collection && !Goner(s0, p)
    requires c in s && s[c].state.Removed? && CleanBelow(s0, s, c)
    ensures Going(s0, s[c := SetState(s[c], ForRemoval, Merged(s, c))])
  {
    assert Fits(s0, clock, c) && GoingAt(s0, s, c);
    forall r | Inherits(s0, r, c)
      ensures AllLocal(s0, Parent(r))
    {
      InheritsIsUnder(s0, r, c);
      InheritorsAreYounger(s0, r, c);
      ParentsInherit(s0, clock, r, c);
      assert GoingAt(s0, s, r);
    }
    assert Hesitates(s0, c);
    MarkKeepsGoing(s0, s, c, SetState(s[c], ForRemoval, Merged(s, c)));
  }

  lemma ChildIsGonerOrStays(s0: Store, clock: nat, s: Store, p: Path, c: Path)
    requires Consistent(s0, clock) && Going(s0, s) && c in ChildrenOf(s0, p) && c in s && CleanBelow(s0, s, c)
    requires AllLocal(s0, p) || !s0[c].collection
    ensures Goner(s0, c)
  {
  }

  /** Once the children are deleted or marked for removal, everything below is. */
  lemma AllBelowCovered(s0: Store, s: Store, p: Path)
    requires InheritorsCovered(s0, s, p)
    requires forall c :: c in ChildrenOf(s0, p) ==> Covered(s, c) && CoveredBelow(s0, s, c)
    ensures CoveredBelow(s0, s, p)
  {
    forall q | Under(s0, q, p)
      ensures Covered(s, q)
    {
      var x := UnderFrom(s0, q, p);
      if HasParent(s0, x) && Parent(x) == p {
        assert x in ChildrenOf(s0, p);
      } else {
        assert Inherits(s0, x, p);
      }
    }
  }

  // ---------- the loops of a removal ----------

  /** The inheritors are dealt with but for those in `left`. */
  ghost predicate InheritorsDone(s0: Store, s: Store, p: Path, left: set<Path>) {
    && (forall q :: q in left ==> Inherits(s0, q, p))
    && forall q :: InheritorDone(s0, s, p, left, q)
  }

  ghost predicate InheritorDone(s0: Store, s: Store, p: Path, left: set<Path>, q: Path) {
    Inherits(s0, q, p) && q !in left ==> Covered(s, q) && CoveredBelow(s0, s, q)
  }

  lemma InheritorsAreDone(s0: Store, s: Store, p: Path)
    requires InheritorsDone(s0, s, p, {})
    ensures InheritorsCovered(s0, s, p)
  {
    forall q | Inherits(s0, q, p)
      ensures Covered(s, q) && CoveredBelow(s0, s, q)
    {
      assert InheritorDone(s0, s, p, {}, q);
    }
  }

  lemma InheritorsAtStart(s0: Store, clock: nat, s: Store, p: Path)
    requires Consistent(s0, clock) && Going(s0, s)
    ensures InheritorsDone(s0, s, p, InheritorsOf(s, p))
  {
    GoingIsPart(s0, clock, s);
    forall q | q in s
      ensures Inherits(s, q, p) <==> Inherits(s0, q, p)
    {
      PartInherits(s0, s, q, p);
    }
    forall q
      ensures InheritorDone(s0, s, p, InheritorsOf(s, p), q)
    {
      if Inherits(s0, q, p) && q !in InheritorsOf(s, p) {
        InheritorsAreYounger(s0, q, p);
        GoneIsCovered(s0, s, q);
      }
    }
  }

  lemma BeforeInheritor(s0: Store, clock: nat, s: Store, p: Path, q: Path)
    requires Consistent(s0, clock) && Inherits(s0, q, p) && p in s0 &&
      (s0[p].collection ==> InheritorsCovered(s0, s, p))
    ensures q in s0 && Under(s0, q, p) && s0[p].born < s0[q].born < clock
    ensures s0[q].collection ==> InheritorsCovered(s0, s, q) && Covered(s, q)
  {
    InheritorsAreYounger(s0, q, p);
    InheritsIsUnder(s0, q, p);
    assert Fits(s0, clock, q);
    ParentsInherit(s0, clock, q, p);
    if s0[q].collection {
      InheritorsOfInheritor(s0, s, p, q);
    }
  }

  /** One round of the first loop, for the inheritor `x`. */
  ghost predicate DealtWith(s0: Store, s1: Store, s2: Store, x: Path) {
    if x in s1 then Within(s0, s1, s2, x) && Covered(s2, x) && CoveredBelow(s0, s2, x) else s2 == s1
  }

  /** One round of the second loop, for the child `c`. */
  ghost predicate SettledNow(s0: Store, s1: Store, s2: Store, c: Path) {
    if c in s1 then Within(s0, s1, s2, c) && ChildSettled(s0, s2, c) else s2 == s1
  }

  lemma OneMoreCovered(s0: Store, s1: Store, s2: Store, x: Path, q: Path)
    requires Going(s0, s2) && x in s0 && (q == x || (Covered(s1, q) && CoveredBelow(s0, s1, q)))
    requires DealtWith(s0, s1, s2, x)
    ensures Covered(s2, q) && CoveredBelow(s0, s2, q)
  {
  }

  /** One more inheritor is dealt with. */
  lemma AfterInheritor(s0: Store, s1: Store, s2: Store, p: Path, left: set<Path>, x: Path, rest: set<Path>)
    requires InheritorsDone(s0, s1, p, left) && Going(s0, s2) && x in s0 && left - {x} <= rest <= left
    requires DealtWith(s0, s1, s2, x)
    ensures InheritorsDone(s0, s2, p, rest)
  {
    forall q
      ensures InheritorDone(s0, s2, p, rest, q)
    {
      InheritorRemainsDone(s0, s1, s2, p, left, x, rest, q);
    }
  }

  lemma InheritorRemainsDone(s0: Store, s1: Store, s2: Store, p: Path, left: set<Path>, x: Path, rest: set<Path>,
                             q: Path)
    requires InheritorDone(s0, s1, p, left, q) && Going(s0, s2) && x in s0 && left - {x} <= rest
    requires DealtWith(s0, s1, s2, x)
    ensures InheritorDone(s0, s2, p, rest, q)
  {
    if q == x || (Covered(s1, q) && CoveredBelow(s0, s1, q)) {
      OneMoreCovered(s0, s1, s2, x, q);
    }
  }

  /** The removal of something further down keeps what the loops of a removal keep. */
  lemma LoopGoesOn(s0: Store, start: Store, s1: Store, s2: Store, p: Path, x: Path)
    requires Within(s0, start, s1, p) && p in s1 && Under(s0, x, p)
    requires DealtWith(s0, s1, s2, x) || SettledNow(s0, s1, s2, x)
    ensures Within(s0, start, s2, p) && p in s2 && s2[p] == s1[p]
    ensures InheritorsCovered(s0, s1, p) ==> InheritorsCovered(s0, s2, p)
  {
    if x in s1 {
      WithinBelow(s0, start, s1, s2, p, x);
      CoveredPersists(s0, s1, s2, x, p);
    }
  }

  /** The children are settled but for those in `left`. */
  ghost predicate ChildrenDone(s0: Store, s: Store, p: Path, left: set<Path>) {
    left <= ChildrenOf(s0, p) && forall c :: c in ChildrenOf(s0, p) && c !in left ==> ChildSettled(s0, s, c)
  }

  lemma ChildrenAtStart(s0: Store, s: Store, p: Path)
    requires Going(s0, s)
    ensures ChildrenDone(s0, s, p, ChildrenOf(s, p))
  {
    forall c | c in ChildrenOf(s0, p) && c !in ChildrenOf(s, p)
      ensures ChildSettled(s0, s, c)
    {
      GoneIsCovered(s0, s, c);
    }
  }

  lemma BeforeChild(s0: Store, clock: nat, s: Store, p: Path, c: Path)
    requires Consistent(s0, clock) && InheritorsCovered(s0, s, p) && c in ChildrenOf(s0, p)
    ensures c in s0 && p in s0 && Under(s0, c, p) && s0[p].born < s0[c].born < clock
    ensures s0[c].collection ==> InheritorsCovered(s0, s, c)
  {
    assert Fits(s0, clock, c);
    if s0[c].collection {
      InheritorsOfChild(s0, clock, s, p, c);
    }
  }

  lemma OneMoreSettled(s0: Store, s1: Store, s2: Store, c: Path, d: Path)
    requires Going(s0, s2) && c in s0 && d in s0
    requires SettledNow(s0, s1, s2, c)
    requires d == c || ChildSettled(s0, s1, d)
    ensures ChildSettled(s0, s2, d)
  {
  }

  lemma AfterChildAt(s0: Store, s1: Store, s2: Store, p: Path, left: set<Path>, c: Path, d: Path)
    requires ChildrenDone(s0, s1, p, left) && Going(s0, s2) && c in left && d in ChildrenOf(s0, p) &&
      (d in left ==> d == c)
    requires SettledNow(s0, s1, s2, c)
    ensures ChildSettled(s0, s2, d)
  {
    OneMoreSettled(s0, s1, s2, c, d);
  }

  /** One more child is dealt with, and the others remain so. */
  lemma AfterChild(s0: Store, s1: Store, s2: Store, p: Path, left: set<Path>, c: Path)
    requires ChildrenDone(s0, s1, p, left) && Going(s0, s2) && c in left
    requires SettledNow(s0, s1, s2, c)
    ensures ChildrenDone(s0, s2, p, left - {c})
  {
    forall d | d in ChildrenOf(s0, p) && d !in left - {c}
      ensures ChildSettled(s0, s2, d)
    {
      AfterChildAt(s0, s1, s2, p, left, c, d);
    }
  }

  /** What the result of the check for deletion means at the end of a removal. */
  ghost predicate Verdict(s0: Store, s: Store, p: Path, can: bool)
    requires p in s
  {
    if can then
      && AllLocal(s0, p) && !s[p].state.ForRemoval?
      && forall q :: Under(s0, q, p) ==> q !in s || (q in ChildrenOf(s, p) && s[q].state.Removed?)
    else
      && !Goner(s0, p) && (s[p].state.Removed? ==> p in s0 && s[p] == s0[p])
      && (s[p].state.ForRemoval? || !Hesitates(s0, p))
  }

  lemma CheckIsRight(s0: Store, clock: nat, s: Store, p: Path)
    requires Consistent(s0, clock) && Going(s0, s) && p in s
    requires InheritorsCovered(s0, s, p) && ChildrenSettled(s0, s, p)
    ensures Verdict(s0, s, p, CanDelete(s, p))
  {
    if CanDelete(s, p) {
      assert CanDeleteAlone(s, p);
      CanDeleteIsAllLocal(s0, clock, s, p);
    } else {
      ItemStays(s0, clock, s, p);
    }
  }

  /** The children marked as removed are dealt with but for those in `left`. */
  ghost predicate MarkedLeft(s0: Store, s: Store, p: Path, can: bool, left: set<Path>) {
    && left <= ChildrenOf(s0, p)
    && (forall c :: c in left ==> c in s && s[c].state.Removed? && CleanBelow(s0, s, c))
    && (forall c :: c in ChildrenOf(s0, p) && c !in left ==> Covered(s, c))
    && (can ==> forall q :: Under(s0, q, p) ==> q !in s || q in left)
  }

  lemma MarkedAtStart(s0: Store, s: Store, p: Path, can: bool)
    requires Going(s0, s) && p in s && ChildrenSettled(s0, s, p) && Verdict(s0, s, p, can)
    ensures MarkedLeft(s0, s, p, can, set c | c in ChildrenOf(s, p) && s[c].state.Removed?)
  {
  }

  lemma MarkedAtEnd(s0: Store, s1: Store, s2: Store, p: Path, can: bool)
    requires Within(s0, s1, s2, p) && ChildrenSettled(s0, s1, p) && MarkedLeft(s0, s2, p, can, {})
    requires InheritorsCovered(s0, s1, p) && (can ==> AllLocal(s0, p))
    ensures CoveredBelow(s0, s2, p) && (can ==> CleanBelow(s0, s2, p))
  {
    forall c | c in ChildrenOf(s0, p)
      ensures Covered(s2, c) && CoveredBelow(s0, s2, c)
    {
      CoveredPersists(s0, s1, s2, p, c);
    }
    CoveredPersists(s0, s1, s2, p, p);
    AllBelowCovered(s0, s2, p);
  }

  lemma BelowParent(s0: Store, clock: nat, p: Path, c: Path)
    requires Consistent(s0, clock) && c in ChildrenOf(s0, p)
    ensures p in s0 && Under(s0, c, p) && c != p
  {
    assert Fits(s0, clock, c);
  }

  /** A child that is marked as removed has been deleted, or marked for removal. */
  lemma AfterMarkedChild(s0: Store, start: Store, s1: Store, s2: Store, p: Path, can: bool, left: set<Path>, c: Path)
    requires Within(s0, start, s1, p) && MarkedLeft(s0, s1, p, can, left) && c in left && Under(s0, c, p) && p in s1 &&
      c != p
    requires s2 == s1 - {c} || (!can && c in s2 && s2[c].state.ForRemoval? && s2 == s1[c := s2[c]])
    ensures Within(s0, start, s2, p) && p in s2 && s2[p] == s1[p] && MarkedLeft(s0, s2, p, can, left - {c})
  {
  }

  /** The last step of a removal: the item itself is marked. */
  lemma LastMark(s0: Store, start: Store, s: Store, p: Path, can: bool)
    requires Going(s0, s) && p in s && p in start && s[p] == start[p] && Within(s0, start, s, p)
    requires Verdict(s0, start, p, can) && CoveredBelow(s0, s, p) && (can ==> CleanBelow(s0, s, p))
    ensures var s2 := s[p := SetState(s[p], if can then Removed else ForRemoval, Merged(s, p))];
            Going(s0, s2) && Within(s0, start, s2, p) && CoveredBelow(s0, s2, p) && (can ==> CleanBelow(s0, s2, p))
  {
    assert GoingAt(s0, s, p);
    var it := SetState(s[p], if can then Removed else ForRemoval, Merged(s, p));
    MarkKeepsGoing(s0, s, p, it);
    forall q | Under(s0, q, p)
      ensures Covered(s[p := it], q)
    {
      UnderIsYounger(s0, q, p);
    }
  }

  // ---------- the result of a removal ----------

  /** What is left of an item from `p` down: nothing if it is a goner, else the item marked for removal. */
  ghost predicate RemovedAt(s0: Store, s: Store, q: Path)
    requires q in s0
  {
    && (q !in s <==> Goner(s0, q))
    && (q in s ==>
          && s[q].state.ForRemoval?
          && (s0[q].state.ForRemoval? ==> s[q] == s0[q])
          && (!s0[q].state.ForRemoval? ==>
                s[q] == s0[q].(state := ForRemoval,
                  previous := Some(if Hesitates(s0, q) then Removed else s0[q].state))))
  }

  /** The items from `p` down are removed, the others are as they were. */
  ghost predicate RemovedFrom(s0: Store, s: Store, p: Path) {
    && s.Keys <= s0.Keys
    && forall q :: q in s0 ==>
         if q == p || Under(s0, q, p) then RemovedAt(s0, s, q) else q in s && s[q] == s0[q]
  }

  lemma RemovalIsExact(s0: Store, clock: nat, s: Store, p: Path)
    requires Consistent(s0, clock) && Going(s0, s) && p in s0
    requires Within(s0, s0, s, p) && Covered(s, p) && CoveredBelow(s0, s, p)
    ensures RemovedFrom(s0, s, p)
  {
    forall q | q in s0 && (q == p || Under(s0, q, p))
      ensures RemovedAt(s0, s, q)
    {
      assert GoingAt(s0, s, q) && Covered(s, q);
      if Goner(s0, q) {
        GonersBelow(s0, clock, q, q);
      }
    }
  }

  /** The item was never deployed or is deployed no more, and nothing about it or around it is undetermined. */
  ghost predicate NeverInUse(s: Store, q: Path) {
    && q in s && (s[q].state.Initial? || s[q].state.Removed?) && s[q].determinable
    && forall r :: r in s && !s[r].determinable ==> !(r < q) && !(q != [] && Parent(q) < r && !(q <= r))
  }

  /**
   * A removal deletes an item, from the removed one down, exactly if the item and everything below it is not in use;
   * for a collection it is its parent that counts.
   */
  lemma DeletedExactly(s0: Store, s: Store, p: Path, q: Path)
    requires RemovedFrom(s0, s, p) && q in s0 && (q == p || Under(s0, q, p))
    ensures var top := if s0[q].collection then Parent(q) else q;
      q !in s <==> NeverInUse(s0, top) && forall r :: Under(s0, r, top) ==> NeverInUse(s0, r)
  {
    assert RemovedAt(s0, s, q);
    forall r
      ensures NeverInUse(s0, r) <==> Local(s0, r)
    {
      LocalIs(s0, r);
    }
  }

  lemma LocalIs(s: Store, q: Path)
    ensures NeverInUse(s, q) <==> Local(s, q)
  {
  }

  /** What a removal deletes was in its initial state, or removed before. */
  lemma DeletedWasUnused(s0: Store, clock: nat, s: Store, p: Path, q: Path)
    requires Consistent(s0, clock) && RemovedFrom(s0, s, p) && q in s0 && q !in s
    ensures s0[q].state.Initial? || s0[q].state.Removed?
  {
    assert q == p || Under(s0, q, p);
    DeletedExactly(s0, s, p, q);
    if s0[q].collection {
      assert Fits(s0, clock, q);
      assert Under(s0, q, Parent(q));
    }
  }

  /** Nothing is undetermined, and `p` has neither children nor inheritors. */
  predicate LoneAndClear(s: Store, p: Path) {
    forall q :: q in s ==> s[q].determinable && !(q != [] && Parent(q) == p) && s[q].source != Some(p)
  }

  /** An initial item without children and inheritors goes, if all items are determinable. */
  lemma UnusedItemGoes(s0: Store, s: Store, p: Path)
    requires RemovedFrom(s0, s, p) && p in s0 && !s0[p].collection && s0[p].state.Initial?
    requires LoneAndClear(s0, p)
    ensures p !in s
  {
    DeletedExactly(s0, s, p, p);
    forall r
      ensures !Under(s0, r, p)
    {
      if Under(s0, r, p) {
        var x := UnderFrom(s0, r, p);
      }
    }
  }

  /** After a removal, the store is consistent, and no item from `p` down is in state Removed. */
  lemma RemovalIsConsistent(s0: Store, clock: nat, s: Store, p: Path)
    requires Consistent(s0, clock) && RemovedFrom(s0, s, p) && p in s0 && !s0[p].collection
    ensures Consistent(s, clock) && PartOf(s0, s)
    ensures forall q :: q in s && s[q].state.Removed? ==> q in s0 && s[q] == s0[q] && q != p && !Under(s0, q, p)
  {
    forall q | q in s
      ensures q in s0 && Alike(s0[q], s[q]) && ParentStays(s, q)
      ensures s[q].state.Removed? ==> s[q] == s0[q] && q != p && !Under(s0, q, p)
      ensures SourceOf(s0, q).Some? ==> SourceOf(s0, q).value in s
    {
      SurvivorIsAlike(s0, s, p, q);
      SurvivorLinks(s0, clock, s, p, q);
    }
    PartIsConsistent(s0, clock, s);
  }

  predicate ParentStays(s: Store, q: Path) {
    q != [] ==> Parent(q) in s
  }

  lemma PartIsConsistent(s0: Store, clock: nat, s: Store)
    requires Consistent(s0, clock) && PartOf(s0, s) &&
      forall q {:trigger ParentStays(s, q)} :: q in s ==> ParentStays(s, q)
    ensures Consistent(s, clock)
  {
    forall q | q in s
      ensures Fits(s, clock, q)
    {
      assert Fits(s0, clock, q) && ParentStays(s, q);
      assert SourceOf(s0, q) == s0[q].source;
    }
  }

  lemma SurvivorLinks(s0: Store, clock: nat, s: Store, p: Path, q: Path)
    requires Consistent(s0, clock) && RemovedFrom(s0, s, p) && q in s && q in s0
    ensures ParentStays(s, q) && (SourceOf(s0, q).Some? ==> SourceOf(s0, q).value in s)
  {
    assert Fits(s0, clock, q);
    if q != [] {
      assert Under(s0, q, Parent(q));
      SurvivorsKeep(s0, clock, s, p, q, Parent(q));
    }
    if SourceOf(s0, q).Some? {
      assert Under(s0, q, SourceOf(s0, q).value);
      SurvivorsKeep(s0, clock, s, p, q, SourceOf(s0, q).value);
    }
  }

  lemma SurvivorIsAlike(s0: Store, s: Store, p: Path, q: Path)
    requires RemovedFrom(s0, s, p) && q in s
    ensures q in s0 && Alike(s0[q], s[q]) && (s[q].state.Removed? ==> s[q] == s0[q] && q != p && !Under(s0, q, p))
  {
  }

  lemma SurvivorsKeep(s0: Store, clock: nat, s: Store, p: Path, q: Path, above: Path)
    requires Consistent(s0, clock) && RemovedFrom(s0, s, p) && q in s && above in s0 && Under(s0, q, above)
    ensures above in s
  {
    if above == p || Under(s0, above, p) {
      if above != p {
        UnderTrans(s0, q, above, p);
      }
      assert RemovedAt(s0, s, q) && RemovedAt(s0, s, above);
      if Goner(s0, above) {
        GonersBelow(s0, clock, above, q);
      }
    }
  }
}
