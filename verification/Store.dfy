/** The store of model items: the tree of paths, and the relation from an item to its source. */
module Stores {
  import opened Items

  type Store = map<Path, Item>

  function Parent(p: Path): Path {
    if p == [] then [] else p[..|p| - 1]
  }

  function ChildrenOf(s: Store, p: Path): set<Path> {
    set q | q in s && q != [] && Parent(q) == p
  }

  // ---------- the rules of creation ----------

  /** Sources are older; a collection inherits from a collection, and only along with its parent. */
  predicate SourceFits(s: Store, p: Path, source: Path)
    requires p in s && p != [] && Parent(p) in s
  {
    && source in s && s[source].born < s[p].born
    && s[source].collection == s[p].collection
    && (s[p].collection ==> source != [] && s[Parent(p)].source == Some(Parent(source)))
  }

  /** Item ids are not empty. */
  predicate Named(p: Path) {
    forall i :: 0 <= i < |p| ==> p[i] != ""
  }

  /** Parents are older too, and a collection is not a member of a collection. */
  predicate Fits(s: Store, clock: nat, p: Path)
    requires p in s
  {
    && Named(p) && s[p].born < clock
    && (p == [] ==> !s[p].collection && s[p].source.None?)
    && (p != [] ==> Parent(p) in s && s[Parent(p)].born < s[p].born)
    && (s[p].collection ==> !s[Parent(p)].collection)
    && (s[p].source.Some? ==> SourceFits(s, p, s[p].source.value))
  }

  /** Every item has its parent and its source in the store. */
  ghost predicate Consistent(s: Store, clock: nat) {
    forall p {:trigger Fits(s, clock, p)} :: p in s ==> Fits(s, clock, p)
  }

  /** A weaker rule, which also holds while items are being deleted: existing sources are older. */
  ghost predicate Dated(s: Store, clock: nat) {
    forall p :: p in s ==>
      s[p].born < clock && (s[p].source.Some? && s[p].source.value in s ==> s[s[p].source.value].born < s[p].born)
  }

  lemma ConsistentIsDated(s: Store, clock: nat)
    requires Consistent(s, clock)
    ensures Dated(s, clock)
  {
    forall p | p in s
      ensures s[p].born < clock && (s[p].source.Some? && s[p].source.value in s ==>
        s[s[p].source.value].born < s[p].born)
    {
      assert Fits(s, clock, p);
    }
  }

  // ---------- inheritance ----------

  /** `get_source`: the item that `p` inherits from. */
  function SourceOf(s: Store, p: Path): (r: Option<Path>)
    ensures r.Some? ==> p in s && r.value in s && s[r.value].born < s[p].born
  {
    if p in s && s[p].source.Some? && s[p].source.value in s && s[s[p].source.value].born < s[p].born
    then s[p].source else None
  }

  /** The source's own properties. */
  function Own(s: Store, p: Path): Option<Props> {
    var source := SourceOf(s, p);
    if source.Some? then Some(s[source.value].properties) else None
  }

  /** `get_merged_properties`: an item's own properties go before those of its source. */
  function Merged(s: Store, p: Path): Props
    requires p in s
    decreases s[p].born
  {
    Inherited(s, p) + s[p].properties
  }

  /** What an item has from its source. */
  function Inherited(s: Store, p: Path): Props
    requires p in s
    decreases s[p].born, 0
  {
    var source := SourceOf(s, p);
    if source.Some? then Merged(s, source.value) else map[]
  }

  /** `q` inherits from `p`, directly or not. */
  predicate Inherits(s: Store, q: Path, p: Path)
    decreases if q in s then s[q].born else 0
  {
    var source := SourceOf(s, q);
    source.Some? && (source.value == p || Inherits(s, source.value, p))
  }

  /** `q` is the nearest item from `p` up the chain of sources that has a property of the name. */
  ghost predicate Nearest(s: Store, p: Path, q: Path, name: string) {
    && (q == p || Inherits(s, p, q)) && q in s && name in s[q].properties
    && (q != p ==> p in s && name !in s[p].properties)
    && forall r :: Inherits(s, p, r) && Inherits(s, r, q) ==> r in s && name !in s[r].properties
  }

  /** The merged properties have exactly the names found up the chain of sources, each with the nearest value. */
  lemma {:induction false} NearestWins(s: Store, p: Path, name: string)
    requires p in s
    ensures name in Merged(s, p) <==> exists q :: Nearest(s, p, q, name)
    ensures forall q :: Nearest(s, p, q, name) ==> name in Merged(s, p) && Merged(s, p)[name] == s[q].properties[name]
    decreases s[p].born
  {
    var source := SourceOf(s, p);
    if name in s[p].properties {
      forall r
        ensures !(Inherits(s, p, r) && Inherits(s, r, p))
      {
        NoCycle(s, p, r);
      }
      assert Nearest(s, p, p, name);
    } else if source.Some? {
      NearestWins(s, source.value, name);
      forall q
        ensures Nearest(s, p, q, name) <==> Nearest(s, source.value, q, name)
      {
        NearestAbove(s, p, q, name);
      }
    }
  }

  lemma NoCycle(s: Store, p: Path, r: Path)
    ensures !(Inherits(s, p, r) && Inherits(s, r, p))
  {
    if Inherits(s, p, r) && Inherits(s, r, p) {
      InheritorsAreYounger(s, p, r);
      InheritorsAreYounger(s, r, p);
    }
  }

  lemma NearestAbove(s: Store, p: Path, q: Path, name: string)
    requires p in s && name !in s[p].properties && SourceOf(s, p).Some?
    ensures Nearest(s, p, q, name) <==> Nearest(s, SourceOf(s, p).value, q, name)
  {
    var source := SourceOf(s, p).value;
    forall r
      ensures Inherits(s, p, r) <==> r == source || Inherits(s, source, r)
    {
    }
    NoCycle(s, source, source);
    if Nearest(s, p, q, name) {
      assert q == source || Inherits(s, source, q);
      assert q != source ==> Inherits(s, p, source) && Inherits(s, source, q);
    }
  }

  function InheritorsOf(s: Store, p: Path): set<Path> {
    set q | q in s && Inherits(s, q, p)
  }

  lemma {:induction false} InheritorsAreYounger(s: Store, q: Path, p: Path)
    requires Inherits(s, q, p)
    ensures q in s && p in s && s[p].born < s[q].born
    decreases if q in s then s[q].born else 0
  {
    var source := SourceOf(s, q).value;
    if source != p {
      InheritorsAreYounger(s, source, p);
    }
  }

  lemma {:induction false} InheritsTrans(s: Store, r: Path, q: Path, p: Path)
    requires Inherits(s, r, q) && Inherits(s, q, p)
    ensures Inherits(s, r, p)
    decreases if r in s then s[r].born else 0
  {
    var source := SourceOf(s, r).value;
    if source != q {
      InheritsTrans(s, source, q, p);
    }
  }

  /** The way down from `p` to an inheritor begins with a direct inheritor. */
  lemma {:induction false} InheritsFrom(s: Store, r: Path, p: Path) returns (q: Path)
    requires Inherits(s, r, p)
    ensures SourceOf(s, q) == Some(p) && (r == q || Inherits(s, r, q))
    decreases if r in s then s[r].born else 0
  {
    var source := SourceOf(s, r).value;
    if source == p {
      q := r;
    } else {
      q := InheritsFrom(s, source, p);
    }
  }

  // ---------- stores that differ in states only ----------

  /** The two items may differ in state, previous state, applied properties and determinability. */
  predicate Alike(a: Item, b: Item) {
    && a.collection == b.collection && a.schema == b.schema && a.source == b.source
    && a.properties == b.properties && a.born == b.born
  }

  /** `s` is a part of `s0` that is closed under sources, with nothing but states changed. */
  ghost predicate PartOf(s0: Store, s: Store) {
    && (forall p :: p in s ==> p in s0 && Alike(s0[p], s[p]))
    && (forall p :: p in s && SourceOf(s0, p).Some? ==> SourceOf(s0, p).value in s)
  }

  lemma PartSources(s0: Store, s: Store, p: Path)
    requires PartOf(s0, s) && p in s
    ensures SourceOf(s, p) == SourceOf(s0, p) && Own(s, p) == Own(s0, p)
  {
  }

  lemma {:induction false} PartMerged(s0: Store, s: Store, p: Path)
    requires PartOf(s0, s) && p in s
    ensures Merged(s, p) == Merged(s0, p)
    decreases s[p].born
  {
    PartSources(s0, s, p);
    if SourceOf(s, p).Some? {
      PartMerged(s0, s, SourceOf(s, p).value);
    }
  }

  lemma {:induction false} PartInherits(s0: Store, s: Store, q: Path, p: Path)
    requires PartOf(s0, s) && q in s
    ensures Inherits(s, q, p) <==> Inherits(s0, q, p)
    decreases s[q].born
  {
    PartSources(s0, s, q);
    if SourceOf(s, q).Some? {
      PartInherits(s0, s, SourceOf(s, q).value, p);
    }
  }
}
