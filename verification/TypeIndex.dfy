/** Registration of item types, and the index of the types that extend a type. */
module TypeIndexes {
  import opened Items
  import opened TopSort

  /** A field is a property of some property type, or an element such as a child or a collection. */
  datatype Field = Property(propertyType: string) | Element(kind: string, itemType: string)

  type Structure = map<string, Field>

  /** An item type declares fields of its own; its structure also has those of the types it extends. */
  datatype ItemType = ItemType(id: string, extended: Option<string>, own: Structure, structure: Structure)

  type Types = map<string, ItemType>

  /** Base types are registered first: they have smaller ranks. */
  ghost predicate Ranked(types: Types, rank: map<string, nat>) {
    && rank.Keys == types.Keys
    && forall t :: t in types ==>
         types[t].id == t && (types[t].extended.Some? ==>
           Extends(types, t, types[t].extended.value) && rank[types[t].extended.value] < rank[t])
  }

  /** `t` directly extends the registered type `base`. */
  predicate Extends(types: Types, t: string, base: string) {
    t in types && base in types && types[t].extended == Some(base)
  }

  /** The upward walk. */
  ghost function Supertypes(types: Types, rank: map<string, nat>, t: string): seq<string>
    requires Ranked(types, rank) && t in types
    decreases rank[t]
  {
    if types[t].extended.None? then [] else [types[t].extended.value] + Supertypes(types, rank, types[t].extended.value)
  }

  ghost predicate IsSupertype(types: Types, rank: map<string, nat>, base: string, t: string)
    requires Ranked(types, rank)
  {
    t in types && base in Supertypes(types, rank, t)
  }

  lemma {:induction false} SupertypesRankLower(types: Types, rank: map<string, nat>, base: string, t: string)
    requires Ranked(types, rank) && IsSupertype(types, rank, base, t)
    ensures base in types && rank[base] < rank[t]
    decreases rank[t]
  {
    var direct := types[t].extended.value;
    if base != direct {
      SupertypesRankLower(types, rank, base, direct);
    }
  }

  /** No type extends itself, directly or not. */
  lemma ExtendsIsAcyclic(types: Types, rank: map<string, nat>, t: string)
    requires Ranked(types, rank)
    ensures !IsSupertype(types, rank, t, t)
  {
    if IsSupertype(types, rank, t, t) {
      SupertypesRankLower(types, rank, t, t);
    }
  }

  /** The way up from `t` to `base` ends with a type that extends `base` directly. */
  lemma {:induction false} LastStepUp(types: Types, rank: map<string, nat>, base: string, t: string) returns (c: string)
    requires Ranked(types, rank) && IsSupertype(types, rank, base, t)
    ensures Extends(types, c, base) && (c == t || IsSupertype(types, rank, c, t))
    decreases rank[t]
  {
    var direct := types[t].extended.value;
    if base == direct {
      c := t;
    } else {
      c := LastStepUp(types, rank, base, direct);
    }
  }

  lemma {:induction false} OneStepUp(types: Types, rank: map<string, nat>, base: string, c: string, t: string)
    requires Ranked(types, rank) && Extends(types, c, base) && (c == t || IsSupertype(types, rank, c, t))
    ensures IsSupertype(types, rank, base, t)
    decreases if t in rank then rank[t] else 0
  {
    if c != t {
      var direct := types[t].extended.value;
      OneStepUp(types, rank, base, c, direct);
    }
  }

  // ---------- structures ----------

  /** `get_properties` */
  function PropertyNames(fields: Structure): set<string> {
    set f | f in fields && fields[f].Property?
  }

  /** `_check_supertypes_dont_override_properties`, for one supertype. */
  predicate Clash(own: Structure, structure: Structure) {
    !(PropertyNames(own) !! PropertyNames(structure))
  }

  /** A type takes over the structure of the type it extends, which wins over its own fields; properties do not meet. */
  ghost predicate StructuredAt(types: Types, t: string)
    requires t in types
  {
    var it := types[t];
    if it.extended.Some? && it.extended.value in types
    then !Clash(it.own, types[it.extended.value].structure) &&
      it.structure == it.own + types[it.extended.value].structure
    else it.structure == it.own
  }

  ghost predicate Structured(types: Types) {
    forall t :: t in types ==> StructuredAt(types, t)
  }

  /** Type `d`, which is `t` or a supertype of `t`, declares the field. */
  ghost predicate Declares(types: Types, rank: map<string, nat>, t: string, field: string, d: string)
    requires Ranked(types, rank)
  {
    d in types && field in types[d].own && (d == t || IsSupertype(types, rank, d, t))
  }

  /** No supertype of `d` declares the field too. */
  ghost predicate DeclaresFirst(types: Types, rank: map<string, nat>, t: string, field: string, d: string)
    requires Ranked(types, rank)
  {
    Declares(types, rank, t, field, d) && forall e :: Declares(types, rank, d, field, e) ==> e == d
  }

  /** The declarations of a type are its own and those of the type it extends. */
  lemma DeclaredAbove(types: Types, rank: map<string, nat>, t: string, field: string, d: string)
    requires Ranked(types, rank) && t in types && types[t].extended.Some?
    ensures Declares(types, rank, t, field, d) <==>
            (d == t && field in types[t].own) || Declares(types, rank, types[t].extended.value, field, d)
  {
    ExtendsIsAcyclic(types, rank, t);
  }

  /** A structure has the fields that the type or a supertype declares, each as the farthest supertype declares it. */
  lemma {:induction false} FarthestWins(types: Types, rank: map<string, nat>, t: string, field: string)
    requires Ranked(types, rank) && Structured(types) && t in types
    ensures field in types[t].structure <==> exists d :: DeclaresFirst(types, rank, t, field, d)
    ensures forall d :: DeclaresFirst(types, rank, t, field, d) ==> types[t].structure[field] == types[d].own[field]
    decreases rank[t]
  {
    assert StructuredAt(types, t);
    if types[t].extended.Some? {
      var base := types[t].extended.value;
      FarthestWins(types, rank, base, field);
      forall d
        ensures DeclaresFirst(types, rank, t, field, d) <==>
                DeclaresFirst(types, rank, base, field, d) ||
                  (d == t && field in types[t].own && field !in types[base].structure)
      {
        DeclaresFirstAbove(types, rank, t, base, field, d);
      }
    } else if field in types[t].own {
      assert DeclaresFirst(types, rank, t, field, t);
    }
    if field in types[t].own {
      assert Declares(types, rank, t, field, t);
    }
  }

  lemma DeclaresFirstAbove(types: Types, rank: map<string, nat>, t: string, base: string, field: string, d: string)
    requires Ranked(types, rank) && t in types && types[t].extended == Some(base)
    requires field in types[base].structure <==> exists e :: DeclaresFirst(types, rank, base, field, e)
    ensures DeclaresFirst(types, rank, t, field, d) <==>
            DeclaresFirst(types, rank, base, field, d) ||
              (d == t && field in types[t].own && field !in types[base].structure)
  {
    DeclaredAbove(types, rank, t, field, d);
    forall e
      ensures Declares(types, rank, t, field, e) <==>
        (e == t && field in types[t].own) || Declares(types, rank, base, field, e)
    {
      DeclaredAbove(types, rank, t, field, e);
    }
    ExtendsIsAcyclic(types, rank, t);
    if e :| Declares(types, rank, base, field, e) {
      var f := SomeDeclaresFirst(types, rank, base, field, e);
    }
  }

  /** Going up from a type that declares a field, there is a last one that does. */
  lemma {:induction false} SomeDeclaresFirst(types: Types, rank: map<string, nat>, t: string, field: string, d: string)
    returns (f: string)
    requires Ranked(types, rank) && Declares(types, rank, t, field, d)
    ensures DeclaresFirst(types, rank, t, field, f)
    decreases rank[d]
  {
    if DeclaresFirst(types, rank, t, field, d) {
      f := d;
    } else {
      var e :| Declares(types, rank, d, field, e) && e != d;
      SupertypesRankLower(types, rank, e, d);
      DeclaresTrans(types, rank, t, d, e, field);
      f := SomeDeclaresFirst(types, rank, t, field, e);
    }
  }

  lemma DeclaresTrans(types: Types, rank: map<string, nat>, t: string, d: string, e: string, field: string)
    requires Ranked(types, rank) && Declares(types, rank, t, field, d) && Declares(types, rank, d, field, e)
    ensures Declares(types, rank, t, field, e)
  {
    if e != d && d != t {
      SupertypeTrans(types, rank, e, d, t);
    }
  }

  lemma {:induction false} SupertypeTrans(types: Types, rank: map<string, nat>, a: string, b: string, t: string)
    requires Ranked(types, rank) && IsSupertype(types, rank, a, b) && IsSupertype(types, rank, b, t)
    ensures IsSupertype(types, rank, a, t)
    decreases rank[t]
  {
    var direct := types[t].extended.value;
    if b != direct {
      SupertypeTrans(types, rank, a, b, direct);
    }
  }

  /** A name that stands for a property in every type that declares it is declared only once. */
  lemma {:induction false} OneDeclaration(types: Types, rank: map<string, nat>, t: string, field: string)
    requires Ranked(types, rank) && Structured(types) && t in types
    requires forall d :: Declares(types, rank, t, field, d) ==> types[d].own[field].Property?
    ensures forall d, e :: Declares(types, rank, t, field, d) && Declares(types, rank, t, field, e) ==> d == e
    decreases rank[t]
  {
    assert StructuredAt(types, t);
    if types[t].extended.Some? {
      var base := types[t].extended.value;
      forall d
        ensures Declares(types, rank, t, field, d) <==>
          (d == t && field in types[t].own) || Declares(types, rank, base, field, d)
      {
        DeclaredAbove(types, rank, t, field, d);
      }
      OneDeclaration(types, rank, base, field);
      assert field in types[t].own ==> Declares(types, rank, t, field, t) && field in PropertyNames(types[t].own);
      if d :| Declares(types, rank, base, field, d) {
        var f := SomeDeclaresFirst(types, rank, base, field, d);
        FarthestWins(types, rank, base, field);
        assert field in PropertyNames(types[base].structure);
      }
    }
  }

  /** `a` is a part of `b`. */
  predicate PartOfStructure(a: Structure, b: Structure) {
    forall f :: f in a ==> f in b && b[f] == a[f]
  }

  /** The structure of a type takes over that of all its supertypes. */
  lemma {:induction false} StructuresGrow(types: Types, rank: map<string, nat>, base: string, t: string)
    requires Ranked(types, rank) && Structured(types) && IsSupertype(types, rank, base, t)
    ensures base in types && PartOfStructure(types[base].structure, types[t].structure)
    decreases rank[t]
  {
    SupertypesRankLower(types, rank, base, t);
    assert StructuredAt(types, t);
    var direct := types[t].extended.value;
    if base != direct {
      StructuresGrow(types, rank, base, direct);
    }
  }

  /** What `_add_inherited_structure` makes of a type. */
  function WithStructure(types: Types, it: ItemType): ItemType {
    it.(structure := if it.extended.Some? &&
      it.extended.value in types then it.own + types[it.extended.value].structure else it.own)
  }

  /** The supertypes of a type that is about to be registered. */
  ghost predicate SupertypesOf(types: Types, rank: map<string, nat>, it: ItemType, supertypes: seq<string>)
    requires Ranked(types, rank)
  {
    (it.extended.Some? ==> it.extended.value in types) &&
    supertypes == if it.extended.None? then [] else [it.extended.value] + Supertypes(types, rank, it.extended.value)
  }

  lemma SupertypeOfNew(types: Types, rank: map<string, nat>, it: ItemType, supertypes: seq<string>, s: string)
    requires Ranked(types, rank) && Structured(types) && SupertypesOf(types, rank, it, supertypes) && s in supertypes
    ensures s in types && it.extended.Some? && PartOfStructure(types[s].structure, types[it.extended.value].structure)
  {
    if s != it.extended.value {
      StructuresGrow(types, rank, s, it.extended.value);
    }
  }

  /** A clash with any supertype is a clash with the structure of the direct one. */
  lemma SupertypeClashes(types: Types, rank: map<string, nat>, it: ItemType, supertypes: seq<string>, s: string)
    requires Ranked(types, rank) && Structured(types) && SupertypesOf(types, rank, it, supertypes) && s in supertypes
    ensures s in types && it.extended.Some?
    ensures Clash(it.own, types[s].structure) ==> Clash(it.own, types[it.extended.value].structure)
  {
    SupertypeOfNew(types, rank, it, supertypes, s);
  }

  /** A new type on top of the registered ones. */
  lemma AddType(types: Types, rank: map<string, nat>, it: ItemType, next: nat)
    requires Ranked(types, rank) && Structured(types) && (forall t :: t in rank ==> rank[t] < next)
    requires it.id !in types && (it.extended.Some? ==>
      it.extended.value in types && !Clash(it.own, types[it.extended.value].structure))
    ensures Ranked(types[it.id := WithStructure(types, it)], rank[it.id := next])
    ensures Structured(types[it.id := WithStructure(types, it)])
  {
    var types1 := types[it.id := WithStructure(types, it)];
    forall t | t in types1
      ensures StructuredAt(types1, t)
    {
      assert t != it.id ==> StructuredAt(types, t);
    }
  }

  // ---------- the registry and the index ----------

  datatype Registration = Registered | AlreadyRegistered | MissingPropertyType | MissingBase | PropertyClash

  ghost predicate Direct(types: Types, extendedBy: map<string, set<string>>) {
    forall base, t :: (base in extendedBy && t in extendedBy[base]) <==> t in types && types[t].extended == Some(base)
  }

  ghost predicate Indexed(types: Types, rank: map<string, nat>, base: string, list: seq<string>)
    requires Ranked(types, rank)
  {
    forall t :: t in list <==> IsSupertype(types, rank, base, t)
  }

  class TypeRegistry {
    const propertyTypes: set<string>
    var types: Types
    ghost var rank: map<string, nat>
    ghost var next: nat
    var extendedBy: Option<map<string, set<string>>>
    var extending: map<string, seq<string>>

    ghost predicate Valid()
      reads this
    {
      && Ranked(types, rank) && Structured(types) && (forall t :: t in rank ==> rank[t] < next)
      && (extendedBy.Some? ==> Direct(types, extendedBy.value))
      && (forall base :: base in extending ==> Indexed(types, rank, base, extending[base]))
    }

    constructor (propertyTypes: set<string>)
      ensures Valid() && types == map[] && this.propertyTypes == propertyTypes && fresh(this)
    {
      this.propertyTypes := propertyTypes;
      types, rank, next, extendedBy, extending := map[], map[], 0, None, map[];
    }

    /** `_all_supertypes`; none where the source raises a KeyError. */
    method AllSupertypes(it: ItemType) returns (list: Option<seq<string>>)
      requires Valid()
      ensures list.None? <==> it.extended.Some? && it.extended.value !in types
      ensures list.Some? ==> SupertypesOf(types, rank, it, list.value)
    {
      var found, current := [], it.extended;
      if current.Some? && current.value !in types {
        return None;
      }
      ghost var all := if it.extended.None? then [] else [it.extended.value] + Supertypes(types, rank,
        it.extended.value);
      while current.Some?
        invariant current.Some? ==> current.value in types
        invariant all == found + if current.None? then [] else [current.value] + Supertypes(types, rank, current.value)
        decreases if current.Some? then 1 + rank[current.value] else 0
      {
        found, current := found + [current.value], types[current.value].extended;
      }
      return Some(found);
    }

    /** All property types that the type's own properties use are registered. */
    predicate PropertyTypesExist(it: ItemType) {
      forall f :: f in it.own && it.own[f].Property? ==> it.own[f].propertyType in propertyTypes
    }

    /** `_check_supertypes_dont_override_properties` */
    method OverridesProperties(it: ItemType, supertypes: seq<string>) returns (clash: bool)
      requires Valid() && SupertypesOf(types, rank, it, supertypes)
      ensures clash <==> it.extended.Some? && Clash(it.own, types[it.extended.value].structure)
    {
      for i := 0 to |supertypes|
        invariant i > 0 ==> !Clash(it.own, types[supertypes[0]].structure)
      {
        assert supertypes[i] in supertypes;
        SupertypeClashes(types, rank, it, supertypes, supertypes[i]);
        if Clash(it.own, types[supertypes[i]].structure) {
          return true;
        }
      }
      return false;
    }

    /** `_add_inherited_structure`: the structures of the supertypes are put on top, the farthest last. */
    method AddInheritedStructure(it: ItemType, supertypes: seq<string>) returns (structure: Structure)
      requires Valid() && SupertypesOf(types, rank, it, supertypes)
      ensures structure == WithStructure(types, it).structure
    {
      structure := it.own;
      for i := 0 to |supertypes|
        invariant structure == if i == 0 then it.own else it.own + types[supertypes[0]].structure
      {
        assert supertypes[i] in supertypes;
        SupertypeOfNew(types, rank, it, supertypes, supertypes[i]);
        structure := structure + types[supertypes[i]].structure;
      }
    }

    /** `register_item_type`; a type that is refused changes nothing. */
    method RegisterItemType(it: ItemType) returns (result: Registration)
      requires Valid()
      modifies this
      ensures Valid()
      ensures result == Verdict(old(types), it)
      ensures result.Registered? <==>
        && it.id !in old(types) && !UsesUnknownType(it)
        && (it.extended.Some? ==>
              it.extended.value in old(types) && !ShareProperty(it.own, old(types)[it.extended.value].structure))
      ensures types == if result.Registered? then old(types)[it.id := WithStructure(old(types), it)] else old(types)
    {
      VerdictIs(types, it);
      if it.id in types {
        return AlreadyRegistered;
      }
      if !PropertyTypesExist(it) {
        return MissingPropertyType;
      }
      var supertypes := AllSupertypes(it);
      if supertypes.None? {
        return MissingBase;
      }
      var clash := OverridesProperties(it, supertypes.value);
      if clash {
        return PropertyClash;
      }
      AddItemType(it, supertypes.value);
      return Registered;
    }

    /** The end of `register_item_type`: the type is added, and the index is reset. */
    method AddItemType(it: ItemType, supertypes: seq<string>)
      requires Valid() && SupertypesOf(types, rank, it, supertypes) && it.id !in types
      requires it.extended.Some? ==> !Clash(it.own, types[it.extended.value].structure)
      modifies this
      ensures Valid() && types == old(types)[it.id := WithStructure(old(types), it)]
    {
      var structure := AddInheritedStructure(it, supertypes);
      AddType(types, rank, it, next);
      types := types[it.id := it.(structure := structure)];
      rank, next := rank[it.id := next], next + 1;
      extendedBy, extending := None, map[];
    }

    /** What registration says about a type: only properties of the direct supertype's structure are in its way. */
    function Verdict(types: Types, it: ItemType): Registration {
      if it.id in types then AlreadyRegistered
      else if !PropertyTypesExist(it) then MissingPropertyType
      else if it.extended.Some? && it.extended.value !in types then MissingBase
      else if it.extended.Some? && Clash(it.own, types[it.extended.value].structure) then PropertyClash
      else Registered
    }

    /** The two types declare a property of the same name. */
    ghost predicate ShareProperty(own: Structure, structure: Structure) {
      exists f :: f in own && f in structure && own[f].Property? && structure[f].Property?
    }

    ghost predicate UsesUnknownType(it: ItemType) {
      exists f :: f in it.own && it.own[f].Property? && it.own[f].propertyType !in propertyTypes
    }

    /** Each refusal and what it is for: fields that are no properties are never in the way. */
    lemma VerdictIs(types: Types, it: ItemType)
      ensures var verdict := Verdict(types, it);
        var missing := it.extended.Some? && it.extended.value !in types;
        var clash := it.extended.Some? && !missing && ShareProperty(it.own, types[it.extended.value].structure);
        && (verdict.AlreadyRegistered? <==> it.id in types)
        && (verdict.MissingPropertyType? <==> it.id !in types && UsesUnknownType(it))
        && (verdict.MissingBase? <==> it.id !in types && !UsesUnknownType(it) && missing)
        && (verdict.PropertyClash? <==> it.id !in types && !UsesUnknownType(it) && clash)
    {
      assert PropertyTypesExist(it) <==> !UsesUnknownType(it);
      if it.extended.Some? && it.extended.value in types {
        ClashIs(it.own, types[it.extended.value].structure);
      }
    }

    lemma ClashIs(own: Structure, structure: Structure)
      ensures Clash(own, structure) <==> ShareProperty(own, structure)
    {
      if f :| f in PropertyNames(own) && f in PropertyNames(structure) {
        assert f in own && f in structure && own[f].Property? && structure[f].Property?;
      }
      if f :| f in own && f in structure && own[f].Property? && structure[f].Property? {
        assert f in PropertyNames(own) * PropertyNames(structure);
      }
    }

    /** `_populate_direct_item_type_extensions` */
    method PopulateDirectExtensions()
      requires Valid()
      modifies this`extendedBy
      ensures Valid() && extendedBy.Some?
    {
      var index: map<string, set<string>> := map[];
      var left := types.Keys;
      while left != {}
        invariant left <= types.Keys
        invariant forall base, t :: (base in index && t in index[base]) <==>
          t in types && t !in left && types[t].extended == Some(base)
      {
        var t :| t in left;
        left := left - {t};
        if types[t].extended.Some? {
          var base := types[t].extended.value;
          index := index[base := (if base in index then index[base] else {}) + {t}];
        }
      }
      extendedBy := Some(index);
    }

    /** `get_extending_types`: whatever the cache holds, the types that have `base` among their supertypes. */
    method GetExtendingTypes(base: string) returns (list: seq<string>)
      requires Valid() && base in types
      modifies this`extendedBy, this`extending
      ensures Valid() && Indexed(types, rank, base, list)
      decreases next - rank[base]
    {
      if extendedBy.None? {
        PopulateDirectExtensions();
      }
      if base in extending && extending[base] != [] {
        return extending[base];
      }
      list := [];
      var left := if base in extendedBy.value then extendedBy.value[base] else {};
      ghost var done: set<string> := {};
      while left != {}
        invariant Valid() && left !! done
        invariant forall t :: t in left || t in done <==> Extends(types, t, base)
        invariant forall t :: t in list <==> FromDirect(types, rank, done, t)
      {
        var c :| c in left;
        assert Extends(types, c, base);
        var more := GetExtendingTypes(c);
        ListDirect(types, rank, done, list, c, more);
        left, done, list := left - {c}, done + {c}, list + [c] + more;
      }
      DirectIsIndexed(types, rank, base, done, list);
      extending := extending[base := list];
    }
  }

  ghost predicate FromDirect(types: Types, rank: map<string, nat>, done: set<string>, t: string)
    requires Ranked(types, rank)
  {
    exists c :: c in done && (t == c || IsSupertype(types, rank, c, t))
  }

  lemma ListDirect(types: Types, rank: map<string, nat>, done: set<string>, list: seq<string>, c: string,
                   more: seq<string>)
    requires Ranked(types, rank) && (forall t :: t in list <==> FromDirect(types, rank, done, t)) &&
      Indexed(types, rank, c, more)
    ensures forall t :: t in list + [c] + more <==> FromDirect(types, rank, done + {c}, t)
  {
  }

  lemma DirectIsIndexed(types: Types, rank: map<string, nat>, base: string, direct: set<string>, list: seq<string>)
    requires Ranked(types, rank) && base in types && forall t :: t in direct <==> Extends(types, t, base)
    requires forall t :: t in list <==> FromDirect(types, rank, direct, t)
    ensures Indexed(types, rank, base, list)
  {
    forall t
      ensures t in list <==> IsSupertype(types, rank, base, t)
    {
      assert t in list <==> FromDirect(types, rank, direct, t);
      if IsSupertype(types, rank, base, t) {
        var c := LastStepUp(types, rank, base, t);
        assert c in direct;
      }
      if FromDirect(types, rank, direct, t) {
        var c :| c in direct && (t == c || IsSupertype(types, rank, c, t));
        OneStepUp(types, rank, base, c, t);
      }
    }
  }

  // ---------- registration in sorted order ----------

  /** The dependencies that `get_sorted_item_types` sorts. */
  function TypeDeps(byId: Types): Deps<string> {
    map t | t in byId :: if byId[t].extended.Some? then {byId[t].extended.value} else {}
  }

  /** Every type of a list comes after the type it extends, unless it extends itself. */
  ghost predicate BasesFirst(byId: Types, list: seq<string>) {
    forall i :: 0 <= i < |list| ==> list[i] in byId && BaseBefore(byId, list, i)
  }

  predicate BaseBefore(byId: Types, list: seq<string>, i: nat)
    requires i < |list| && list[i] in byId
  {
    var base := byId[list[i]].extended;
    base.Some? && base.value in byId && base.value != list[i] ==> base.value in list[..i]
  }

  ghost predicate AllDifferent(list: seq<string>) {
    forall i, j :: 0 <= i < j < |list| ==> list[i] != list[j]
  }

  /** The sorted types of the layers so far. */
  ghost predicate Flattened(byId: Types, layers: seq<seq<string>>, k: nat, list: seq<string>) {
    && AllDifferent(list) && BasesFirst(byId, list)
    && forall t :: t in list <==> t in byId && Below(layers, k, t)
  }

  /** One more layer: its types come last. */
  lemma NextLayer(byId: Types, layers: seq<seq<string>>, k: nat, list: seq<string>, more: seq<string>)
    requires Layered(Completed(TypeDeps(byId)), layers) && k < |layers| && Flattened(byId, layers, k, list)
    requires AllDifferent(more) && forall t :: t in more <==> t in byId && t in layers[k]
    ensures Flattened(byId, layers, k + 1, list + more)
  {
    var full, all := Completed(TypeDeps(byId)), list + more;
    forall t
      ensures Below(layers, k + 1, t) <==> Below(layers, k, t) || t in layers[k]
    {
      assert t in layers[k] ==> In(layers, k, t);
    }
    forall i, j | 0 <= i < j < |all|
      ensures all[i] != all[j]
    {
      if i < |list| <= j {
        assert all[i] in list && all[j] in more;
        assert In(layers, k, all[j]);
      }
    }
    forall i | 0 <= i < |all|
      ensures all[i] in byId && BaseBefore(byId, all, i)
    {
      if i < |list| {
        assert all[i] == list[i] && all[..i] == list[..i];
        assert BaseBefore(byId, list, i);
      } else {
        LayerBases(byId, layers, k, all[i]);
        assert all[..i] == list + more[..i - |list|];
      }
    }
  }

  lemma LayerBases(byId: Types, layers: seq<seq<string>>, k: nat, t: string)
    requires Layered(Completed(TypeDeps(byId)), layers) && k < |layers| && t in byId && t in layers[k]
    ensures byId[t].extended.Some? && byId[t].extended.value != t ==> Below(layers, k, byId[t].extended.value)
  {
    var full := Completed(TypeDeps(byId));
    assert In(layers, k, t);
    if byId[t].extended.Some? && byId[t].extended.value != t {
      assert byId[t].extended.value in full[t];
    }
  }

  /** `get_sorted_item_types`; none where the sort reports a cycle. */
  method GetSortedItemTypes(byId: Types) returns (sorted: Option<seq<string>>)
    ensures sorted.None? <==> Cyclic(Completed(TypeDeps(byId)))
    ensures sorted.Some? ==> AllDifferent(sorted.value) && BasesFirst(byId, sorted.value)
    ensures sorted.Some? ==> forall t :: t in sorted.value <==> t in byId
  {
    var full, layers, leftover := Sort(TypeDeps(byId));
    if leftover != map[] {
      return None;
    }
    var list := [];
    for k := 0 to |layers|
      invariant Flattened(byId, layers, k, list)
    {
      var more := [];
      for i := 0 to |layers[k]|
        invariant AllDifferent(more) && forall t :: t in more <==> t in byId && t in layers[k][..i]
      {
        if layers[k][i] in byId {
          more := more + [layers[k][i]];
        }
      }
      assert layers[k][..|layers[k]|] == layers[k];
      NextLayer(byId, layers, k, list, more);
      list := list + more;
    }
    forall t | t in byId
      ensures t in list
    {
      assert Sorted(layers, t);
    }
    return Some(list);
  }

  lemma OneFurther(list: seq<string>, i: nat)
    requires i < |list| && AllDifferent(list)
    ensures list[i] !in list[..i] && forall t :: t in list[..i + 1] <==> t in list[..i] || t == list[i]
  {
  }

  /** The types before it in the list are registered: then the next one lacks a base only if the base is not supplied.
     */
  lemma SortedVerdict(registry: TypeRegistry, byId: Types, sorted: seq<string>, i: nat)
    requires i < |sorted| && BasesFirst(byId, sorted) && AllDifferent(sorted)
    requires (forall t :: t in registry.types <==> t in sorted[..i]) && forall t :: t in sorted[..i] ==> t in byId
    requires forall t :: t in byId ==> byId[t].id == t
    ensures sorted[i] in byId && byId[sorted[i]].id == sorted[i]
    ensures var verdict := registry.Verdict(registry.types, byId[sorted[i]]);
      !verdict.AlreadyRegistered? && (verdict.MissingBase? ==> !BaseSupplied(byId, sorted[i])) &&
      (verdict.Registered? ==> BaseSupplied(byId, sorted[i]))
  {
    OneFurther(sorted, i);
    assert sorted[i] in byId && BaseBefore(byId, sorted, i);
  }

  /**
   * Registering the sorted types in a registry that has none of them: a base type is missing only if some type
   * extends itself or a type that is not supplied; and then not all of them are registered.
   */
  method RegisterSorted(registry: TypeRegistry, byId: Types, sorted: seq<string>) returns (result: Registration)
    requires registry.Valid() && registry.types == map[]
    requires AllDifferent(sorted) && BasesFirst(byId, sorted) && forall t :: t in sorted <==> t in byId
    requires forall t :: t in byId ==> byId[t].id == t
    modifies registry
    ensures registry.Valid() && !result.AlreadyRegistered?
    ensures result.MissingBase? ==> !BasesSupplied(byId)
    ensures result.Registered? ==> BasesSupplied(byId) && registry.types.Keys == byId.Keys
  {
    for i := 0 to |sorted|
      invariant registry.Valid() && (forall t :: t in registry.types <==> t in sorted[..i])
      invariant forall k :: 0 <= k < i ==> BaseSupplied(byId, sorted[k])
    {
      OneFurther(sorted, i);
      SortedVerdict(registry, byId, sorted, i);
      result := registry.RegisterItemType(byId[sorted[i]]);
      if !result.Registered? {
        return;
      }
    }
    assert sorted[..|sorted|] == sorted;
    return Registered;
  }

  predicate BaseSupplied(byId: Types, t: string)
    requires t in byId
  {
    byId[t].extended.Some? ==> byId[t].extended.value in byId && byId[t].extended.value != t
  }

  ghost predicate BasesSupplied(byId: Types) {
    forall t :: t in byId ==> BaseSupplied(byId, t)
  }

  /** A type that extends itself passes the sort, and its base is not there when it is registered. */
  lemma SelfExtensionIsSorted() returns (byId: Types)
    ensures !Cyclic(Completed(TypeDeps(byId))) && !BasesSupplied(byId)
    ensures byId.Keys == {"node"} && byId["node"].extended == Some("node")
  {
    byId := map["node" := ItemType("node", Some("node"), map[], map[])];
    assert TypeDeps(byId)["node"] == {"node"};
    assert Mentioned(TypeDeps(byId)) == {"node"};
    var full := Completed(TypeDeps(byId));
    assert full.Keys == {"node"} && full["node"] == {};
    assert !BaseSupplied(byId, "node");
    var layers := [["node"]];
    assert forall k, n :: In(layers, k, n) <==> k == 0 && n == "node";
    assert Layered(full, layers) && In(layers, 0, "node") && Sorted(layers, "node");
    LayersAreAcyclic(full, layers);
  }
}
