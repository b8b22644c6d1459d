/** Model items: their states, properties and applied properties (`ModelItem`). */
module Items {

  datatype Option<+T> = None | Some(value: T)

  datatype ItemState = Initial | Applied | Updated | ForRemoval | Removed

  /** A path in the model tree, from the root down. */
  type Path = seq<string>

  type Props = map<string, string>

  /** New values by name; `None` deletes a property. */
  type Changes = map<string, Option<string>>

  /** What an item type says about a property. */
  datatype PropDef = PropDef(configuration: bool, required: bool, default: Option<string>)

  /**
   * A model item as a value. `collection` covers both kinds of collections; `born` is its place in the
   * order of creation.
   */
  datatype Item = Item(collection: bool, schema: map<string, PropDef>, source: Option<Path>, properties: Props,
                       applied: Props,
                       state: ItemState, previous: Option<ItemState>, determinable: bool, born: nat)

  // ---------- states ----------

  /** `_set_state`; a transition to Applied takes the merged properties as the applied ones. */
  function SetState(it: Item, state: ItemState, merged: Props): Item {
    var it1 := if state.Applied? then it.(determinable := true) else it;
    if it1.state == state then it1
    else it1.(state := state,
              previous := if it1.state.ForRemoval? then it1.previous else Some(it1.state),
              applied := if state.Applied? then merged else it1.applied)
  }

  /** `set_previous_state` */
  function SetPreviousState(it: Item, merged: Props): Item {
    if !it.determinable && it.state.ForRemoval? && it.previous == Some(Applied) then SetState(it, Updated, merged)
    else SetState(it, if it.previous.Some? then it.previous.value else Initial, merged)
  }

  /** What an applied item promises: its applied properties are the merged ones. */
  predicate Snapped(it: Item, merged: Props) {
    it.state.Applied? ==> it.applied == merged
  }

  // ---------- properties ----------

  /** The value that a required property without a source falls back to. */
  function DefaultOf(it: Item, name: string): Option<string> {
    if it.source.None? && name in it.schema && it.schema[name].required && it.schema[name].default != Some("")
    then it.schema[name].default else None
  }

  /** `set_property` and `delete_property` on the properties. */
  function Changed(it: Item, name: string, value: Option<string>): Props {
    if value.Some? then it.properties[name := value.value]
    else if name !in it.properties then it.properties
    else if DefaultOf(it, name).Some? then it.properties[name := DefaultOf(it, name).value]
    else it.properties - {name}
  }

  /** The same on the applied properties; `own` are the source's own properties, if there is a source. */
  function ChangedApplied(it: Item, own: Option<Props>, name: string, value: Option<string>): Props {
    if value.Some? then (if it.state.Initial? then it.applied else it.applied[name := value.value])
    else if name !in it.applied then it.applied
    else if own.Some? && name in own.value then it.applied[name := own.value[name]]
    else if DefaultOf(it, name).Some? then it.applied[name := DefaultOf(it, name).value]
    else it.applied - {name}
  }

  /** The applied properties once a value outside the configuration has been set, unless it is there already. */
  function OneApplied(it: Item, own: Option<Props>, name: string, value: Option<string>): Props {
    if name !in it.applied || Some(it.applied[name]) != value then ChangedApplied(it, own, name, value) else it.applied
  }

  predicate IsNonConfig(it: Item, name: string) {
    name in it.schema && !it.schema[name].configuration
  }

  /** `is_property_overwritten`; `own` tells whether there is a source. */
  predicate Overwritten(it: Item, own: Option<Props>, name: string) {
    own.Some? && name in it.properties
  }

  predicate AllOverwritten(it: Item, own: Option<Props>, changes: Changes) {
    changes != map[] && forall name :: name in changes ==> Overwritten(it, own, name)
  }

  predicate HandlesNonConfig(it: Item, own: Option<Props>, name: string, overwrite: bool) {
    IsNonConfig(it, name) && (overwrite || !Overwritten(it, own, name))
  }

  /** The names that `apply_non_config_properties` handles. */
  function NonConfigNames(it: Item, own: Option<Props>, changes: Changes, overwrite: bool): set<string> {
    set name | name in changes && HandlesNonConfig(it, own, name, overwrite)
  }

  function ValueAt(props: Props, name: string): Option<string> {
    if name in props then Some(props[name]) else None
  }

  /** The applied value of one name after `apply_non_config_properties`. */
  function NonConfigValue(it: Item, own: Option<Props>, name: string, value: Option<string>): Option<string> {
    ValueAt(ChangedApplied(it, own, name, value), name)
  }

  /** The map with the given value, or none, for each of the given names. */
  function FromValues(names: set<string>, value: string -> Option<string>): (r: Props)
    ensures forall name :: ValueAt(r, name) == if name in names then value(name) else None
  {
    map name | name in names && value(name).Some? :: value(name).value
  }

  /** `apply_non_config_properties`: changed properties outside the configuration count as applied at once. */
  function ApplyNonConfig(it: Item, own: Option<Props>, changes: Changes, overwrite: bool): Item {
    var names := NonConfigNames(it, own, changes, overwrite);
    it.(applied := FromValues(it.applied.Keys + names, name =>
      if name in changes && name in names then NonConfigValue(it, own, name, changes[name])
      else ValueAt(it.applied, name)))
  }

  /** All changes made to the properties. */
  function ChangeAll(it: Item, changes: Changes): Item {
    it.(properties := FromValues(it.properties.Keys + changes.Keys, name =>
      if name in changes then ValueAt(Changed(it, name, changes[name]), name) else ValueAt(it.properties, name)))
  }

  predicate WasAppliedOrUpdated(it: Item) {
    it.previous == Some(Applied) || it.previous == Some(Updated)
  }

  /** The state that `update_properties` moves to, once the properties are changed. */
  function AfterUpdate(it: Item, merged: Props, nonConfigApplied: bool): Item {
    if (it.state.Applied? || it.state.ForRemoval?) && it.applied != merged then SetState(it, Updated, merged)
    else if it.state.Updated? && it.determinable && it.applied == merged && WasAppliedOrUpdated(it) then
      SetState(it, Applied, merged)
    else if it.state.ForRemoval? && nonConfigApplied && WasAppliedOrUpdated(it) then it.(state := it.previous.value)
    else it
  }

  /** `update_properties`; `inherited` are the merged properties of the source. */
  function UpdateProperties(it: Item, own: Option<Props>, inherited: Props, changes: Changes): Item {
    if changes == map[] then it
    else
      var it1 := ChangeAll(ApplyNonConfig(it, own, changes, true), changes);
      AfterUpdate(it1, inherited + it1.properties, NonConfigNames(it, own, changes, true) != {})
  }

  /** `_update_inherited_item_state`, up to the removal of the parent. */
  function InheritorState(it: Item, merged: Props): Item {
    if it.applied == merged then
      if (it.state.Updated? || it.state.ForRemoval?) && it.determinable then SetState(it, Applied, merged)
      else if (it.state.Applied? || it.state.ForRemoval?) && !it.determinable then SetState(it, Updated, merged)
      else it
    else if it.state.ForRemoval? && it.previous == Some(Initial) && !it.determinable then SetState(it, Initial, merged)
    else if it.state.Applied? || it.state.ForRemoval? then SetState(it, Updated, merged)
    else it
  }

  // ---------- what the state functions keep ----------

  lemma StatesSnap(it: Item, state: ItemState, merged: Props)
    requires Snapped(it, merged)
    ensures Snapped(SetState(it, state, merged), merged) && Snapped(SetPreviousState(it, merged), merged)
  {
    TransitionSnaps(it, state, merged);
    TransitionSnaps(it, if it.previous.Some? then it.previous.value else Initial, merged);
    TransitionSnaps(it, Updated, merged);
  }

  lemma TransitionSnaps(it: Item, state: ItemState, merged: Props)
    requires Snapped(it, merged)
    ensures Snapped(SetState(it, state, merged), merged)
  {
  }

  lemma AfterUpdateSnaps(it: Item, merged: Props, nonConfigApplied: bool)
    ensures var u := AfterUpdate(it, merged, nonConfigApplied); Snapped(u, merged) && u.properties == it.properties
  {
  }

  /** An update with any change leaves the item snapped, whatever it was before. */
  lemma UpdateSnaps(it: Item, own: Option<Props>, inherited: Props, changes: Changes)
    requires changes != map[] || Snapped(it, inherited + it.properties)
    ensures var u := UpdateProperties(it, own, inherited, changes); Snapped(u, inherited + u.properties)
  {
    if changes != map[] {
      var it1 := ChangeAll(ApplyNonConfig(it, own, changes, true), changes);
      AfterUpdateSnaps(it1, inherited + it1.properties, NonConfigNames(it, own, changes, true) != {});
    }
  }

  /** So does the state update of an inheritor. */
  lemma InheritorSnaps(it: Item, merged: Props)
    ensures Snapped(InheritorState(it, merged), merged)
  {
  }

  /** Changes to names that an item overwrites all leave it alone. */
  lemma OverwrittenIsAlone(it: Item, own: Option<Props>, changes: Changes)
    requires AllOverwritten(it, own, changes)
    ensures ApplyNonConfig(it, own, changes, false) == it
  {
  }

  /**
   * A transition to the state that an item is in changes nothing, but an applied item is determinable afterwards.
   * Another transition keeps the state it leaves as the previous one, unless that is ForRemoval.
   */
  lemma Transition(it: Item, state: ItemState, merged: Props)
    ensures var u := SetState(it, state, merged);
      && u.state == state && u.properties == it.properties && u.source == it.source && u.schema == it.schema
      && u.determinable == (it.determinable || state.Applied?)
      && (it.state == state ==> u.previous == it.previous && u.applied == it.applied)
      && (it.state != state ==> u.previous == if it.state.ForRemoval? then it.previous else Some(it.state))
      && (it.state != state && state.Applied? ==> u.applied == merged)
      && (!state.Applied? ==> u.applied == it.applied)
  {
  }

  /** An update without changes changes nothing, not even the state. */
  lemma EmptyUpdate(it: Item, own: Option<Props>, inherited: Props)
    ensures UpdateProperties(it, own, inherited, map[]) == it
  {
  }

  /** Going back goes to the previous state, or to the initial one; but not from removal straight back to applied. */
  lemma BackToPrevious(it: Item, merged: Props)
    ensures var u := SetPreviousState(it, merged);
      && (it.previous.None? ==> u.state.Initial?)
      && (it.previous.Some? && (it.determinable || !it.state.ForRemoval? || !it.previous.value.Applied?) ==>
            u.state == it.previous.value)
      && (!it.determinable && it.state.ForRemoval? && it.previous == Some(Applied) ==>
            u.state.Updated? && u.applied == it.applied && !u.determinable)
  {
  }

  // ---------- what an update comes to ----------

  /** A required property without a source falls back to this value. */
  predicate FallsBackTo(it: Item, name: string, default: string) {
    it.source.None? && name in it.schema && it.schema[name].required && it.schema[name].default == Some(default) &&
    default != ""
  }

  /**
   * A property that is given a value has it afterwards. A property that is deleted is gone, unless it falls back to a
   * default. The others stay as they are.
   */
  lemma UpdateStores(it: Item, own: Option<Props>, inherited: Props, changes: Changes, name: string)
    ensures var u := UpdateProperties(it, own, inherited, changes);
      && (name !in changes ==> (name in u.properties <==> name in it.properties) &&
                               (name in u.properties ==> u.properties[name] == it.properties[name]))
      && (name in changes && changes[name].Some? ==>
            name in u.properties && u.properties[name] == changes[name].value)
      && (name in changes && changes[name].None? ==>
            (name in u.properties <==> name in it.properties && exists d :: FallsBackTo(it, name, d)) &&
            (name in u.properties ==> FallsBackTo(it, name, u.properties[name])))
  {
    if changes != map[] {
      var it1 := ChangeAll(ApplyNonConfig(it, own, changes, true), changes);
      AfterUpdateSnaps(it1, inherited + it1.properties, NonConfigNames(it, own, changes, true) != {});
      var x := ValueAt(it1.properties, name);
      if name in changes && changes[name].None? && name in it.properties && name in it.schema {
        assert it.schema[name].default.Some? ==>
          (FallsBackTo(it, name, it.schema[name].default.value) <==> DefaultOf(it, name).Some?);
      }
    }
  }

  lemma UpdateStoresAll(it: Item, own: Option<Props>, inherited: Props, changes: Changes)
    ensures var u := UpdateProperties(it, own, inherited, changes).properties;
      forall n :: n in changes && changes[n].Some? ==> n in u && u[n] == changes[n].value
    ensures var u := UpdateProperties(it, own, inherited, changes).properties;
      forall n :: n in changes && changes[n].None? ==>
        (n in u <==> n in it.properties && exists d :: FallsBackTo(it, n, d)) && (n in u ==> FallsBackTo(it, n, u[n]))
  {
    var u := UpdateProperties(it, own, inherited, changes).properties;
    forall n | n in changes
      ensures changes[n].Some? ==> n in u && u[n] == changes[n].value
      ensures changes[n].None? ==>
        (n in u <==> n in it.properties && exists d :: FallsBackTo(it, n, d)) && (n in u ==> FallsBackTo(it, n, u[n]))
    {
      UpdateStores(it, own, inherited, changes, n);
    }
  }

  /** A changed property outside the configuration. */
  predicate ChangedAtOnce(it: Item, changes: Changes, name: string) {
    name in changes && name in it.schema && !it.schema[name].configuration
  }

  /**
   * An update changes the applied value of properties outside the configuration only: it becomes the new value, unless
   * the item is in its initial state; a deleted one falls back to the source's own value, or to the default.
   */
  lemma UpdateApplies(it: Item, own: Option<Props>, inherited: Props, changes: Changes, name: string)
    ensures var a, b := it.applied, UpdateProperties(it, own, inherited, changes).applied;
      if !ChangedAtOnce(it, changes, name) || (changes[name].Some? && it.state.Initial?) then
        (name in b <==> name in a) && (name in b ==> b[name] == a[name])
      else if changes[name].Some? then name in b && b[name] == changes[name].value
      else if own.Some? && name in own.value then
        (name in b <==> name in a) && (name in b ==> b[name] == own.value[name])
      else
        (name in b <==> name in a && exists d :: FallsBackTo(it, name, d)) &&
        (name in b ==> FallsBackTo(it, name, b[name]))
  {
    if changes != map[] {
      var it0 := ApplyNonConfig(it, own, changes, true);
      var it1 := ChangeAll(it0, changes);
      UpdateKeepsApplied(it1, inherited + it1.properties, NonConfigNames(it, own, changes, true) != {});
      assert ValueAt(it0.applied, name) == if name in NonConfigNames(it, own, changes, true)
        then NonConfigValue(it, own, name, changes[name]) else ValueAt(it.applied, name);
      if name in NonConfigNames(it, own, changes, true) {
        ChangesApplied(it, own, name, changes[name]);
      }
    }
  }

  lemma ChangesApplied(it: Item, own: Option<Props>, name: string, value: Option<string>)
    ensures var a, b := it.applied, ChangedApplied(it, own, name, value);
      && (value.Some? ==> ValueAt(b, name) == if it.state.Initial? then ValueAt(a, name) else value)
      && (value.None? && own.Some? && name in own.value ==>
            ValueAt(b, name) == if name in a then Some(own.value[name]) else None)
      && (value.None? && !(own.Some? && name in own.value) ==>
            (name in b <==> name in a && exists d :: FallsBackTo(it, name, d)) &&
            (name in b ==> FallsBackTo(it, name, b[name])))
  {
    if name in it.schema && it.schema[name].default.Some? {
      assert FallsBackTo(it, name, it.schema[name].default.value) <==> DefaultOf(it, name).Some?;
    }
  }

  /** The same on an inheritor, for the properties that it does not overwrite. */
  lemma InheritedApplies(it: Item, own: Option<Props>, changes: Changes, name: string)
    ensures var a, b := it.applied, ApplyNonConfig(it, own, changes, false).applied;
      if !ChangedAtOnce(it, changes, name) || (own.Some? && name in it.properties) ||
         (changes[name].Some? && it.state.Initial?) then
        (name in b <==> name in a) && (name in b ==> b[name] == a[name])
      else if changes[name].Some? then name in b && b[name] == changes[name].value
      else if own.Some? && name in own.value then
        (name in b <==> name in a) && (name in b ==> b[name] == own.value[name])
      else
        (name in b <==> name in a && exists d :: FallsBackTo(it, name, d)) &&
        (name in b ==> FallsBackTo(it, name, b[name]))
  {
    var b := ApplyNonConfig(it, own, changes, false).applied;
    assert ValueAt(b, name) == if name in NonConfigNames(it, own, changes, false)
      then NonConfigValue(it, own, name, changes[name]) else ValueAt(it.applied, name);
    if name in NonConfigNames(it, own, changes, false) {
      ChangesApplied(it, own, name, changes[name]);
    }
  }

  lemma UpdateKeepsApplied(it: Item, merged: Props, nonConfigApplied: bool)
    ensures AfterUpdate(it, merged, nonConfigApplied).applied == it.applied
  {
  }

  /**
   * The state after an update with any change: an applied item is out of date exactly if its merged properties now
   * differ from the applied ones; an item that was to be removed stays on if they differ, or if it was applied or
   * updated before and only properties outside the configuration change; an updated item is applied again once there
   * is no difference.
   */
  lemma UpdateStates(it: Item, own: Option<Props>, inherited: Props, changes: Changes)
    requires changes != map[]
    ensures var u := UpdateProperties(it, own, inherited, changes);
      var same := u.applied == inherited + u.properties;
      var deployed := it.previous == Some(Applied) || it.previous == Some(Updated);
      && (it.state.Initial? || it.state.Removed? ==> u.state == it.state && u.previous == it.previous)
      && (it.state.Applied? ==> u.state == if same then Applied else Updated)
      && (it.state.Updated? ==> u.state == if same && it.determinable && deployed then Applied else Updated)
      && (it.state.ForRemoval? && !same ==> u.state.Updated?)
      && (it.state.ForRemoval? && same && deployed && (exists name :: ChangedAtOnce(it, changes, name)) ==>
            u.state == it.previous.value)
      && (it.state.ForRemoval? && same && !(deployed && exists name :: ChangedAtOnce(it, changes, name)) ==>
            u.state.ForRemoval?)
  {
    var it1 := ChangeAll(ApplyNonConfig(it, own, changes, true), changes);
    var names := NonConfigNames(it, own, changes, true);
    StatesAfter(it1, inherited + it1.properties, names != {});
    assert names != {} ==> exists name :: name in names && ChangedAtOnce(it, changes, name);
    assert forall name :: ChangedAtOnce(it, changes, name) ==> name in names;
  }

  lemma StatesAfter(it: Item, merged: Props, nonConfigApplied: bool)
    ensures var u := AfterUpdate(it, merged, nonConfigApplied);
      var deployed := it.previous == Some(Applied) || it.previous == Some(Updated);
      && u.applied == it.applied && u.properties == it.properties
      && (it.state.Initial? || it.state.Removed? ==> u == it)
      && (it.state.Applied? ==> u.state == if it.applied == merged then Applied else Updated)
      && (it.state.Updated? ==>
            u.state == if it.applied == merged && it.determinable && deployed then Applied else Updated)
      && (it.state.ForRemoval? && it.applied != merged ==> u.state.Updated?)
      && (it.state.ForRemoval? && it.applied == merged && deployed && nonConfigApplied ==> u.state == it.previous.value)
      && (it.state.ForRemoval? && it.applied == merged && !(deployed && nonConfigApplied) ==> u.state.ForRemoval?)
  {
  }

  /** The state of an inheritor once its source has changed; its applied properties are not touched. */
  lemma InheritorOutcome(it: Item, merged: Props)
    ensures var u := InheritorState(it, merged);
      && u.applied == it.applied && u.properties == it.properties
      && (it.state.Initial? || it.state.Removed? ==> u == it)
      && (it.state.Applied? ==> u.state == if it.applied == merged && it.determinable then Applied else Updated)
      && (it.state.Updated? ==> u.state == if it.applied == merged && it.determinable then Applied else Updated)
      && (it.state.ForRemoval? && it.applied == merged ==> u.state == if it.determinable then Applied else Updated)
      && (it.state.ForRemoval? && it.applied != merged ==>
            u.state == if !it.determinable && it.previous == Some(Initial) then Initial else Updated)
  {
    if it.applied == merged {
      Transition(it, Applied, merged);
    } else {
      Transition(it, Initial, merged);
    }
    Transition(it, Updated, merged);
  }

  /** Undoing a change of one property brings an applied item back. */
  lemma UpdateAndBack(it: Item, own: Option<Props>, inherited: Props, name: string, value: string)
    requires it.state.Applied? && it.determinable && Snapped(it, inherited + it.properties)
    requires name in it.properties && name in it.schema && it.schema[name].configuration && value != it.properties[name]
    ensures var u := UpdateProperties(it, own, inherited, map[name := Some(value)]);
      u.state.Updated? && u.applied == it.applied &&
      UpdateProperties(u, own, inherited, map[name := Some(it.properties[name])]) == it.(previous := Some(Updated))
  {
    UpdatedOnce(it, own, inherited, name, value);
    UpdatedBack(it, own, inherited, name, value);
  }

  lemma UpdatedBack(it: Item, own: Option<Props>, inherited: Props, name: string, value: string)
    requires it.state.Applied? && it.determinable && it.applied == inherited + it.properties
    requires name in it.properties && name in it.schema && it.schema[name].configuration
    ensures var u := it.(properties := it.properties[name := value], state := Updated, previous := Some(Applied));
      UpdateProperties(u, own, inherited, map[name := Some(it.properties[name])]) == it.(previous := Some(Updated))
  {
    var u := it.(properties := it.properties[name := value], state := Updated, previous := Some(Applied));
    assert u.properties[name := it.properties[name]] == it.properties;
    AppliedAgain(u, own, inherited, name, it.properties[name]);
  }

  lemma AppliedAgain(it: Item, own: Option<Props>, inherited: Props, name: string, value: string)
    requires it.state.Updated? && it.determinable && it.previous == Some(Applied)
    requires name in it.schema && it.schema[name].configuration
    requires it.applied == inherited + it.properties[name := value]
    ensures UpdateProperties(it, own, inherited, map[name := Some(value)]) ==
      it.(properties := it.properties[name := value], state := Applied, previous := Some(Updated))
  {
    NoneAtOnce(it, own, map[name := Some(value)], name);
    OneChanged(it, name, value);
  }

  lemma NoneAtOnce(it: Item, own: Option<Props>, changes: Changes, name: string)
    requires changes.Keys == {name} && name in it.schema && it.schema[name].configuration
    ensures NonConfigNames(it, own, changes, true) == {} && ApplyNonConfig(it, own, changes, true) == it
  {
    SameValues(ApplyNonConfig(it, own, changes, true).applied, it.applied);
  }

  lemma OneChanged(it: Item, name: string, value: string)
    ensures ChangeAll(it, map[name := Some(value)]) == it.(properties := it.properties[name := value])
  {
    SameValues(ChangeAll(it, map[name := Some(value)]).properties, it.properties[name := value]);
  }

  lemma UpdatedOnce(it: Item, own: Option<Props>, inherited: Props, name: string, value: string)
    requires it.state.Applied? && Snapped(it, inherited + it.properties)
    requires name in it.properties && name in it.schema && it.schema[name].configuration && value != it.properties[name]
    ensures UpdateProperties(it, own, inherited, map[name := Some(value)]) ==
      it.(properties := it.properties[name := value], state := Updated, previous := Some(Applied))
  {
    NoneAtOnce(it, own, map[name := Some(value)], name);
    OneChanged(it, name, value);
    assert (inherited + it.properties[name := value])[name] == value && it.applied[name] == it.properties[name];
  }

  // ---------- the object ----------

  class ModelItem {
    const collection: bool
    const schema: map<string, PropDef>
    const source: Option<Path>
    const born: nat
    var properties: Props
    var applied: Props
    var state: ItemState
    var previous: Option<ItemState>
    var determinable: bool

    function Value(): Item
      reads this
    {
      Item(collection, schema, source, properties, applied, state, previous, determinable, born)
    }

    /** A new item is in its initial state and has nothing applied. */
    constructor (collection: bool, schema: map<string, PropDef>, source: Option<Path>, properties: Props, born: nat)
      ensures Value() == Item(collection, schema, source, properties, map[], Initial, None, true, born)
    {
      this.collection, this.schema, this.source, this.born := collection, schema, source, born;
      this.properties, this.applied, this.state, this.previous, this.determinable := properties, map[], Initial,
        None, true;
    }

    method ChangeState(newState: ItemState, merged: Props)
      modifies this
      ensures Value() == SetState(old(Value()), newState, merged)
    {
      if newState.Applied? {
        determinable := true;
      }
      if state != newState {
        if !state.ForRemoval? {
          previous := Some(state);
        }
        state := newState;
        if newState.Applied? {
          applied := merged;
        }
      }
    }

    method BackToPreviousState(merged: Props)
      modifies this
      ensures Value() == SetPreviousState(old(Value()), merged)
    {
      if !determinable && state.ForRemoval? && previous == Some(Applied) {
        ChangeState(Updated, merged);
      } else {
        var target := previous;
        ChangeState(if target.None? then Initial else target.value, merged);
      }
    }

    method SetProperty(name: string, value: Option<string>)
      modifies this`properties
      ensures Value() == old(Value()).(properties := Changed(old(Value()), name, value))
    {
      if value.Some? {
        properties := properties[name := value.value];
      } else if name in properties {
        var default := DefaultOf(Value(), name);
        properties := if default.Some? then properties[name := default.value] else properties - {name};
      }
    }

    method SetAppliedProperty(own: Option<Props>, name: string, value: Option<string>)
      modifies this`applied
      ensures Value() == old(Value()).(applied := ChangedApplied(old(Value()), own, name, value))
    {
      if value.Some? {
        if !state.Initial? {
          applied := applied[name := value.value];
        }
      } else if name in applied {
        var default := DefaultOf(Value(), name);
        if own.Some? && name in own.value {
          applied := applied[name := own.value[name]];
        } else if default.Some? {
          applied := applied[name := default.value];
        } else {
          applied := applied - {name};
        }
      }
    }

    method ApplyNonConfigProperties(own: Option<Props>, changes: Changes, overwrite: bool)
      returns (nonConfigApplied: bool)
      modifies this`applied
      ensures Value() == ApplyNonConfig(old(Value()), own, changes, overwrite)
      ensures nonConfigApplied == (NonConfigNames(old(Value()), own, changes, overwrite) != {})
    {
      ghost var it := Value();
      nonConfigApplied := false;
      var left := changes.Keys;
      FirstRound(it, own, changes, overwrite);
      while left != {}
        invariant Value() == it.(applied := applied)
        invariant NonConfigRound(it, own, changes, overwrite, applied, nonConfigApplied, left)
      {
        var name :| name in left;
        ghost var before, flag := applied, nonConfigApplied;
        var handled := ApplyOne(own, name, changes[name], overwrite);
        nonConfigApplied := nonConfigApplied || handled;
        OneRound(it, own, changes, overwrite, before, applied, flag, nonConfigApplied, left, name);
        left := left - {name};
      }
      LastRound(it, own, changes, overwrite, applied, nonConfigApplied, left);
    }

    /** One name of the loop in `apply_non_config_properties`. */
    method ApplyOne(own: Option<Props>, name: string, value: Option<string>, overwrite: bool) returns (handled: bool)
      modifies this`applied
      ensures handled == HandlesNonConfig(old(Value()), own, name, overwrite)
      ensures !handled ==> applied == old(applied)
      ensures handled ==> applied == OneApplied(old(Value()), own, name, value)
    {
      handled := IsNonConfig(Value(), name) && (overwrite || !Overwritten(Value(), own, name));
      if handled && (name !in applied || Some(applied[name]) != value) {
        SetAppliedProperty(own, name, value);
      }
    }

    method ChangeProperties(changes: Changes)
      modifies this`properties
      ensures Value() == ChangeAll(old(Value()), changes)
    {
      ghost var it := Value();
      var left := changes.Keys;
      while left != {}
        invariant left <= changes.Keys && Value() == it.(properties := properties)
        invariant ChangesDone(it, changes, properties, changes.Keys - left)
      {
        var name :| name in left;
        ghost var before := properties;
        SetProperty(name, changes[name]);
        OneChange(it, changes, before, properties, changes.Keys - left, name);
        left := left - {name};
        assert changes.Keys - left == changes.Keys - (left + {name}) + {name};
      }
      AllChanges(it, changes, properties);
    }

    method SettleState(merged: Props, nonConfigApplied: bool)
      modifies this
      ensures Value() == AfterUpdate(old(Value()), merged, nonConfigApplied)
    {
      if (state.Applied? || state.ForRemoval?) && applied != merged {
        ChangeState(Updated, merged);
      } else if state.Updated? && determinable && applied == merged && WasAppliedOrUpdated(Value()) {
        ChangeState(Applied, merged);
      } else if state.ForRemoval? && nonConfigApplied && WasAppliedOrUpdated(Value()) {
        state := previous.value;
      }
    }

    /** `update_properties`; `own` and `inherited` are the source's own and merged properties. */
    method Update(own: Option<Props>, inherited: Props, changes: Changes)
      modifies this
      ensures Value() == UpdateProperties(old(Value()), own, inherited, changes)
      ensures forall n :: n in changes && changes[n].Some? ==> n in properties && properties[n] == changes[n].value
      ensures forall n :: n in changes && changes[n].None? ==>
        (n in properties <==> n in old(properties) && exists d :: FallsBackTo(old(Value()), n, d)) &&
        (n in properties ==> FallsBackTo(old(Value()), n, properties[n]))
      ensures changes != map[] && old(state).Applied? ==>
        state == if applied == inherited + properties then Applied else Updated
    {
      UpdateStoresAll(Value(), own, inherited, changes);
      if changes == map[] {
        return;
      }
      UpdateStates(Value(), own, inherited, changes);
      var nonConfigApplied := ApplyNonConfigProperties(own, changes, true);
      ChangeProperties(changes);
      SettleState(inherited + properties, nonConfigApplied);
    }
  }

  lemma SameValues(a: Props, b: Props)
    requires forall n :: ValueAt(a, n) == ValueAt(b, n)
    ensures a == b
  {
    forall n
      ensures n in a <==> n in b
      ensures n in a ==> a[n] == b[n]
    {
      assert ValueAt(a, n) == ValueAt(b, n);
    }
  }

  /** The applied values of the names in `done` have been set, the others are those of `it`. */
  ghost predicate NonConfigDone(it: Item, own: Option<Props>, changes: Changes, applied: Props, done: set<string>) {
    forall n :: ValueAt(applied, n) ==
      if n in done && n in changes then NonConfigValue(it, own, n, changes[n]) else ValueAt(it.applied, n)
  }

  /** One round of `apply_non_config_properties` sets the applied value of one name only. */
  lemma OneNonConfig(it: Item, before: Props, own: Option<Props>, name: string, changes: Changes, applied: Props,
                     done: set<string>)
    requires NonConfigDone(it, own, changes, before, done) && name in changes && name !in done
    requires applied == OneApplied(it.(applied := before), own, name, changes[name])
    ensures NonConfigDone(it, own, changes, applied, done + {name})
  {
  }

  /** Where the loop of `apply_non_config_properties` stands when the names in `left` are still to come. */
  ghost predicate NonConfigRound(it: Item, own: Option<Props>, changes: Changes, overwrite: bool, applied: Props,
                                 nonConfigApplied: bool, left: set<string>) {
    var done := NonConfigNames(it, own, changes, overwrite) - left;
    left <= changes.Keys && nonConfigApplied == (done != {}) && NonConfigDone(it, own, changes, applied, done)
  }

  lemma FirstRound(it: Item, own: Option<Props>, changes: Changes, overwrite: bool)
    ensures NonConfigRound(it, own, changes, overwrite, it.applied, false, changes.Keys)
  {
  }

  lemma LastRound(it: Item, own: Option<Props>, changes: Changes, overwrite: bool, applied: Props,
                  nonConfigApplied: bool,
                  left: set<string>)
    requires NonConfigRound(it, own, changes, overwrite, applied, nonConfigApplied, left) && left == {}
    ensures it.(applied := applied) == ApplyNonConfig(it, own, changes, overwrite)
    ensures nonConfigApplied == (NonConfigNames(it, own, changes, overwrite) != {})
  {
    assert NonConfigNames(it, own, changes, overwrite) - left == NonConfigNames(it, own, changes, overwrite);
    SameValues(applied, ApplyNonConfig(it, own, changes, overwrite).applied);
  }

  lemma OneRound(it: Item, own: Option<Props>, changes: Changes, overwrite: bool, before: Props, applied: Props,
                 flag: bool, nonConfigApplied: bool, left: set<string>, name: string)
    requires NonConfigRound(it, own, changes, overwrite, before, flag, left) && name in left
    requires nonConfigApplied == (flag || HandlesNonConfig(it, own, name, overwrite))
    requires applied == if HandlesNonConfig(it, own, name, overwrite)
                        then OneApplied(it.(applied := before), own, name, changes[name]) else before
    ensures NonConfigRound(it, own, changes, overwrite, applied, nonConfigApplied, left - {name})
  {
    var names := NonConfigNames(it, own, changes, overwrite);
    if name in names {
      OneNonConfig(it, before, own, name, changes, applied, names - left);
      assert names - (left - {name}) == names - left + {name};
    } else {
      assert names - (left - {name}) == names - left;
    }
  }

  /** The properties named in `done` have been changed, the others are those of `it`. */
  ghost predicate ChangesDone(it: Item, changes: Changes, properties: Props, done: set<string>) {
    forall n :: ValueAt(properties, n) ==
      if n in done && n in changes then ValueAt(Changed(it, n, changes[n]), n) else ValueAt(it.properties, n)
  }

  lemma OneChange(it: Item, changes: Changes, before: Props, properties: Props, done: set<string>, name: string)
    requires ChangesDone(it, changes, before, done) && name in changes && name !in done
    requires properties == Changed(it.(properties := before), name, changes[name])
    ensures ChangesDone(it, changes, properties, done + {name})
  {
  }

  lemma AllChanges(it: Item, changes: Changes, properties: Props)
    requires ChangesDone(it, changes, properties, changes.Keys)
    ensures properties == ChangeAll(it, changes).properties
  {
    SameValues(properties, ChangeAll(it, changes).properties);
  }
}
