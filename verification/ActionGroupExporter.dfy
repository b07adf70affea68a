/**
 * The action-group exporter (gio/gactiongroupexporter.c) and the mirror that a
 * remote process keeps of the exported group (gio/gdbusactiongroup.c).
 *
 * The exporter compresses any history of additions, removals and changes into
 * one event mask per name, and later turns the masks into one "Changed" signal.
 * `Exporter` and `RemoteActionGroup` are the two objects, with the tables their
 * C functions rewrite; `World` puts the group, the exporter, the bus and one
 * client together and `MirrorCatchesUp` is the promise of the whole protocol.
 */
module ActionGroupExporter {
  import opened Wrappers

  type Name = string
  type TypeString = s: string | s != "" witness "s"

  datatype Variant = Variant(typ: TypeString, value: string)

  datatype Action = Action(enabled: bool, parameterType: Option<TypeString>, state: Option<Variant>)

  type Group = map<Name, Action>

  /** The D-Bus form "(bgav)" of one action. */
  datatype Description = Description(enabled: bool, signature: string, state: seq<Variant>)

  /** The arguments of the Changed signal, "(asa{sb}a{sv}a{s(bgav)})". */
  datatype Changed = Changed(
    removals: seq<Name>,
    enabledChanges: seq<(Name, bool)>,
    stateChanges: seq<(Name, Variant)>,
    additions: seq<(Name, Description)>)

  function Describe(a: Action): Description {
    Description(
      a.enabled,
      if a.parameterType.Some? then a.parameterType.value else "",
      if a.state.Some? then [a.state.value] else [])
  }

  function ReadDescription(d: Description): Action {
    Action(
      d.enabled,
      if d.signature != "" then Some(d.signature) else None,
      if |d.state| > 0 then Some(d.state[0]) else None)
  }

  lemma DescriptionRoundTrip(a: Action)
    ensures ReadDescription(Describe(a)) == a
  {
  }

  // ---------------------------------------------------------------- dictionaries on the wire

  /** A D-Bus dictionary read in order: a later entry replaces an earlier one. */
  function ToMap<T>(entries: seq<(Name, T)>): map<Name, T> {
    if entries == [] then map[]
    else
      var last := entries[|entries| - 1];
      ToMap(entries[..|entries| - 1])[last.0 := last.1]
  }

  predicate DistinctKeys<T>(entries: seq<(Name, T)>) {
    entries == [] ||
    (DistinctKeys(entries[..|entries| - 1]) &&
     entries[|entries| - 1].0 !in ToMap(entries[..|entries| - 1]))
  }

  /** The dictionary lists exactly `expected`, every key once. */
  predicate Lists<T(==)>(entries: seq<(Name, T)>, expected: map<Name, T>) {
    DistinctKeys(entries) && ToMap(entries) == expected
  }

  lemma AppendEntry<T>(entries: seq<(Name, T)>, n: Name, t: T)
    ensures ToMap(entries + [(n, t)]) == ToMap(entries)[n := t]
    ensures DistinctKeys(entries) && n !in ToMap(entries) ==> DistinctKeys(entries + [(n, t)])
  {
    assert (entries + [(n, t)])[..|entries|] == entries;
  }

  function Entry<T>(n: Name, t: Option<T>): seq<(Name, T)> {
    if t.Some? then [(n, t.value)] else []
  }

  function Put<T>(m: map<Name, T>, n: Name, t: Option<T>): map<Name, T> {
    if t.Some? then m[n := t.value] else m
  }

  lemma ListsEntry<T>(entries: seq<(Name, T)>, expected: map<Name, T>, n: Name, t: Option<T>)
    requires Lists(entries, expected) && n !in expected
    ensures Lists(entries + Entry(n, t), Put(expected, n, t))
  {
    assert entries + [] == entries;
    if t.Some? {
      AppendEntry(entries, n, t.value);
    }
  }

  // ---------------------------------------------------------------- event masks

  /** The four bits of an event mask. */
  datatype Mask = Mask(added: bool, removed: bool, state: bool, enabled: bool)

  const NO_EVENTS := Mask(false, false, false, false)

  type Pending = map<Name, Mask>

  function Events(pending: Pending, name: Name): Mask {
    if name in pending then pending[name] else NO_EVENTS
  }

  function WithEvents(pending: Pending, name: Name, events: Mask): Pending {
    if events != NO_EVENTS then pending[name := events] else pending - {name}
  }

  function OnAdded(mask: Mask): Mask { mask.(added := true) }

  function OnRemoved(mask: Mask): Mask {
    if mask.added then mask.(added := false) else Mask(false, true, false, false)
  }

  function OnStateChanged(mask: Mask): Mask {
    if mask.added then mask else mask.(state := true)
  }

  function OnEnabledChanged(mask: Mask): Mask {
    if mask.added then mask else mask.(enabled := true)
  }

  // The g_assert conditions of the handlers and of the dispatcher.  The one in
  // the removal handler is true of every mask.

  predicate MayAdd(mask: Mask) { !mask.state || !mask.enabled }

  predicate MayChange(mask: Mask) { !mask.removed || mask.added }

  predicate MayDispatch(mask: Mask) {
    (!mask.enabled && !mask.state) != (!mask.removed && !mask.added)
  }

  // ---------------------------------------------------------------- what a Changed signal must say

  function Removals(pending: Pending): set<Name> {
    set n | n in pending && pending[n].removed
  }

  /** The entry of the enabled-changes that one pending name calls for, and so on for the other two. */
  function EnabledEntry(group: Group): (Mask, Name) -> Option<bool> {
    (mask: Mask, n: Name) => if mask.enabled && n in group then Some(group[n].enabled) else None
  }

  function StateEntry(group: Group): (Mask, Name) -> Option<Variant> {
    (mask: Mask, n: Name) => if mask.state && n in group then group[n].state else None
  }

  function AddedEntry(group: Group): (Mask, Name) -> Option<Description> {
    (mask: Mask, n: Name) => if mask.added && n in group then Some(Describe(group[n])) else None
  }

  /** The entries that the pending names call for, one kind of event at a time. */
  function Collect<T>(pending: Pending, entry: (Mask, Name) -> Option<T>): map<Name, T> {
    map n | n in pending && entry(pending[n], n).Some? :: entry(pending[n], n).value
  }

  function EnabledValues(pending: Pending, group: Group): map<Name, bool> {
    Collect(pending, EnabledEntry(group))
  }

  function StateValues(pending: Pending, group: Group): map<Name, Variant> {
    Collect(pending, StateEntry(group))
  }

  function Additions(pending: Pending, group: Group): map<Name, Description> {
    Collect(pending, AddedEntry(group))
  }

  /** `message` reports `pending` with the values `group` has now, in any order. */
  predicate Reports(message: Changed, pending: Pending, group: Group) {
    && (set n | n in message.removals) == Removals(pending)
    && Lists(message.enabledChanges, EnabledValues(pending, group))
    && Lists(message.stateChanges, StateValues(pending, group))
    && Lists(message.additions, Additions(pending, group))
  }

  /** What such a message says of each name: what was recorded of it, with the value it has now. */
  lemma ReportSays(message: Changed, pending: Pending, group: Group, n: Name)
    requires Reports(message, pending, group) && (n in pending ==> Reportable(pending[n], group, n))
    ensures n in message.removals <==> n in pending && pending[n].removed
    ensures n in ToMap(message.enabledChanges) <==> n in pending && pending[n].enabled
    ensures n in ToMap(message.enabledChanges) ==> ToMap(message.enabledChanges)[n] == group[n].enabled
    ensures n in ToMap(message.stateChanges) <==> n in pending && pending[n].state
    ensures n in ToMap(message.stateChanges) ==> Some(ToMap(message.stateChanges)[n]) == group[n].state
    ensures n in ToMap(message.additions) <==> n in pending && pending[n].added
    ensures
      n in ToMap(message.additions) ==>
        var d := ToMap(message.additions)[n];
        && d.enabled == group[n].enabled
        && d.signature == (if group[n].parameterType == None then "" else group[n].parameterType.value)
        && d.state == (if group[n].state == None then [] else [group[n].state.value])
  {
    assert n in Removals(pending) <==> n in (set m | m in message.removals);
  }

  /** What the dispatcher takes for granted about one pending name. */
  predicate Reportable(mask: Mask, group: Group, name: Name) {
    && MayDispatch(mask)
    && (mask.enabled || mask.state || mask.added ==> name in group)
    && (mask.state ==> group[name].state.Some?)
  }

  /** The entries built by visiting the pending names in this order. */
  function Built<T>(order: seq<Name>, pending: Pending, entry: (Mask, Name) -> Option<T>): seq<(Name, T)> {
    if order == [] then []
    else
      var last := order[|order| - 1];
      Built(order[..|order| - 1], pending, entry) + Entry(last, entry(Events(pending, last), last))
  }

  lemma BuiltStep<T>(order: seq<Name>, n: Name, pending: Pending, entry: (Mask, Name) -> Option<T>)
    ensures Built(order + [n], pending, entry)
      == if entry(Events(pending, n), n).Some?
         then Built(order, pending, entry) + [(n, entry(Events(pending, n), n).value)]
         else Built(order, pending, entry)
  {
    assert (order + [n])[..|order|] == order;
    assert Built(order, pending, entry) + [] == Built(order, pending, entry);
  }

  predicate Distinct(order: seq<Name>) {
    forall i, j :: 0 <= i < j < |order| ==> order[i] != order[j]
  }

  function Only(pending: Pending, order: seq<Name>): Pending {
    map n | n in pending && n in order :: pending[n]
  }

  lemma CollectStep<T>(done: Pending, entry: (Mask, Name) -> Option<T>, n: Name, mask: Mask)
    requires n !in done
    ensures Collect(done[n := mask], entry) == Put(Collect(done, entry), n, entry(mask, n))
  {
  }

  lemma {:induction false} BuiltLists<T>(order: seq<Name>, pending: Pending, entry: (Mask, Name) -> Option<T>)
    requires Distinct(order) && forall n :: n in order ==> n in pending
    ensures Lists(Built(order, pending, entry), Collect(Only(pending, order), entry))
  {
    if order != [] {
      var rest, last := order[..|order| - 1], order[|order| - 1];
      assert order == rest + [last];
      BuiltLists(rest, pending, entry);
      CollectStep(Only(pending, rest), entry, last, pending[last]);
      assert Only(pending, rest)[last := pending[last]] == Only(pending, order);
      ListsEntry(Built(rest, pending, entry), Collect(Only(pending, rest), entry), last, entry(pending[last], last));
    }
  }

  ghost predicate BuiltSoFar(builders: Changed, order: seq<Name>, pending: Pending, group: Group) {
    && (forall n :: n in builders.removals <==> n in order && Events(pending, n).removed)
    && builders.enabledChanges == Built(order, pending, EnabledEntry(group))
    && builders.stateChanges == Built(order, pending, StateEntry(group))
    && builders.additions == Built(order, pending, AddedEntry(group))
  }

  lemma AllBuilt(builders: Changed, order: seq<Name>, pending: Pending, group: Group)
    requires Distinct(order) && (forall n :: n in order <==> n in pending)
    requires BuiltSoFar(builders, order, pending, group)
    ensures Reports(builders, pending, group)
  {
    assert Only(pending, order) == pending;
    BuiltLists(order, pending, EnabledEntry(group));
    BuiltLists(order, pending, StateEntry(group));
    BuiltLists(order, pending, AddedEntry(group));
  }

  /** One signal more, which reports what was pending; none if nothing was. */
  predicate Flushed(before: seq<Changed>, after: seq<Changed>, pending: Pending, group: Group) {
    if pending == map[] then after == before
    else |after| == |before| + 1 && after[..|before|] == before && Reports(after[|before|], pending, group)
  }

  // ---------------------------------------------------------------- the exporter

  class Exporter {
    var pendingChanges: Pending
    var pendingSource: bool
    var emitted: seq<Changed>

    constructor ()
      ensures pendingChanges == map[] && !pendingSource && emitted == []
    {
      pendingChanges := map[];
      pendingSource := false;
      emitted := [];
    }

    method SetEvents(name: Name, events: Mask)
      modifies this`pendingChanges, this`pendingSource
      ensures pendingChanges == WithEvents(old(pendingChanges), name, events)
      ensures name in pendingChanges <==> events != NO_EVENTS
      ensures name in pendingChanges ==> pendingChanges[name] == events
      ensures pendingChanges - {name} == old(pendingChanges) - {name}
      ensures pendingSource == (pendingChanges != map[])
    {
      if events != NO_EVENTS {
        pendingChanges := pendingChanges[name := events];
      } else {
        pendingChanges := pendingChanges - {name};
      }
      var haveEvents := |pendingChanges| > 0;
      if haveEvents && !pendingSource {
        pendingSource := true;
      }
      if !haveEvents && pendingSource {
        pendingSource := false;
      }
    }

    method ActionAdded(name: Name)
      requires MayAdd(Events(pendingChanges, name))
      modifies this`pendingChanges, this`pendingSource
      ensures pendingChanges == WithEvents(old(pendingChanges), name, OnAdded(Events(old(pendingChanges), name)))
      ensures
        var was := Events(old(pendingChanges), name);
        Events(pendingChanges, name) == Mask(true, was.removed, was.state, was.enabled)
      ensures pendingChanges - {name} == old(pendingChanges) - {name}
      ensures pendingSource == (pendingChanges != map[])
    {
      var mask := Events(pendingChanges, name);
      SetEvents(name, mask.(added := true));
    }

    method ActionRemoved(name: Name)
      modifies this`pendingChanges, this`pendingSource
      ensures pendingChanges == WithEvents(old(pendingChanges), name, OnRemoved(Events(old(pendingChanges), name)))
      ensures
        var was := Events(old(pendingChanges), name);
        Events(pendingChanges, name) == if was.added then Mask(false, was.removed, was.state, was.enabled) else Mask(false, true, false, false)
      ensures pendingChanges - {name} == old(pendingChanges) - {name}
      ensures pendingSource == (pendingChanges != map[])
    {
      var mask := Events(pendingChanges, name);
      if mask.added {
        mask := mask.(added := false);
      } else {
        mask := mask.(removed := true);
        mask := mask.(state := false, enabled := false);
      }
      SetEvents(name, mask);
    }

    method ActionStateChanged(name: Name)
      requires MayChange(Events(pendingChanges, name))
      modifies this`pendingChanges, this`pendingSource
      ensures pendingChanges == WithEvents(old(pendingChanges), name, OnStateChanged(Events(old(pendingChanges), name)))
      ensures
        var was := Events(old(pendingChanges), name);
        Events(pendingChanges, name) == if was.added then was else Mask(false, was.removed, true, was.enabled)
      ensures pendingChanges - {name} == old(pendingChanges) - {name}
      ensures pendingSource == (pendingChanges != map[])
    {
      var mask := Events(pendingChanges, name);
      if !mask.added {
        mask := mask.(state := true);
      }
      SetEvents(name, mask);
    }

    method ActionEnabledChanged(name: Name)
      requires MayChange(Events(pendingChanges, name))
      modifies this`pendingChanges, this`pendingSource
      ensures pendingChanges == WithEvents(old(pendingChanges), name, OnEnabledChanged(Events(old(pendingChanges), name)))
      ensures
        var was := Events(old(pendingChanges), name);
        Events(pendingChanges, name) == if was.added then was else Mask(false, was.removed, was.state, true)
      ensures pendingChanges - {name} == old(pendingChanges) - {name}
      ensures pendingSource == (pendingChanges != map[])
    {
      var mask := Events(pendingChanges, name);
      if !mask.added {
        mask := mask.(enabled := true);
      }
      SetEvents(name, mask);
    }

    method DispatchEvents(group: Group)
      requires forall n :: n in pendingChanges ==> Reportable(pendingChanges[n], group, n)
      modifies this
      ensures pendingChanges == map[] && !pendingSource
      ensures |emitted| == |old(emitted)| + 1 && emitted[..|old(emitted)|] == old(emitted)
      ensures Reports(emitted[|old(emitted)|], old(pendingChanges), group)
    {
      var message := BuildMessage(pendingChanges, group);
      pendingChanges := map[];
      emitted := emitted + [message];
      pendingSource := false;
    }

    /** The loop over the table of pending changes, in whatever order the table has. */
    static method BuildMessage(pending: Pending, group: Group) returns (builders: Changed)
      requires forall n :: n in pending ==> Reportable(pending[n], group, n)
      ensures Reports(builders, pending, group)
    {
      builders := Changed([], [], [], []);
      var todo := pending.Keys;
      ghost var order: seq<Name> := [];
      while todo != {}
        invariant todo <= pending.Keys && Distinct(order)
        invariant forall n :: n in order <==> n in pending && n !in todo
        invariant BuiltSoFar(builders, order, pending, group)
        decreases |todo|
      {
        var name :| name in todo;
        var events := pending[name];
        assert MayDispatch(events);
        BuiltStep(order, name, pending, EnabledEntry(group));
        BuiltStep(order, name, pending, StateEntry(group));
        BuiltStep(order, name, pending, AddedEntry(group));
        order := order + [name];
        if events.removed {
          builders := builders.(removals := builders.removals + [name]);
        }
        if events.enabled {
          builders := builders.(enabledChanges := builders.enabledChanges + [(name, group[name].enabled)]);
        }
        if events.state {
          builders := builders.(stateChanges := builders.stateChanges + [(name, group[name].state.value)]);
        }
        if events.added {
          builders := builders.(additions := builders.additions + [(name, Describe(group[name]))]);
        }
        todo := todo - {name};
      }
      AllBuilt(builders, order, pending, group);
    }

    method FlushQueue(group: Group)
      requires pendingSource == (pendingChanges != map[])
      requires forall n :: n in pendingChanges ==> Reportable(pendingChanges[n], group, n)
      modifies this
      ensures pendingChanges == map[] && !pendingSource
      ensures Flushed(old(emitted), emitted, old(pendingChanges), group)
    {
      if pendingSource {
        DispatchEvents(group);
      }
    }

    /** The DescribeAll method call: flush, then list every action. */
    method DescribeAll(group: Group) returns (reply: seq<(Name, Description)>)
      requires pendingSource == (pendingChanges != map[])
      requires forall n :: n in pendingChanges ==> Reportable(pendingChanges[n], group, n)
      modifies this
      ensures pendingChanges == map[] && !pendingSource
      ensures Flushed(old(emitted), emitted, old(pendingChanges), group)
      ensures Lists(reply, DescribedGroup(group))
    {
      FlushQueue(group);
      reply := [];
      var todo := group.Keys;
      while todo != {}
        modifies {}
        invariant todo <= group.Keys
        invariant Lists(reply, DescribedGroup(group - todo))
        decreases |todo|
      {
        var name :| name in todo;
        AppendEntry(reply, name, Describe(group[name]));
        ghost var done := group - todo;
        reply := reply + [(name, Describe(group[name]))];
        todo := todo - {name};
        assert DescribedGroup(group - todo) == DescribedGroup(done)[name := Describe(group[name])];
      }
      assert group - todo == group;
    }

    /** The Describe method call: flush, then describe one action or refuse. */
    method DescribeOne(group: Group, name: Name) returns (reply: Option<Description>)
      requires pendingSource == (pendingChanges != map[])
      requires forall n :: n in pendingChanges ==> Reportable(pendingChanges[n], group, n)
      modifies this
      ensures pendingChanges == map[] && !pendingSource
      ensures Flushed(old(emitted), emitted, old(pendingChanges), group)
      ensures reply.Some? <==> name in group
      ensures reply.Some? ==> ReadDescription(reply.value) == group[name]
      ensures
        reply.Some? ==>
          && reply.value.enabled == group[name].enabled
          && reply.value.signature == (if group[name].parameterType == None then "" else group[name].parameterType.value)
          && reply.value.state == (if group[name].state == None then [] else [group[name].state.value])
    {
      FlushQueue(group);
      if name !in group {
        return None;
      }
      DescriptionRoundTrip(group[name]);
      reply := Some(Describe(group[name]));
    }
  }

  function DescribedGroup(group: Group): map<Name, Description> {
    map n | n in group :: Describe(group[n])
  }

  /** What an answer says of each name. */
  lemma AnswerSays(reply: seq<(Name, Description)>, group: Group, n: Name)
    requires Lists(reply, DescribedGroup(group))
    ensures n in ToMap(reply) <==> n in group
    ensures
      n in group ==>
        var d := ToMap(reply)[n];
        && d.enabled == group[n].enabled
        && d.signature == (if group[n].parameterType == None then "" else group[n].parameterType.value)
        && d.state == (if group[n].state == None then [] else [group[n].state.value])
  {
  }

  // ---------------------------------------------------------------- the mirror

  function ApplyRemovals(actions: Group, names: seq<Name>): (r: Group)
    ensures r == actions - (set n | n in names)
  {
    if names == [] then actions
    else
      var rest, last := names[..|names| - 1], names[|names| - 1];
      assert names == rest + [last];
      ApplyRemovals(actions, rest) - {last}
  }

  function ApplyEnabled(actions: Group, entries: seq<(Name, bool)>): Group {
    if entries == [] then actions
    else
      var r, last := ApplyEnabled(actions, entries[..|entries| - 1]), entries[|entries| - 1];
      if last.0 in r then r[last.0 := r[last.0].(enabled := last.1)] else r
  }

  function ApplyStates(actions: Group, entries: seq<(Name, Variant)>): Group {
    if entries == [] then actions
    else
      var r, last := ApplyStates(actions, entries[..|entries| - 1]), entries[|entries| - 1];
      if last.0 in r && r[last.0].state.Some? && r[last.0].state.value.typ == last.1.typ
      then r[last.0 := r[last.0].(state := Some(last.1))] else r
  }

  function ApplyAdditions(actions: Group, entries: seq<(Name, Description)>): Group {
    if entries == [] then actions
    else
      var r, last := ApplyAdditions(actions, entries[..|entries| - 1]), entries[|entries| - 1];
      if last.0 in r then r else r[last.0 := ReadDescription(last.1)]
  }

  function ReadGroup(entries: seq<(Name, Description)>): Group {
    if entries == [] then map[]
    else
      var last := entries[|entries| - 1];
      ReadGroup(entries[..|entries| - 1])[last.0 := ReadDescription(last.1)]
  }

  function Applied(actions: Group, message: Changed): Group {
    var a1 := ApplyRemovals(actions, message.removals);
    var a2 := ApplyEnabled(a1, message.enabledChanges);
    var a3 := ApplyStates(a2, message.stateChanges);
    ApplyAdditions(a3, message.additions)
  }

  class RemoteActionGroup {
    var actions: Option<Group>

    constructor ()
      ensures actions == None
    {
      actions := None;
    }

    method ChangedSignal(message: Changed)
      modifies this
      ensures actions == if old(actions).None? then None else Some(Applied(old(actions).value, message))
    {
      if actions.None? {
        return;
      }
      var table := actions.value;
      for i := 0 to |message.removals|
        invariant table == ApplyRemovals(actions.value, message.removals[..i])
      {
        assert message.removals[..i + 1][..i] == message.removals[..i];
        if message.removals[i] in table {
          table := table - {message.removals[i]};
        }
      }
      assert message.removals[..|message.removals|] == message.removals;
      ghost var a1 := table;
      for i := 0 to |message.enabledChanges|
        invariant table == ApplyEnabled(a1, message.enabledChanges[..i])
      {
        assert message.enabledChanges[..i + 1][..i] == message.enabledChanges[..i];
        var (name, enabled) := message.enabledChanges[i];
        if name in table && table[name].enabled != enabled {
          table := table[name := table[name].(enabled := enabled)];
        }
      }
      assert message.enabledChanges[..|message.enabledChanges|] == message.enabledChanges;
      ghost var a2 := table;
      for i := 0 to |message.stateChanges|
        invariant table == ApplyStates(a2, message.stateChanges[..i])
      {
        assert message.stateChanges[..i + 1][..i] == message.stateChanges[..i];
        var (name, state) := message.stateChanges[i];
        if name in table && table[name].state.Some? && state != table[name].state.value
           && state.typ == table[name].state.value.typ {
          table := table[name := table[name].(state := Some(state))];
        }
      }
      assert message.stateChanges[..|message.stateChanges|] == message.stateChanges;
      ghost var a3 := table;
      for i := 0 to |message.additions|
        invariant table == ApplyAdditions(a3, message.additions[..i])
      {
        assert message.additions[..i + 1][..i] == message.additions[..i];
        var (name, description) := message.additions[i];
        if name !in table {
          table := table[name := ReadDescription(description)];
        }
      }
      assert message.additions[..|message.additions|] == message.additions;
      actions := Some(table);
    }

    method DescribeAllDone(reply: seq<(Name, Description)>)
      requires actions.None?
      modifies this
      ensures actions == Some(ReadGroup(reply))
    {
      var table: Group := map[];
      for i := 0 to |reply|
        invariant table == ReadGroup(reply[..i])
      {
        assert reply[..i + 1][..i] == reply[..i];
        table := table[reply[i].0 := ReadDescription(reply[i].1)];
      }
      assert reply[..|reply|] == reply;
      actions := Some(table);
    }
  }

  lemma {:induction false} EnabledAt(actions: Group, entries: seq<(Name, bool)>)
    ensures ApplyEnabled(actions, entries).Keys == actions.Keys
    ensures forall n :: n in actions ==>
      ApplyEnabled(actions, entries)[n]
        == if n in ToMap(entries) then actions[n].(enabled := ToMap(entries)[n]) else actions[n]
  {
    if entries != [] {
      EnabledAt(actions, entries[..|entries| - 1]);
    }
  }

  lemma {:induction false} StatesAt(actions: Group, entries: seq<(Name, Variant)>)
    requires DistinctKeys(entries)
    ensures ApplyStates(actions, entries).Keys == actions.Keys
    ensures forall n :: n in actions ==>
      ApplyStates(actions, entries)[n]
        == if n in ToMap(entries) && actions[n].state.Some? && actions[n].state.value.typ == ToMap(entries)[n].typ
           then actions[n].(state := Some(ToMap(entries)[n])) else actions[n]
  {
    if entries != [] {
      StatesAt(actions, entries[..|entries| - 1]);
    }
  }

  lemma {:induction false} AdditionsAt(actions: Group, entries: seq<(Name, Description)>)
    requires DistinctKeys(entries)
    ensures ApplyAdditions(actions, entries).Keys == actions.Keys + ToMap(entries).Keys
    ensures forall n :: n in ApplyAdditions(actions, entries) ==>
      ApplyAdditions(actions, entries)[n]
        == if n in actions then actions[n] else ReadDescription(ToMap(entries)[n])
  {
    if entries != [] {
      AdditionsAt(actions, entries[..|entries| - 1]);
    }
  }

  lemma {:induction false} ReadGroupAt(entries: seq<(Name, Description)>)
    ensures ReadGroup(entries).Keys == ToMap(entries).Keys
    ensures forall n :: n in ReadGroup(entries) ==> ReadGroup(entries)[n] == ReadDescription(ToMap(entries)[n])
  {
    if entries != [] {
      ReadGroupAt(entries[..|entries| - 1]);
    }
  }

  // ---------------------------------------------------------------- the invariant

  /** The mask of one name, and what it says of the group and of the mirror. */
  ghost predicate Class(n: Name, mask: Mask, group: Group, mirror: Group) {
    if mask.added && mask.removed then !mask.state && !mask.enabled && n in group && n in mirror
    else if mask.added then !mask.state && !mask.enabled && n in group && n !in mirror
    else if mask.removed then !mask.state && !mask.enabled && n !in group && n in mirror
    else if n !in group || n !in mirror then mask == NO_EVENTS && n !in group && n !in mirror
    else
      && group[n].parameterType == mirror[n].parameterType
      && SameStateType(group[n].state, mirror[n].state)
      && (!mask.enabled ==> group[n].enabled == mirror[n].enabled)
      && (if mask.state then group[n].state.Some? else group[n].state == mirror[n].state)
  }

  predicate SameStateType(a: Option<Variant>, b: Option<Variant>) {
    a.Some? == b.Some? && (a.Some? ==> a.value.typ == b.value.typ)
  }

  ghost predicate Agree(group: Group, pending: Pending, mirror: Group) {
    && (forall n :: n in pending ==> pending[n] != NO_EVENTS)
    && (forall n: Name :: Class(n, Events(pending, n), group, mirror))
  }

  /** Every assertion the exporter makes before it dispatches holds. */
  lemma DispatchAssertionsHold(group: Group, pending: Pending, mirror: Group)
    requires Agree(group, pending, mirror)
    ensures forall n :: n in pending ==> Reportable(pending[n], group, n)
  {
    forall n | n in pending
      ensures Reportable(pending[n], group, n)
    {
      assert Class(n, Events(pending, n), group, mirror);
    }
  }

  /** What one Changed signal does to one name. */
  lemma DeltaAt(group: Group, pending: Pending, mirror: Group, message: Changed, n: Name)
    requires Agree(group, pending, mirror) && Reports(message, pending, group)
    ensures n in Applied(mirror, message) <==> n in group
    ensures n in group ==> Applied(mirror, message)[n] == group[n]
  {
    var a1 := ApplyRemovals(mirror, message.removals);
    var a2 := ApplyEnabled(a1, message.enabledChanges);
    var a3 := ApplyStates(a2, message.stateChanges);
    EnabledAt(a1, message.enabledChanges);
    StatesAt(a2, message.stateChanges);
    AdditionsAt(a3, message.additions);
    assert Class(n, Events(pending, n), group, mirror);
    if n in group {
      DescriptionRoundTrip(group[n]);
    }
  }

  /** One Changed signal, whatever its order, brings the mirror exactly up to date. */
  lemma DeltaIsExact(group: Group, pending: Pending, mirror: Group, message: Changed)
    requires Agree(group, pending, mirror) && Reports(message, pending, group)
    ensures Applied(mirror, message) == group
  {
    forall n: Name
      ensures n in Applied(mirror, message) <==> n in group
      ensures n in group ==> Applied(mirror, message)[n] == group[n]
    {
      DeltaAt(group, pending, mirror, message, n);
    }
  }

  /** A mask that is dispatched always puts something into the signal. */
  lemma NoEmptyChanged(group: Group, pending: Pending, mirror: Group, message: Changed)
    requires Agree(group, pending, mirror) && Reports(message, pending, group) && pending != map[]
    ensures message != Changed([], [], [], [])
  {
    var n :| n in pending;
    assert Class(n, Events(pending, n), group, mirror);
    assert n in Removals(pending) || n in EnabledValues(pending, group)
        || n in StateValues(pending, group) || n in Additions(pending, group);
  }

  // ---------------------------------------------------------------- the whole system

  datatype Packet = Signal(message: Changed) | Reply(entries: seq<(Name, Description)>)

  /**
   * `wire` holds the packets sent to the client and not yet received, oldest
   * first.  `mirror` is the reference: the group as it was when it was
   * exported, with every Changed signal sent since then applied to it.
   */
  datatype World = World(
    group: Group, pending: Pending, source: bool,
    asked: bool, wire: seq<Packet>, client: Option<Group>, mirror: Group)

  datatype Event =
    | Add(name: Name, action: Action)
    | Remove(name: Name)
    | SetEnabled(name: Name, enabled: bool)
    | SetState(name: Name, state: Variant)
    | Dispatch(message: Changed)                        // the idle source, or the flush of any method call
    | AnswerDescribeAll(entries: seq<(Name, Description)>)
    | Receive

  function Received(client: Option<Group>, packet: Packet): Option<Group> {
    match packet
    case Signal(message) => if client.None? then None else Some(Applied(client.value, message))
    case Reply(entries) => Some(ReadGroup(entries))
  }

  /** What the client will hold once everything on the wire has arrived. */
  function View(client: Option<Group>, wire: seq<Packet>): Option<Group>
    decreases |wire|
  {
    if wire == [] then client else View(Received(client, wire[0]), wire[1..])
  }

  /** What GActionGroup allows; state types are fixed for the life of an action. */
  predicate Enabled(w: World, e: Event) {
    match e
    case Add(n, _) => n !in w.group
    case Remove(n) => n in w.group
    case SetEnabled(n, _) => n in w.group
    case SetState(n, v) => n in w.group && w.group[n].state.Some? && w.group[n].state.value.typ == v.typ
    case Dispatch(message) => w.source && Reports(message, w.pending, w.group)
    case AnswerDescribeAll(entries) => !w.source && !w.asked && Lists(entries, DescribedGroup(w.group))
    case Receive => w.wire != []
  }

  function WithMask(w: World, n: Name, mask: Mask): World {
    var p := WithEvents(w.pending, n, mask);
    w.(pending := p, source := p != map[])
  }

  function Step(w: World, e: Event): World
    requires Enabled(w, e)
  {
    match e
    case Add(n, a) => WithMask(w, n, OnAdded(Events(w.pending, n))).(group := w.group[n := a])
    case Remove(n) => WithMask(w, n, OnRemoved(Events(w.pending, n))).(group := w.group - {n})
    case SetEnabled(n, b) =>
      WithMask(w, n, OnEnabledChanged(Events(w.pending, n))).(group := w.group[n := w.group[n].(enabled := b)])
    case SetState(n, v) =>
      WithMask(w, n, OnStateChanged(Events(w.pending, n))).(group := w.group[n := w.group[n].(state := Some(v))])
    case Dispatch(message) =>
      w.(pending := map[], source := false, wire := w.wire + [Signal(message)], mirror := Applied(w.mirror, message))
    case AnswerDescribeAll(entries) => w.(asked := true, wire := w.wire + [Reply(entries)])
    case Receive => w.(client := Received(w.client, w.wire[0]), wire := w.wire[1..])
  }

  ghost predicate Inv(w: World) {
    && Agree(w.group, w.pending, w.mirror)
    && w.source == (w.pending != map[])
    && View(w.client, w.wire) == (if w.asked then Some(w.mirror) else None)
  }

  predicate Exported(w: World) {
    w.pending == map[] && !w.source && !w.asked && w.wire == [] && w.client.None? && w.mirror == w.group
  }

  lemma {:induction false} ViewAppend(client: Option<Group>, wire: seq<Packet>, packet: Packet)
    ensures View(client, wire + [packet]) == Received(View(client, wire), packet)
    decreases |wire|
  {
    if wire == [] {
      assert (wire + [packet])[1..] == [];
    } else {
      assert (wire + [packet])[1..] == wire[1..] + [packet];
      ViewAppend(Received(client, wire[0]), wire[1..], packet);
    }
  }

  /** A change of one name's mask and value keeps every other name's class. */
  lemma OtherNames(w: World, n: Name, mask: Mask, group: Group)
    requires Inv(w)
    requires forall m: Name :: m != n ==> (m in group <==> m in w.group) && (m in group ==> group[m] == w.group[m])
    requires Class(n, mask, group, w.mirror)
    ensures Inv(WithMask(w, n, mask).(group := group))
  {
    var p := WithEvents(w.pending, n, mask);
    forall m: Name
      ensures Class(m, Events(p, m), group, w.mirror)
    {
      assert Class(m, Events(w.pending, m), w.group, w.mirror);
    }
  }

  /** A change of the group meets its handler's assertion and keeps the invariant. */
  lemma ChangeKeepsInv(w: World, e: Event)
    requires Inv(w) && Enabled(w, e) && (e.Add? || e.Remove? || e.SetEnabled? || e.SetState?)
    ensures Inv(Step(w, e))
    ensures e.Add? ==> MayAdd(Events(w.pending, e.name))
    ensures e.SetEnabled? || e.SetState? ==> MayChange(Events(w.pending, e.name))
  {
    assert Class(e.name, Events(w.pending, e.name), w.group, w.mirror);
    match e
    case Add(n, a) => OtherNames(w, n, OnAdded(Events(w.pending, n)), w.group[n := a]);
    case Remove(n) => OtherNames(w, n, OnRemoved(Events(w.pending, n)), w.group - {n});
    case SetEnabled(n, b) =>
      OtherNames(w, n, OnEnabledChanged(Events(w.pending, n)), w.group[n := w.group[n].(enabled := b)]);
    case SetState(n, v) =>
      OtherNames(w, n, OnStateChanged(Events(w.pending, n)), w.group[n := w.group[n].(state := Some(v))]);
  }

  /** Every dispatch meets its assertion, sends something, and leaves reference and group equal. */
  lemma DispatchKeepsInv(w: World, message: Changed)
    requires Inv(w) && Enabled(w, Dispatch(message))
    ensures Inv(Step(w, Dispatch(message)))
    ensures forall n :: n in w.pending ==> Reportable(w.pending[n], w.group, n)
    ensures Step(w, Dispatch(message)).mirror == w.group && message != Changed([], [], [], [])
  {
    DispatchAssertionsHold(w.group, w.pending, w.mirror);
    DeltaIsExact(w.group, w.pending, w.mirror, message);
    NoEmptyChanged(w.group, w.pending, w.mirror, message);
    ViewAppend(w.client, w.wire, Signal(message));
  }

  /** What the events do to the group; dispatching, answering and receiving leave it alone. */
  lemma ChangesGroup(w: World, e: Event)
    requires Enabled(w, e)
    ensures
      var g := Step(w, e).group;
      match e
      case Add(n, a) => n in g && g[n] == a && g - {n} == w.group
      case Remove(n) => n !in g && g == w.group - {n}
      case SetEnabled(n, b) =>
        && n in g && g - {n} == w.group - {n} && g[n].enabled == b
        && g[n].state == w.group[n].state && g[n].parameterType == w.group[n].parameterType
      case SetState(n, v) =>
        && n in g && g - {n} == w.group - {n} && g[n].state == Some(v)
        && g[n].enabled == w.group[n].enabled && g[n].parameterType == w.group[n].parameterType
      case _ => g == w.group
  {
  }

  lemma StepKeepsInv(w: World, e: Event)
    requires Inv(w) && Enabled(w, e)
    ensures Inv(Step(w, e))
  {
    match e
    case Dispatch(message) => DispatchKeepsInv(w, message);
    case AnswerDescribeAll(entries) =>
      ViewAppend(w.client, w.wire, Reply(entries));
      QuietMeansEqual(w);
      AnswerIsGroup(w.group, entries);
    case Receive =>
    case _ => ChangeKeepsInv(w, e);
  }

  lemma QuietMeansEqual(w: World)
    requires Inv(w) && w.pending == map[]
    ensures w.mirror == w.group
  {
    forall n: Name
      ensures n in w.mirror <==> n in w.group
      ensures n in w.group ==> w.mirror[n] == w.group[n]
    {
      assert Class(n, Events(w.pending, n), w.group, w.mirror);
    }
  }

  lemma AnswerIsGroup(group: Group, entries: seq<(Name, Description)>)
    requires Lists(entries, DescribedGroup(group))
    ensures ReadGroup(entries) == group
  {
    ReadGroupAt(entries);
    forall n | n in group
      ensures ReadGroup(entries)[n] == group[n]
    {
      DescriptionRoundTrip(group[n]);
    }
  }

  // ---------------------------------------------------------------- runs

  predicate ValidRun(w: World, events: seq<Event>)
    decreases |events|
  {
    events == [] || (Enabled(w, events[0]) && ValidRun(Step(w, events[0]), events[1..]))
  }

  function Exec(w: World, events: seq<Event>): World
    requires ValidRun(w, events)
    decreases |events|
  {
    if events == [] then w else Exec(Step(w, events[0]), events[1..])
  }

  lemma {:induction false} RunKeepsInv(w: World, events: seq<Event>)
    requires Inv(w) && ValidRun(w, events)
    ensures Inv(Exec(w, events))
    decreases |events|
  {
    if events != [] {
      StepKeepsInv(w, events[0]);
      RunKeepsInv(Step(w, events[0]), events[1..]);
    }
  }

  /**
   * From an export on, whatever happens: a client that has its DescribeAll
   * answer and has received every packet holds exactly the group, as soon as
   * no change is pending; and while packets are still under way, those packets
   * are exactly what it is missing.
   */
  lemma MirrorCatchesUp(start: World, events: seq<Event>)
    requires Exported(start) && ValidRun(start, events)
    ensures
      var w := Exec(start, events);
      && w.source == (w.pending != map[])
      && (w.client.Some? && w.wire == [] && !w.source ==> w.client.value == w.group)
      && (w.asked && !w.source ==> View(w.client, w.wire) == Some(w.group))
  {
    forall n: Name
      ensures Class(n, Events(start.pending, n), start.group, start.mirror)
    {
    }
    RunKeepsInv(start, events);
    var w := Exec(start, events);
    if w.pending == map[] {
      QuietMeansEqual(w);
    }
  }
}
