/** `Model.set`, as a function on values: nested sets made by listeners, and the events they fire.

    What listeners do is a script: the k-th event that a call of `set` fires makes them run the k-th reaction of that
    call, a list of further calls. */
module ModelState {
  import opened Wrappers

  datatype Val = Undefined | Val(v: int)

  datatype Entry = Entry(name: string, val: Val)

  datatype Call = Call(attrs: seq<Entry>, unset: bool, silent: bool, valid: bool, reactions: seq<Reaction>)

  datatype Reaction = Reaction(calls: seq<Call>)

  type Attributes = map<string, Val>

  /** The history: attributes that were assigned, with the names of those that changed, and events fired. */
  datatype Event =
    | Assigned(attrs: seq<Entry>, unset: bool, silent: bool, changes: seq<string>)
    | AttrChange(name: string)
    | Change

  /** `id` is a copy of the attribute named `idAttribute`. */
  datatype Model = Model(
    idAttribute: string,
    id: Val,
    attributes: Attributes,
    changed: map<string, Val>,
    previous: Attributes,
    changing: bool,
    pending: bool,
    log: seq<Event>)

  function Get(attributes: Attributes, name: string): Val {
    if name in attributes then attributes[name] else Undefined
  }

  /** The new values of the attributes that differ. */
  function Diff(before: Attributes, now: Attributes): map<string, Val> {
    map name | name in before.Keys + now.Keys && Get(before, name) != Get(now, name) :: Get(now, name)
  }

  // ---------- assigning ----------

  function AssignOne(m: Model, e: Entry, unset: bool): Model {
    m.(changed := if Get(m.previous, e.name) != e.val then m.changed[e.name := e.val] else m.changed - {e.name},
       attributes := if unset then m.attributes - {e.name} else m.attributes[e.name := e.val])
  }

  /** The value that the last of the entries with the name gives it. */
  function LastOf(attrs: seq<Entry>, name: string): Option<Val> {
    if attrs == [] then None
    else
      var n := |attrs| - 1;
      if attrs[n].name == name then Some(attrs[n].val) else LastOf(attrs[..n], name)
  }

  /** The id is copied before the attributes are assigned. */
  function WithId(m: Model, attrs: seq<Entry>): Model {
    var id := LastOf(attrs, m.idAttribute);
    if id.Some? then m.(id := id.value) else m
  }

  function AssignAll(m: Model, attrs: seq<Entry>, unset: bool): Model {
    if attrs == [] then m
    else AssignOne(AssignAll(m, attrs[..|attrs| - 1], unset), attrs[|attrs| - 1], unset)
  }

  /** The names of the attributes that change as the entries are assigned one after the other. */
  function Changes(attributes: Attributes, attrs: seq<Entry>, unset: bool): seq<string> {
    if attrs == [] then []
    else
      var n := |attrs| - 1;
      var e := attrs[n];
      Changes(attributes, attrs[..n], unset)
      + if Get(AttributesAfter(attributes, attrs[..n], unset), e.name) != e.val then [e.name] else []
  }

  /** The attributes alone after the entries are assigned. */
  function AttributesAfter(attributes: Attributes, attrs: seq<Entry>, unset: bool): Attributes {
    if attrs == [] then attributes
    else
      var n := |attrs| - 1;
      var before := AttributesAfter(attributes, attrs[..n], unset);
      if unset then before - {attrs[n].name} else before[attrs[n].name := attrs[n].val]
  }

  // ---------- set ----------

  function Begun(m: Model): Model {
    if m.changing then m else m.(changing := true, previous := m.attributes, changed := map[])
  }

  function AssignedBy(m: Model, call: Call): Model {
    var changes := Changes(m.attributes, call.attrs, call.unset);
    var m' := AssignAll(WithId(Begun(m), call.attrs), call.attrs, call.unset);
    m'.(log := m'.log + [Assigned(call.attrs, call.unset, call.silent, changes)],
        pending := m'.pending || (!call.silent && changes != []))
  }

  function Fired(m: Model, e: Event): Model {
    m.(log := m.log + [e])
  }

  function Set(m: Model, call: Call): Model
    decreases call
  {
    if !call.valid then m
    else
      var changes := Changes(m.attributes, call.attrs, call.unset);
      var told := if call.silent then AssignedBy(m, call) else Tell(AssignedBy(m, call), changes, call.reactions, 0);
      if m.changing then told
      else
        var done := if call.silent then told else Settle(told, call.reactions, |changes|);
        done.(pending := false, changing := false)
  }

  /** One event for each changed attribute. */
  function Tell(m: Model, changes: seq<string>, reactions: seq<Reaction>, k: nat): Model
    requires k <= |changes|
    decreases reactions, 1, |changes| - k
  {
    if k == |changes| then m
    else Tell(React(Fired(m, AttrChange(changes[k])), reactions, k), changes, reactions, k + 1)
  }

  /** "change" events as long as something is pending. */
  function Settle(m: Model, reactions: seq<Reaction>, k: nat): Model
    decreases reactions, 1, if k <= |reactions| then |reactions| - k else 0
  {
    if !m.pending then m
    else
      var m' := React(Fired(m.(pending := false), Change), reactions, k);
      if k < |reactions| then Settle(m', reactions, k + 1) else m'
  }

  /** The listeners' reaction to event number `k`. */
  function React(m: Model, reactions: seq<Reaction>, k: nat): Model
    decreases reactions, 0
  {
    if k < |reactions| then SetAll(m, reactions[k].calls) else m
  }

  function SetAll(m: Model, calls: seq<Call>): Model
    decreases calls
  {
    if calls == [] then m else SetAll(Set(m, calls[0]), calls[1..])
  }

  // ---------- what holds ----------

  /** `unset` is called with undefined values only, also by listeners. */
  ghost predicate Proper(call: Call)
    decreases call
  {
    && (call.unset ==> forall i {:trigger call.attrs[i]} :: 0 <= i < |call.attrs| ==> call.attrs[i].val == Undefined)
    && AllProper(call.reactions)
  }

  ghost predicate AllProper(reactions: seq<Reaction>)
    decreases reactions
  {
    forall k {:trigger reactions[k]} :: 0 <= k < |reactions| ==> CallsProper(reactions[k].calls)
  }

  ghost predicate CallsProper(calls: seq<Call>)
    decreases calls
  {
    forall i {:trigger calls[i]} :: 0 <= i < |calls| ==> Proper(calls[i])
  }

  /** Every change that was not silent was followed by a "change" event. */
  ghost predicate Announced(log: seq<Event>) {
    log == []
    || match log[|log| - 1]
       case Change => true
       case AttrChange(_) => Announced(log[..|log| - 1])
       case Assigned(_, _, silent, changes) => (silent || changes == []) && Announced(log[..|log| - 1])
  }

  /** What holds inside a `set`. */
  ghost predicate Inside(m: Model) {
    m.changing && m.changed == Diff(m.previous, m.attributes) && (Announced(m.log) || m.pending)
  }

  // ---------- the history ----------

  /** The part of a model that assignments change. */
  function Core(m: Model): Model {
    m.(log := [], pending := false, changing := true)
  }

  /** What the assignments of a history make of a model. */
  function Replay(m: Model, log: seq<Event>): Model {
    if log == [] then m
    else
      var before := Replay(m, log[..|log| - 1]);
      match log[|log| - 1]
      case Assigned(attrs, unset, _, _) => AssignAll(WithId(before, attrs), attrs, unset)
      case _ => before
  }

  /** The last assignment to an attribute in a history. */
  datatype Assignment = Assignment(val: Val, unset: bool)

  function LastAssignment(log: seq<Event>, name: string): Option<Assignment> {
    if log == [] then None
    else
      var n := |log| - 1;
      if log[n].Assigned? && LastOf(log[n].attrs, name).Some?
          then Some(Assignment(LastOf(log[n].attrs, name).value, log[n].unset))
      else LastAssignment(log[..n], name)
  }

  /** The last that was done to the attribute was to unset it with a value. */
  predicate Spoiled(log: seq<Event>, name: string) {
    var last := LastAssignment(log, name);
    last.Some? && last.value.unset && last.value.val != Undefined
  }
}
