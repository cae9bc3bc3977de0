/** The callback list of jQuery as a value: one function for each call on it, and one for the return of the
    callback that is being run.

    A firing stops each time it enters a callback; while a callback runs, any operation may be called on the
    list, and when it returns the firing goes on.  The state is what the closure of the list remembers, plus
    two histories, `started` and `log`. */
module CallbackState {
  import opened Wrappers

  datatype Options = Options(once: bool, memory: bool, unique: bool, stopOnFalse: bool)

  /** One call: the callback and the data it was given. */
  datatype Call<C, D> = Call(callback: C, data: D)

  datatype State<C, D> = State(
    options: Options,
    list: Option<seq<C>>,      // None once disabled
    stack: Option<seq<D>>,     // firings waiting; None for a list that fires once, or is locked
    memory: Option<D>,
    fired: bool,
    firing: bool,
    firingStart: nat,
    firingLength: int,
    firingIndex: int,
    data: Option<D>,           // the argument of the running firing
    started: seq<D>,           // history: the arguments of the firings begun
    log: seq<Call<C, D>>)      // history: the calls made

  function New<C, D>(options: Options): State<C, D> {
    State(options, Some([]), if options.once then None else Some([]), None, false, false, 0, 0, 0, None, [], [])
  }

  /** What holds whenever control is outside the list's own code. */
  ghost predicate Inv<C, D>(s: State<C, D>) {
    && s.firingStart == 0
    && (s.firing ==> s.fired && s.data.Some? && s.firingIndex >= -1 && (s.list.Some? ==>
            s.firingLength == |s.list.value|))
    && (s.options.once ==> s.stack.None?)
    && (s.stack.Some? && s.stack.value != [] ==> s.firing)
    && (s.memory.Some? ==> s.options.memory && s.fired)
    && (s.list.None? ==> s.stack.None? && s.memory.None?)
  }

  // ---------- firing ----------

  function StackLength<C, D>(s: State<C, D>): nat {
    if s.stack.Some? then |s.stack.value| else 0
  }

  /** Starts a firing: runs up to the first callback, or to the end if there is none. */
  function Fire<C, D>(s: State<C, D>, data: D): State<C, D>
    requires s.list.Some?
    decreases StackLength(s), 2
  {
    Loop(s.(memory := if s.options.memory then Some(data) else None, fired := true, firingIndex := s.firingStart,
            firingStart := 0, firingLength := |s.list.value|, firing := true, data := Some(data),
            started := s.started + [data]))
  }

  /** The test of the firing loop; enters the next callback or ends the firing. */
  function Loop<C, D>(s: State<C, D>): State<C, D>
    requires s.data.Some? && s.firingIndex >= 0
    requires s.list.Some? ==> s.firingLength == |s.list.value|
    decreases StackLength(s), 1
  {
    if s.list.Some? && s.firingIndex < s.firingLength
    then s.(log := s.log + [Call(s.list.value[s.firingIndex], s.data.value)])
    else Finish(s)
  }

  function Finish<C, D>(s: State<C, D>): State<C, D>
    decreases StackLength(s), 0
  {
    var ended := s.(firing := false);
    if s.list.None? then ended
    else if s.stack.Some? then
      if s.stack.value != [] then Fire(ended.(stack := Some(s.stack.value[1..])), s.stack.value[0]) else ended
    else if s.memory.Some? then ended.(list := Some([]))
    else Disabled(ended)
  }

  /** The running callback returns; `isFalse` tells whether it returned false. */
  function Returned<C, D>(s: State<C, D>, isFalse: bool): State<C, D>
    requires Inv(s) && s.firing
  {
    if isFalse && s.options.stopOnFalse then Finish(s.(memory := None))
    else Loop(s.(firingIndex := s.firingIndex + 1))
  }

  // ---------- the operations ----------

  function Disabled<C, D>(s: State<C, D>): State<C, D> {
    s.(list := None, stack := None, memory := None)
  }

  function Locked<C, D>(s: State<C, D>): State<C, D> {
    if s.memory.None? then Disabled(s) else s.(stack := None)
  }

  function Emptied<C, D>(s: State<C, D>): State<C, D> {
    s.(list := Some([]), firingLength := 0)
  }

  function FiredWith<C, D>(s: State<C, D>, data: D): State<C, D>
    requires Inv(s)
  {
    if s.list.Some? && (!s.fired || s.stack.Some?) then
      if s.firing then s.(stack := Some(s.stack.value + [data])) else Fire(s, data)
    else s
  }

  /** The list with the given callbacks pushed, in a `unique` list only those it does not have yet. */
  function Pushed<C(==)>(list: seq<C>, fs: seq<C>, unique: bool): seq<C>
    decreases |fs|
  {
    if fs == [] then list
    else Pushed(if unique && fs[0] in list then list else list + [fs[0]], fs[1..], unique)
  }

  function Added<C(==), D>(s: State<C, D>, fs: seq<C>): State<C, D>
    requires Inv(s)
  {
    if s.list.None? then s
    else
      var list := Pushed(s.list.value, fs, s.options.unique);
      if s.firing then s.(list := Some(list), firingLength := |list|)
      else if s.memory.Some? then Fire(s.(list := Some(list), firingStart := |s.list.value|), s.memory.value)
      else s.(list := Some(list))
  }

  function Without<C(==)>(list: seq<C>, f: C): seq<C> {
    if list == [] then []
    else if list[0] == f then Without(list[1..], f)
    else [list[0]] + Without(list[1..], f)
  }

  /** How often `f` stands at an index not above `limit`. */
  function CountUpTo<C(==)>(list: seq<C>, f: C, limit: int): nat {
    if list == [] || limit < 0 then 0
    else (if list[0] == f then 1 else 0) + CountUpTo(list[1..], f, limit - 1)
  }

  function Removed<C(==), D>(s: State<C, D>, f: C): State<C, D> {
    if s.list.None? then s
    else
      var list := Without(s.list.value, f);
      if s.firing then
        s.(list := Some(list), firingLength := s.firingLength - (|s.list.value| - |list|),
           firingIndex := s.firingIndex - CountUpTo(s.list.value, f, s.firingIndex))
      else s.(list := Some(list))
  }
}
