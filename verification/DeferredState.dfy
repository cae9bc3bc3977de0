/** A jQuery Deferred: three callback lists that disable and lock each other.  User callbacks are opaque; while
    one runs, anything may be called on the deferred.  The three callbacks that the deferred puts on its own
    lists run without giving user code a turn. */
module DeferredState {
  import opened Wrappers
  import opened CallbackState
  import opened CallbackQueue

  datatype Status = Pending | Resolved | Rejected

  datatype Which = Done | Fail | Progress

  /** An entry of a list: one of the deferred's own callbacks, or a user callback. */
  datatype Entry = SetStatus | DisableOther | LockProgress | User(id: nat)

  /** `attached` is the history of the user callbacks given to each list. */
  datatype Deferred<D> = Deferred(
    done: State<Entry, D>, fail: State<Entry, D>, progress: State<Entry, D>, status: Status,
    attachedDone: seq<nat>, attachedFail: seq<nat>, attachedProgress: seq<nat>)

  const ONCE_MEMORY := Options(true, true, false, false)
  const MEMORY := Options(false, true, false, false)
  const OWN: seq<Entry> := [SetStatus, DisableOther, LockProgress]

  function Users(ids: seq<nat>): seq<Entry> {
    seq(|ids|, i requires 0 <= i < |ids| => User(ids[i]))
  }

  function NewDeferred<D>(): Deferred<D> {
    var list := CallbackState.New(ONCE_MEMORY).(list := Some(OWN));
    Deferred(list, list, CallbackState.New(MEMORY), Pending, [], [], [])
  }

  function List<D>(d: Deferred<D>, which: Which): State<Entry, D> {
    match which
    case Done => d.done
    case Fail => d.fail
    case Progress => d.progress
  }

  function WithList<D>(d: Deferred<D>, which: Which, list: State<Entry, D>): Deferred<D> {
    match which
    case Done => d.(done := list)
    case Fail => d.(fail := list)
    case Progress => d.(progress := list)
  }

  ghost predicate ListsInv<D>(d: Deferred<D>) {
    && Inv(d.done) && Inv(d.fail) && Inv(d.progress)
    && d.done.options == ONCE_MEMORY && d.fail.options == ONCE_MEMORY && d.progress.options == MEMORY
  }

  /** The list is inside one of the deferred's own callbacks. */
  predicate AtOwn<D>(l: State<Entry, D>) {
    l.firing && l.list.Some? && 0 <= l.firingIndex < |l.list.value| && !l.list.value[l.firingIndex].User?
  }

  /** What one of the deferred's own callbacks does. */
  function Effect<D>(d: Deferred<D>, which: Which, entry: Entry): Deferred<D>
    requires which != Progress
  {
    match entry
    case SetStatus => d.(status := if which == Done then Resolved else Rejected)
    case DisableOther => if which == Done then d.(fail := Disabled(d.fail)) else d.(done := Disabled(d.done))
    case LockProgress => d.(progress := Locked(d.progress))
    case User(_) => d
  }

  /** A list that fires once goes on to its next entry, or ends. */
  lemma OwnReturned<D>(l: State<Entry, D>)
    requires Inv(l) && l.options.once && AtOwn(l)
    ensures var l' := Returned(l, false);
            if l.firingIndex + 1 < |l.list.value| then
              l' == l.(firingIndex := l.firingIndex + 1,
                       log := l.log + [Call(l.list.value[l.firingIndex + 1], l.data.value)])
            else !l'.firing && l' == Finish(l.(firingIndex := l.firingIndex + 1))
  {
    var next := l.(firingIndex := l.firingIndex + 1);
    assert l.firingIndex + 1 >= |l.list.value| ==> Loop(next) == Finish(next);
  }

  /** Runs the deferred's own callbacks of a list until the list is in a user callback or done. */
  function Drain<D>(d: Deferred<D>, which: Which): Deferred<D>
    requires which != Progress && Inv(List(d, which)) && List(d, which).options.once
    decreases if List(d, which).firing && List(d, which).list.Some?
        then |List(d, which).list.value| - List(d, which).firingIndex else 0
  {
    var l := List(d, which);
    if !AtOwn(l) then d
    else
      var after := Effect(d, which, l.list.value[l.firingIndex]);
      assert List(after, which) == l;
      ReturnKeepsInv(l, false);
      OwnReturned(l);
      Drain(WithList(after, which, Returned(l, false)), which)
  }

  // ---------- what user code can do ----------

  /** `done(f)`, `fail(f)` or `progress(f)`. */
  function Attach<D>(d: Deferred<D>, which: Which, f: nat): Deferred<D>
    requires ListsInv(d)
  {
    var d' := WithList(d, which, Added(List(d, which), [User(f)]));
    match which
    case Done => d'.(attachedDone := d.attachedDone + [f])
    case Fail => d'.(attachedFail := d.attachedFail + [f])
    case Progress => d'.(attachedProgress := d.attachedProgress + [f])
  }

  /** `resolveWith`, `rejectWith` or `notifyWith`. */
  function Settle<D>(d: Deferred<D>, which: Which, data: D): Deferred<D>
    requires ListsInv(d)
  {
    var d' := WithList(d, which, FiredWith(List(d, which), data));
    if which == Progress then d'
    else
      FireWithKeepsInv(List(d, which), data);
      Drain(d', which)
  }

  /** The user callback that a list is running returns. */
  function Resume<D>(d: Deferred<D>, which: Which, isFalse: bool): Deferred<D>
    requires ListsInv(d)
  {
    var l := List(d, which);
    if !l.firing then d
    else
      var d' := WithList(d, which, Returned(l, isFalse));
      if which == Progress then d'
      else
        ReturnKeepsInv(l, isFalse);
        Drain(d', which)
  }
}
