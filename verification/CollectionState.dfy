/** A Backbone Collection as a value: the ordered list of its models and the index over their keys.

    A Model object is a number, its place in the table `ids` of all model objects, which holds their ids. */
module CollectionState {
  import opened Wrappers

  /** The strings that the index is keyed by: the client id of a model object, or any other string. */
  datatype Key = Cid(n: nat) | Other(s: string)

  /** What `set` is given: a model object, or the attributes of one; `valid` tells whether a model made of them
      passes its validation. */
  datatype Item = Object(n: nat) | Attrs(id: Option<Key>, valid: bool)

  datatype Coll = Coll(models: seq<nat>, length: int, byId: map<Key, nat>)

  type Ids = seq<Option<Key>>

  const EMPTY := Coll([], 0, map[])

  function Members(s: seq<nat>): set<nat> {
    set m | m in s
  }

  ghost predicate NoRepeats(s: seq<nat>) {
    forall i, j :: 0 <= i < j < |s| ==> s[i] != s[j]
  }

  /** The index maps exactly the client ids and ids of the models in `listed` to them. */
  ghost predicate Indexed(listed: set<nat>, byId: map<Key, nat>, ids: Ids) {
    && (forall m {:trigger m in listed} :: m in listed ==>
          m < |ids| && Cid(m) in byId && byId[Cid(m)] == m
          && (ids[m].Some? ==> ids[m].value in byId && byId[ids[m].value] == m))
    && (forall k {:trigger k in byId} :: k in byId ==>
          byId[k] in listed && (k == Cid(byId[k]) || ids[byId[k]] == Some(k)))
  }

  /** Index and list agree. */
  ghost predicate Agrees(c: Coll, ids: Ids) {
    NoRepeats(c.models) && c.length == |c.models| && Indexed(Members(c.models), c.byId, ids)
  }

  /** No id looks like a client id. */
  ghost predicate PlainIds(ids: Ids) {
    forall n {:trigger ids[n]} :: 0 <= n < |ids| && ids[n].Some? ==> ids[n].value.Other?
  }

  // ---------- get ----------

  function Look(byId: map<Key, nat>, k: Option<Key>): Option<nat> {
    if k.Some? && k.value in byId then Some(byId[k.value]) else None
  }

  function Get(byId: map<Key, nat>, ids: Ids, item: Item): Option<nat>
    requires item.Object? ==> item.n < |ids|
  {
    match item
    case Attrs(id, _) => Look(byId, id)
    case Object(n) => if Look(byId, ids[n]).Some? then Look(byId, ids[n]) else Look(byId, Some(Cid(n)))
  }

  // ---------- references ----------

  function Referenced(byId: map<Key, nat>, m: nat, id: Option<Key>): map<Key, nat> {
    if id.Some? then byId[Cid(m) := m][id.value := m] else byId[Cid(m) := m]
  }

  function Unreferenced(byId: map<Key, nat>, m: nat, id: Option<Key>): map<Key, nat> {
    if id.Some? then byId - {id.value} - {Cid(m)} else byId - {Cid(m)}
  }

  lemma AddIndexed(listed: set<nat>, byId: map<Key, nat>, ids: Ids, m: nat)
    requires Indexed(listed, byId, ids) && m < |ids| && Cid(m) !in byId && Look(byId, ids[m]).None?
    ensures Indexed(listed + {m}, Referenced(byId, m, ids[m]), ids) && m !in listed
  {
  }

  lemma RemoveIndexed(listed: set<nat>, byId: map<Key, nat>, ids: Ids, m: nat)
    requires Indexed(listed, byId, ids) && m in listed
    ensures Indexed(listed - {m}, Unreferenced(byId, m, ids[m]), ids)
  {
  }

  lemma FreshIndexed(listed: set<nat>, byId: map<Key, nat>, ids: Ids, id: Option<Key>)
    requires Indexed(listed, byId, ids) && PlainIds(ids)
    ensures Indexed(listed, byId, ids + [id]) && Cid(|ids|) !in byId
  {
  }

  // ---------- remove ----------

  function IndexOf(s: seq<nat>, m: nat): (i: nat)
    ensures i <= |s| && (m in s ==> i < |s| && s[i] == m)
    ensures m !in s[..i]
  {
    if s == [] || s[0] == m then 0 else 1 + IndexOf(s[1..], m)
  }

  /** `splice(indexOf(m), 1)`, which takes the last element if `m` is not there. */
  function Spliced(s: seq<nat>, m: nat): seq<nat> {
    var i := IndexOf(s, m);
    if i < |s| then s[..i] + s[i + 1..] else if s == [] then s else s[..|s| - 1]
  }

  /** One round of `remove`. */
  function RemovedOne(c: Coll, ids: Ids, item: Item): Coll
    requires item.Object? ==> item.n < |ids|
  {
    match Get(c.byId, ids, item)
    case None => c
    case Some(m) =>
      Coll(Spliced(c.models, m), c.length - 1, Unreferenced(c.byId, m, if m < |ids| then ids[m] else None))
  }

  ghost predicate Known(items: seq<Item>, ids: Ids) {
    forall i {:trigger items[i]} :: 0 <= i < |items| && items[i].Object? ==> items[i].n < |ids|
  }

  function RemovedAll(c: Coll, ids: Ids, items: seq<Item>): Coll
    requires Known(items, ids)
  {
    if items == [] then c
    else RemovedOne(RemovedAll(c, ids, items[..|items| - 1]), ids, items[|items| - 1])
  }

  // ---------- set ----------

  /** The state of the first loop of `set`: `seen` is `modelMap`, and `ordered` tells whether `order` is kept. */
  datatype Scan = Scan(byId: map<Key, nat>, ids: Ids, toAdd: seq<nat>, order: seq<nat>, seen: set<Key>)

  /** A model goes into the order if it has no id or its id was not seen. */
  function Passed(sc: Scan, m: nat, ordered: bool): Scan
    requires m < |sc.ids|
  {
    var id := sc.ids[m];
    sc.(order := if ordered && (id.None? || id.value !in sc.seen) then sc.order + [m] else sc.order,
        seen := if id.Some? then sc.seen + {id.value} else sc.seen)
  }

  function Taken(sc: Scan, m: nat): Scan
    requires m < |sc.ids|
  {
    sc.(byId := Referenced(sc.byId, m, sc.ids[m]), toAdd := sc.toAdd + [m])
  }

  function Scanned(sc: Scan, item: Item, remove: bool): Scan
    requires item.Object? ==> item.n < |sc.ids|
  {
    match Get(sc.byId, sc.ids, item)
    case Some(e) =>
      if e < |sc.ids| then Passed(if remove then sc.(seen := sc.seen + {Cid(e)}) else sc, e, remove) else sc
    case None =>
      match item
      case Object(n) => Passed(Taken(sc, n), n, remove)
      case Attrs(id, valid) =>
        if !valid then sc
        else
          var made := sc.(ids := sc.ids + [id]);
          Passed(Taken(made, |sc.ids|), |sc.ids|, remove)
  }

  function ScannedAll(sc: Scan, items: seq<Item>, remove: bool): (r: Scan)
    requires Known(items, sc.ids)
    ensures sc.ids <= r.ids
  {
    if items == [] then sc
    else
      var before := ScannedAll(sc, items[..|items| - 1], remove);
      Scanned(before, items[|items| - 1], remove)
  }

  /** The models that are to go, as a list of arguments for `remove`. */
  function Unseen(models: seq<nat>, seen: set<Key>): (items: seq<Item>)
    ensures forall i {:trigger items[i]} :: 0 <= i < |items| ==>
          items[i].Object? && items[i].n in models && Cid(items[i].n) !in seen
  {
    if models == [] then []
    else
      var last := models[|models| - 1];
      Unseen(models[..|models| - 1], seen) + if Cid(last) in seen then [] else [Object(last)]
  }

  /** Where `splice` inserts: negative positions count from the end. */
  function Place(at: int, length: nat): (i: nat)
    ensures i <= length
  {
    if at < 0 then (if length + at < 0 then 0 else length + at) else if at < length then at else length
  }

  function Inserted(s: seq<nat>, at: int, more: seq<nat>): seq<nat>
    decreases |more|
  {
    if more == [] then s
    else
      var n := |more| - 1;
      var t := Inserted(s, at, more[..n]);
      var i := Place(at + n, |t|);
      t[..i] + [more[n]] + t[i..]
  }

  datatype Pair = Pair(coll: Coll, ids: Ids)

  /** The models that a loop up to `length` passes. */
  function Counted(c: Coll): (models: seq<nat>)
    ensures forall m :: m in models ==> m in c.models
  {
    if c.length >= |c.models| then c.models else if c.length <= 0 then [] else c.models[..c.length]
  }

  /** `set` without a comparator, with `add` on; `add` is this with `remove` off. */
  function SetAll(c: Coll, ids: Ids, items: seq<Item>, remove: bool, at: Option<int>): Pair
    requires Known(items, ids) && forall m {:trigger m in c.models} :: m in c.models ==> m < |ids|
  {
    var sc := ScannedAll(Scan(c.byId, ids, [], [], {}), items, remove);
    var indexed := c.(byId := sc.byId);
    var kept := if remove then RemovedAll(indexed, sc.ids, Unseen(Counted(c), sc.seen)) else indexed;
    if sc.toAdd == [] && sc.order == [] then Pair(kept, sc.ids)
    else
      Pair(kept.(length := kept.length + |sc.toAdd|,
                 models := if at.Some? then Inserted(kept.models, at.value, sc.toAdd)
                           else if remove then sc.order
                           else kept.models + sc.toAdd),
           sc.ids)
  }

  /** `reset`. */
  function Reset(ids: Ids, items: seq<Item>): Pair
    requires Known(items, ids)
  {
    SetAll(EMPTY, ids, items, false, None)
  }

  /** The collection's part when a listed model gets another id, outside of any other `set` of that model. */
  function IdChanged(c: Coll, ids: Ids, m: nat, id: Option<Key>): Pair
    requires m < |ids|
  {
    var fewer := if ids[m].Some? then c.byId - {ids[m].value} else c.byId;
    Pair(c.(byId := if m !in c.models || ids[m] == id then c.byId else if id.Some? then fewer[id.value := m]
      else fewer),
         ids[m := id])
  }
}
