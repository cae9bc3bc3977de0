/** Id changes, additions, and whole runs of operations on a Collection. */
module CollectionRuns {
  import opened Wrappers
  import opened CollectionState
  import opened CollectionTheorems
  import opened CollectionOrder
  import opened CollectionSet
  import opened CollectionRoles

  // ---------- id changes ----------

  /** Nobody else in the collection has the id. */
  ghost predicate IdFree(c: Coll, m: nat, id: Option<Key>) {
    m in c.models && id.Some? && id.value in c.byId ==> c.byId[id.value] == m
  }

  /** A change of id keeps list and index in agreement exactly if no other listed model has the new id. */
  lemma IdChangeAgreesExactly(c: Coll, ids: Ids, m: nat, id: Option<Key>)
    requires Agrees(c, ids) && PlainIds(ids) && m < |ids| && (id.Some? ==> id.value.Other?)
    ensures var p := IdChanged(c, ids, m, id); PlainIds(p.ids) && (Agrees(p.coll, p.ids) <==> IdFree(c, m, id))
  {
    var p, listed := IdChanged(c, ids, m, id), Members(c.models);
    assert m in c.models <==> m in listed;
    if m in c.models && ids[m] != id && !IdFree(c, m, id) {
      var x := c.byId[id.value];
      assert x in listed && x != m && p.ids[x] == id && p.coll.byId[id.value] == m;
    }
  }

  // ---------- additions ----------

  /** `add` leaves the models that are there in place and puts behind them, in the order given, exactly the models of
      the valid items that are neither in the collection nor given before: model objects as they are, attributes as
      new models with their id. */
  lemma AddExactly(c: Coll, ids: Ids, items: seq<Item>)
    requires Given(c, ids, items)
    ensures var p := SetAll(c, ids, items, false, None);
      && Agrees(p.coll, p.ids) && PlainIds(p.ids) && ids <= p.ids && c.models <= p.coll.models
      && Plays(p.coll.models[|c.models|..], Joining(c.byId, ids, items), p.ids, |ids|)
  {
    hide Indexed, ScannedAll, Get, Joining, Plays;
    AddAgrees(c, ids, items, false, None);
    NothingOrdered(Scan(c.byId, ids, [], [], {}), items);
    JoinedAll(c, ids, items);
    var sc := ScannedAll(Scan(c.byId, ids, [], [], {}), items, false);
    assert (c.models + sc.toAdd)[|c.models|..] == sc.toAdd;
    assert c.models[|c.models|..] == [];
  }

  lemma {:induction false} NothingOrdered(sc: Scan, items: seq<Item>)
    requires Known(items, sc.ids) && sc.order == []
    ensures ScannedAll(sc, items, false).order == []
  {
    if items != [] {
      NothingOrdered(sc, items[..|items| - 1]);
    }
  }

  // ---------- runs ----------

  datatype Op =
    | AddOp(items: seq<Item>, at: Option<int>)
    | SetOp(items: seq<Item>)
    | SetAtOp(items: seq<Item>, place: int)
    | RemoveOp(items: seq<Item>)
    | ResetOp(items: seq<Item>)
    | ChangeIdOp(m: nat, id: Option<Key>)

  /** What the callers are asked for: ids are unique and no client ids, and a list for `set` has no model object
      without an id twice. */
  ghost predicate Allowed(p: Pair, op: Op) {
    match op
    case ChangeIdOp(m, id) => m < |p.ids| && (id.Some? ==> id.value.Other?) && IdFree(p.coll, m, id)
    case _ => Known(op.items, p.ids) && PlainItems(op.items) && (op.SetOp? ==> NoIdlessTwice(op.items, p.ids))
  }

  ghost predicate Sound(p: Pair) {
    Agrees(p.coll, p.ids) && PlainIds(p.ids)
  }

  lemma SoundGiven(p: Pair, items: seq<Item>)
    requires Sound(p) && Known(items, p.ids) && PlainItems(items)
    ensures Given(p.coll, p.ids, items)
  {
    assert forall m :: m in p.coll.models ==> m in Members(p.coll.models);
  }

  lemma EmptyAgrees(ids: Ids)
    ensures Agrees(EMPTY, ids)
  {
  }

  ghost function Step(p: Pair, op: Op): Pair
    requires Sound(p) && Allowed(p, op)
  {
    match op
    case ChangeIdOp(m, id) => IdChanged(p.coll, p.ids, m, id)
    case RemoveOp(items) => Pair(RemovedAll(p.coll, p.ids, items), p.ids)
    case ResetOp(items) => Reset(p.ids, items)
    case AddOp(items, at) => assert Given(p.coll, p.ids, items) by { SoundGiven(p, items); }
                             SetAll(p.coll, p.ids, items, false, at)
    case SetOp(items) => assert Given(p.coll, p.ids, items) by { SoundGiven(p, items); }
                         SetAll(p.coll, p.ids, items, true, None)
    case SetAtOp(items, at) => assert Given(p.coll, p.ids, items) by { SoundGiven(p, items); }
                               SetAll(p.coll, p.ids, items, true, Some(at))
  }

  lemma StepSound(p: Pair, op: Op)
    requires Sound(p) && Allowed(p, op)
    ensures Sound(Step(p, op))
  {
    hide Agrees, SetAll, RemovedAll, IdChanged, NoIdlessTwice, IdFree;
    match op
    case ChangeIdOp(m, id) => IdChangeAgreesExactly(p.coll, p.ids, m, id);
    case RemoveOp(items) => RemoveExactly(p.coll, p.ids, items);
    case ResetOp(items) =>
      EmptyAgrees(p.ids);
      SoundGiven(Pair(EMPTY, p.ids), items);
      AddAgrees(EMPTY, p.ids, items, false, None);
    case AddOp(items, at) =>
      SoundGiven(p, items);
      AddAgrees(p.coll, p.ids, items, false, at);
    case SetOp(items) =>
      SoundGiven(p, items);
      SetAgrees(p.coll, p.ids, items);
    case SetAtOp(items, at) =>
      SoundGiven(p, items);
      AddAgrees(p.coll, p.ids, items, true, Some(at));
  }

  /** A run in which every operation is allowed where it is called. */
  ghost predicate Runs(trace: seq<Pair>, ops: seq<Op>) {
    && |trace| == |ops| + 1
    && forall i {:trigger ops[i]} {:trigger trace[i]} :: 0 <= i < |ops| && Sound(trace[i]) ==>
         Allowed(trace[i], ops[i]) && trace[i + 1] == Step(trace[i], ops[i])
  }

  /** List and index agree in every state of every run that starts with an empty collection. */
  lemma {:induction false} AlwaysAgrees(trace: seq<Pair>, ops: seq<Op>, k: nat)
    requires Runs(trace, ops) && k < |trace|
    requires trace[0].coll == EMPTY && PlainIds(trace[0].ids)
    ensures Agrees(trace[k].coll, trace[k].ids)
    ensures Sound(trace[k])
  {
    hide Agrees, Allowed, PlainIds;
    if k == 0 {
      EmptyAgrees(trace[0].ids);
    } else {
      AlwaysAgrees(trace, ops, k - 1);
      assert trace[k - 1 + 1] == Step(trace[k - 1], ops[k - 1]);
      StepSound(trace[k - 1], ops[k - 1]);
    }
  }
}
