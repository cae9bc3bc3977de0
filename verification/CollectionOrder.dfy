/** The order in which `set` leaves the models. */
module CollectionOrder {
  import opened Wrappers
  import opened CollectionState
  import opened CollectionTheorems

  /** No model object without an id is given twice. */
  ghost predicate NoIdlessTwice(items: seq<Item>, ids: Ids) {
    forall i, j {:trigger items[i], items[j]} ::
      0 <= i < j < |items| && items[i].Object? && items[i] == items[j] && items[i].n < |ids| ==> ids[items[i].n].Some?
  }

  /** The order after the items `done`: its models, and how they are marked; `missing` is about to be passed. */
  ghost predicate Ordered(sc: Scan, listed: set<nat>, done: seq<Item>, n0: nat, missing: set<nat>) {
    && NoRepeats(sc.order)
    && (forall m {:trigger m in sc.order} :: m in sc.order ==>
          m < |sc.ids| && (m in sc.toAdd || (m in listed && Cid(m) in sc.seen))
          && (sc.ids[m].Some? ==> sc.ids[m].value in sc.seen)
          && (sc.ids[m].None? && m < n0 ==> Object(m) in done))
    && (forall m {:trigger m in sc.toAdd} :: m in sc.toAdd && m !in missing ==> m in sc.order)
    && (forall m {:trigger Cid(m) in sc.seen} :: m in listed && Cid(m) in sc.seen && m !in missing ==> m in sc.order)
    && (forall k {:trigger k in sc.seen} :: k in sc.seen && k.Other? ==> k in sc.byId && sc.byId[k] in sc.order)
  }

  lemma PassedOrdered(sc: Scan, listed: set<nat>, done: seq<Item>, n0: nat, m: nat)
    requires ScanOk(sc, listed) && Ordered(sc, listed, done, n0, {m}) && m < |sc.ids|
    requires m in sc.toAdd || (m in listed && Cid(m) in sc.seen)
    requires sc.ids[m].None? ==> m !in sc.order && (m < n0 ==> Object(m) in done)
    ensures Ordered(Passed(sc, m, true), listed, done, n0, {})
  {
    assert m in listed + Members(sc.toAdd);
    var id := sc.ids[m];
    if id.Some? {
      assert id.value.Other? && sc.byId[id.value] == m;
    }
    if id.None? || id.value !in sc.seen {
      MembersAppend(sc.order, m);
      assert forall x :: x in sc.order + [m] <==> x in sc.order || x == m;
    }
  }

  lemma MarkedOrdered(sc: Scan, listed: set<nat>, done: seq<Item>, n0: nat, item: Item, e: nat)
    requires ScanOk(sc, listed) && Ordered(sc, listed, done, n0, {})
    ensures Ordered(sc.(seen := sc.seen + {Cid(e)}), listed, done + [item], n0, {e})
  {
    assert forall x :: x in done ==> x in done + [item];
  }

  lemma TakenOrdered(sc: Scan, listed: set<nat>, done: seq<Item>, n0: nat, item: Item, m: nat)
    requires ScanOk(sc, listed) && Ordered(sc, listed, done, n0, {})
    requires m < |sc.ids| && Cid(m) !in sc.byId && Look(sc.byId, sc.ids[m]).None?
    ensures Ordered(Taken(sc, m), listed, done + [item], n0, {m}) && m !in sc.order
  {
    assert forall x :: x in done ==> x in done + [item];
    assert forall x :: x in sc.toAdd + [m] <==> x in sc.toAdd || x == m;
    assert m !in listed + Members(sc.toAdd) by { AddIndexed(listed + Members(sc.toAdd), sc.byId, sc.ids, m); }
    assert m in sc.order ==> m in listed + Members(sc.toAdd);
    assert forall k :: k in sc.byId ==> Referenced(sc.byId, m, sc.ids[m])[k] == sc.byId[k];
  }

  lemma MadeOrdered(sc: Scan, listed: set<nat>, done: seq<Item>, n0: nat, id: Option<Key>)
    requires ScanOk(sc, listed) && Ordered(sc, listed, done, n0, {})
    ensures Ordered(sc.(ids := sc.ids + [id]), listed, done, n0, {})
  {
  }

  lemma SkippedOrdered(sc: Scan, listed: set<nat>, done: seq<Item>, n0: nat, item: Item)
    requires Ordered(sc, listed, done, n0, {})
    ensures Ordered(sc, listed, done + [item], n0, {})
  {
    assert forall x :: x in done ==> x in done + [item];
  }

  lemma ScannedOrdered(sc: Scan, listed: set<nat>, done: seq<Item>, n0: nat, item: Item)
    requires ScanOk(sc, listed) && Ordered(sc, listed, done, n0, {}) && n0 <= |sc.ids|
    requires item.Object? ==> item.n < n0 && (sc.ids[item.n].None? ==> item !in done)
    requires item.Attrs? && item.id.Some? ==> item.id.value.Other?
    ensures Ordered(Scanned(sc, item, true), listed, done + [item], n0, {})
  {
    hide Ordered;
    match Get(sc.byId, sc.ids, item)
    case Some(e) =>
      var marked := sc.(seen := sc.seen + {Cid(e)});
      MarkedOrdered(sc, listed, done, n0, item, e);
      IdlessFoundOnce(sc, listed, done, n0, item, e);
      assert item in done + [item];
      PassedOrdered(marked, listed, done + [item], n0, e);
    case None =>
      match item
      case Object(n) =>
        TakenOk(sc, listed, n);
        TakenOrdered(sc, listed, done, n0, item, n);
        assert item in done + [item];
        PassedOrdered(Taken(sc, n), listed, done + [item], n0, n);
      case Attrs(id, valid) =>
        if !valid {
          SkippedOrdered(sc, listed, done, n0, item);
        } else {
          var made, m := sc.(ids := sc.ids + [id]), |sc.ids|;
          MadeOk(sc, listed, id);
          FreshIndexed(listed + Members(sc.toAdd), sc.byId, sc.ids, id);
          MadeOrdered(sc, listed, done, n0, id);
          TakenOrdered(made, listed, done, n0, item, m);
          PassedOrdered(Taken(made, m), listed, done + [item], n0, m);
        }
  }

  /** A model without an id that is found has not been passed before. */
  lemma IdlessFoundOnce(sc: Scan, listed: set<nat>, done: seq<Item>, n0: nat, item: Item, e: nat)
    requires Ordered(sc, listed, done, n0, {}) && e < |sc.ids| && n0 <= |sc.ids|
    requires sc.ids[e].None? ==> item == Object(e)
    requires item.Object? ==> item.n < n0 && (sc.ids[item.n].None? ==> item !in done)
    ensures sc.ids[e].None? ==> e !in sc.order && e < n0
  {
  }

  lemma {:induction false} ScannedAllOrdered(c: Coll, ids: Ids, items: seq<Item>)
    requires Agrees(c, ids) && PlainIds(ids) && Known(items, ids) && PlainItems(items) && NoIdlessTwice(items, ids)
    ensures var sc := ScannedAll(Scan(c.byId, ids, [], [], {}), items, true);
      ScanOk(sc, Members(c.models)) && Ordered(sc, Members(c.models), items, |ids|, {})
  {
    var start, listed := Scan(c.byId, ids, [], [], {}), Members(c.models);
    assert listed + {} == listed;
    assert ScanOk(start, listed);
    ScannedAllOk(start, listed, items, true);
    if items != [] {
      var n := |items| - 1;
      var init := items[..n];
      ScannedAllOk(start, listed, init, true);
      ScannedAllOrdered(c, ids, init);
      ScannedOrdered(ScannedAll(start, init, true), listed, init, |ids|, items[n]);
      assert init + [items[n]] == items;
    }
  }
}
