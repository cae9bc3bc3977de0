/** What `set`, `add`, `reset` and id changes do to a Collection. */
module CollectionSet {
  import opened Wrappers
  import opened CollectionState
  import opened CollectionTheorems
  import opened CollectionOrder

  // ---------- the models that go ----------

  function UnseenMembers(models: seq<nat>, seen: set<Key>): set<nat> {
    set m | m in models && Cid(m) !in seen
  }

  lemma UnseenLast(models: seq<nat>, seen: set<Key>)
    requires models != []
    ensures var n := |models| - 1;
      UnseenMembers(models, seen) == UnseenMembers(models[..n], seen) + if Cid(models[n]) in seen then {}
        else {models[n]}
    ensures Members(models[..|models| - 1]) <= Members(models)
  {
  }

  lemma MeantMore(byId: map<Key, nat>, ids: Ids, items: seq<Item>, item: Item, m: nat)
    requires Known(items, ids) && (item.Object? ==> item.n < |ids|) && Get(byId, ids, item) == Some(m)
    ensures Known(items + [item], ids) && Meant(byId, ids, items + [item]) == Meant(byId, ids, items) + {m}
  {
    assert (items + [item])[..|items|] == items;
  }

  lemma {:induction false} UnseenMeant(models: seq<nat>, seen: set<Key>, byId: map<Key, nat>, ids: Ids,
          listed: set<nat>)
    requires Indexed(listed, byId, ids) && Members(models) <= listed
    ensures Known(Unseen(models, seen), ids)
    ensures Meant(byId, ids, Unseen(models, seen)) == UnseenMembers(models, seen)
  {
    hide Members, UnseenMembers, Meant;
    if models == [] {
      NoneUnseen(seen, byId, ids);
    } else {
      var n := |models| - 1;
      var init, m := models[..n], models[n];
      UnseenLast(models, seen);
      UnseenMeant(init, seen, byId, ids, listed);
      if Cid(m) !in seen {
        ListedFound(models, m, listed, byId, ids);
        MeantMore(byId, ids, Unseen(init, seen), Object(m), m);
      } else {
        assert Unseen(models, seen) == Unseen(init, seen);
      }
    }
  }

  lemma NoneUnseen(seen: set<Key>, byId: map<Key, nat>, ids: Ids)
    ensures Meant(byId, ids, []) == UnseenMembers([], seen)
  {
  }

  lemma ListedFound(models: seq<nat>, m: nat, listed: set<nat>, byId: map<Key, nat>, ids: Ids)
    requires m in models && Members(models) <= listed && Indexed(listed, byId, ids)
    ensures m < |ids| && Get(byId, ids, Object(m)) == Some(m)
  {
    assert m in Members(models) && m in listed;
  }

  // ---------- insertion ----------

  lemma {:induction false} InsertedMembers(s: seq<nat>, at: int, more: seq<nat>)
    requires NoRepeats(s) && NoRepeats(more) && Members(s) !! Members(more)
    ensures NoRepeats(Inserted(s, at, more)) && |Inserted(s, at, more)| == |s| + |more|
    ensures Members(Inserted(s, at, more)) == Members(s) + Members(more)
    decreases |more|
  {
    hide Place;
    if more == [] {
      assert Members(s) + {} == Members(s);
    } else {
      var n := |more| - 1;
      LastMember(more);
      hide Members, NoRepeats;
      InsertedMembers(s, at, more[..n]);
    }
  }

  lemma LastMember(more: seq<nat>)
    requires NoRepeats(more) && more != []
    ensures var n := |more| - 1;
      NoRepeats(more[..n]) && Members(more) == Members(more[..n]) + {more[n]} && more[n] !in Members(more[..n])
  {
    assert more == more[..|more| - 1] + [more[|more| - 1]];
    MembersAppend(more[..|more| - 1], more[|more| - 1]);
  }

  // ---------- the whole of set ----------

  ghost predicate Given(c: Coll, ids: Ids, items: seq<Item>) {
    && Agrees(c, ids) && PlainIds(ids) && Known(items, ids) && PlainItems(items)
    && forall m {:trigger m in c.models} :: m in c.models ==> m < |ids|
  }

  /** The part before the models are put together: the loop over the items, and the removal. */
  lemma ScanFacts(c: Coll, ids: Ids, items: seq<Item>, remove: bool)
    requires Given(c, ids, items)
    ensures ScanOk(ScannedAll(Scan(c.byId, ids, [], [], {}), items, remove), Members(c.models))
  {
    assert Members(c.models) + {} == Members(c.models);
    ScannedAllOk(Scan(c.byId, ids, [], [], {}), Members(c.models), items, remove);
  }

  lemma KeptFacts(c: Coll, ids: Ids, sc: Scan)
    requires NoRepeats(c.models) && c.length == |c.models| && ScanOk(sc, Members(c.models))
    ensures Known(Unseen(c.models, sc.seen), sc.ids)
    ensures var kept := RemovedAll(c.(byId := sc.byId), sc.ids, Unseen(c.models, sc.seen));
      Holding(kept, sc.ids, Members(sc.toAdd)) && kept.models == Without(c.models, UnseenMembers(c.models, sc.seen))
  {
    var indexed, items := c.(byId := sc.byId), Unseen(c.models, sc.seen);
    UnseenMeant(c.models, sc.seen, sc.byId, sc.ids, Members(c.models) + Members(sc.toAdd));
    RemovedAllIs(indexed, sc.ids, items, Members(sc.toAdd));
  }

  /** New models put in any place behind or between the kept ones. */
  lemma PutTogether(kept: Coll, ids: Ids, toAdd: seq<nat>, models: seq<nat>)
    requires Holding(kept, ids, Members(toAdd)) && NoRepeats(toAdd)
    requires NoRepeats(models) && Members(models) == Members(kept.models) + Members(toAdd)
    ensures Agrees(kept.(length := kept.length + |toAdd|, models := models), ids)
  {
    MembersCount(models);
    MembersCount(kept.models);
    MembersCount(toAdd);
  }

  lemma OrderTogether(c: Coll, sc: Scan, items: seq<Item>, n0: nat, kept: seq<nat>)
    requires Ordered(sc, Members(c.models), items, n0, {})
    requires kept == Without(c.models, UnseenMembers(c.models, sc.seen))
    ensures Members(sc.order) == Members(kept) + Members(sc.toAdd)
  {
    WithoutMembers(c.models, UnseenMembers(c.models, sc.seen));
    forall m ensures m in sc.order <==> m in Members(kept) + Members(sc.toAdd) {
      assert m in sc.order ==> m in sc.toAdd || (m in Members(c.models) && Cid(m) in sc.seen);
      assert Cid(m) in sc.seen && m in Members(c.models) ==> m in sc.order;
    }
  }

  lemma ConcatMembers(a: seq<nat>, b: seq<nat>)
    requires NoRepeats(a) && NoRepeats(b) && Members(a) !! Members(b)
    ensures NoRepeats(a + b) && Members(a + b) == Members(a) + Members(b)
  {
    forall i, j | 0 <= i < j < |a + b| ensures (a + b)[i] != (a + b)[j] {
      if i < |a| <= j {
        assert a[i] in Members(a) && b[j - |a|] in Members(b);
      }
    }
  }

  lemma NothingToAdd(kept: Coll, ids: Ids)
    requires Holding(kept, ids, Members([]))
    ensures Agrees(kept, ids)
  {
    assert Members(kept.models) + Members([]) == Members(kept.models);
  }

  /** `add`, and `set` that removes nothing or inserts at a position, keep list and index in agreement. */
  lemma AddAgrees(c: Coll, ids: Ids, items: seq<Item>, remove: bool, at: Option<int>)
    requires Given(c, ids, items) && (!remove || at.Some?)
    ensures var p := SetAll(c, ids, items, remove, at); Agrees(p.coll, p.ids) && PlainIds(p.ids)
  {
    hide ScannedAll, RemovedAll, Indexed;
    var sc := ScannedAll(Scan(c.byId, ids, [], [], {}), items, remove);
    ScanFacts(c, ids, items, remove);
    var indexed := c.(byId := sc.byId);
    if remove {
      KeptFacts(c, ids, sc);
    }
    var kept := if remove then RemovedAll(indexed, sc.ids, Unseen(c.models, sc.seen)) else indexed;
    assert Holding(kept, sc.ids, Members(sc.toAdd));
    if sc.toAdd == [] {
      NothingToAdd(kept, sc.ids);
    }
    if at.Some? {
      InsertedMembers(kept.models, at.value, sc.toAdd);
      PutTogether(kept, sc.ids, sc.toAdd, Inserted(kept.models, at.value, sc.toAdd));
    } else {
      ConcatMembers(kept.models, sc.toAdd);
      PutTogether(kept, sc.ids, sc.toAdd, kept.models + sc.toAdd);
    }
  }

  /** `set` with its default options. */
  lemma SetAgrees(c: Coll, ids: Ids, items: seq<Item>)
    requires Given(c, ids, items) && NoIdlessTwice(items, ids)
    ensures var p, sc := SetAll(c, ids, items, true, None), ScannedAll(Scan(c.byId, ids, [], [], {}), items, true);
      Agrees(p.coll, p.ids) && PlainIds(p.ids) && p.coll.models == sc.order && p.ids == sc.ids
  {
    hide ScannedAll, RemovedAll, Indexed, Ordered, Unseen;
    var sc := ScannedAll(Scan(c.byId, ids, [], [], {}), items, true);
    ScanFacts(c, ids, items, true);
    KeptFacts(c, ids, sc);
    ScannedAllOrdered(c, ids, items);
    var kept := RemovedAll(c.(byId := sc.byId), sc.ids, Unseen(c.models, sc.seen));
    OrderTogether(c, sc, items, |ids|, kept.models);
    if sc.toAdd == [] && sc.order == [] {
      NothingToAdd(kept, sc.ids);
      EmptyMembers(kept.models);
    } else {
      PutTogether(kept, sc.ids, sc.toAdd, sc.order);
    }
  }

  lemma EmptyMembers(s: seq<nat>)
    ensures s == [] || Members(s) != {}
  {
    if s != [] {
      assert s[0] in Members(s);
    }
  }

  // ---------- exactly when the default `set` keeps the agreement ----------

  lemma ScannedGrows(sc: Scan, item: Item)
    requires item.Object? ==> item.n < |sc.ids|
    ensures sc.order <= Scanned(sc, item, true).order
  {
    hide Get;
  }

  lemma {:induction false} OrderGrows(sc: Scan, items: seq<Item>, k: nat)
    requires Known(items, sc.ids) && k <= |items|
    ensures ScannedAll(sc, items[..k], true).order <= ScannedAll(sc, items, true).order
    decreases |items| - k
  {
    if k == |items| {
      assert items[..k] == items;
    } else {
      hide Scanned;
      OrderGrows(sc, items, k + 1);
      assert items[..k + 1][..k] == items[..k];
      ScannedGrows(ScannedAll(sc, items[..k], true), items[k]);
    }
  }

  lemma IdlessScanned(sc: Scan, listed: set<nat>, n: nat)
    requires ScanOk(sc, listed) && n < |sc.ids| && sc.ids[n].None?
    ensures Scanned(sc, Object(n), true).order == sc.order + [n]
  {
    GetListed(listed + Members(sc.toAdd), sc.byId, sc.ids, Object(n));
    hide ScanOk;
  }

  /** A model without an id goes into the order each time it is given. */
  lemma IdlessPassed(c: Coll, ids: Ids, items: seq<Item>, i: nat)
    requires Given(c, ids, items) && i < |items| && items[i].Object? && ids[items[i].n].None?
    ensures var start := Scan(c.byId, ids, [], [], {});
      ScannedAll(start, items[..i + 1], true).order == ScannedAll(start, items[..i], true).order + [items[i].n]
  {
    var start, init := Scan(c.byId, ids, [], [], {}), items[..i];
    assert items[..i + 1][..i] == init;
    ScanFacts(c, ids, init, true);
    var sc := ScannedAll(start, init, true);
    hide Scanned, ScanOk, Agrees;
    assert sc.ids[items[i].n] == ids[items[i].n];
    IdlessScanned(sc, Members(c.models), items[i].n);
  }

  lemma IdlessTwiceRepeats(c: Coll, ids: Ids, items: seq<Item>, i: nat, j: nat)
    requires Given(c, ids, items) && i < j < |items| && items[i] == items[j] && items[i].Object?
    requires ids[items[i].n].None?
    ensures var order := ScannedAll(Scan(c.byId, ids, [], [], {}), items, true).order; order != [] && !NoRepeats(order)
  {
    hide ScannedAll, NoRepeats;
    var start, n := Scan(c.byId, ids, [], [], {}), items[i].n;
    IdlessPassed(c, ids, items, i);
    IdlessPassed(c, ids, items, j);
    OrderGrows(start, items[..j], i + 1);
    OrderGrows(start, items, j + 1);
    assert items[..j][..i + 1] == items[..i + 1];
    var a, b, order := ScannedAll(start, items[..i], true).order, ScannedAll(start, items[..j], true).order,
        ScannedAll(start, items, true).order;
    TwiceInOrder(a, b, order, n);
  }

  lemma TwiceInOrder(a: seq<nat>, b: seq<nat>, order: seq<nat>, n: nat)
    requires a + [n] <= b && b + [n] <= order
    ensures order != [] && !NoRepeats(order)
  {
    assert (a + [n])[|a|] == n && (b + [n])[|b|] == n;
    assert order[|a|] == n && order[|b|] == n;
  }

  /** The default `set` keeps list and index in agreement exactly if no model object without an id is given twice. */
  lemma SetAgreesExactly(c: Coll, ids: Ids, items: seq<Item>)
    requires Given(c, ids, items)
    ensures var p := SetAll(c, ids, items, true, None);
      Agrees(p.coll, p.ids) <==> NoIdlessTwice(items, ids)
  {
    if NoIdlessTwice(items, ids) {
      hide Agrees, ScannedAll;
      SetAgrees(c, ids, items);
    } else {
      var i, j :| 0 <= i < j < |items| && items[i].Object? && items[i] == items[j] && ids[items[i].n].None?;
      IdlessTwiceRepeats(c, ids, items, i, j);
    }
  }

  // ---------- what `set` makes of the list ----------

  /** What an item stands for: a model object there before, or a new one with an id. */
  datatype Role = Old(n: nat) | New(id: Option<Key>)

  function IdOf(item: Item, ids: Ids): Option<Key>
    requires item.Object? ==> item.n < |ids|
  {
    match item case Object(n) => ids[n] case Attrs(id, _) => id
  }

  function RoleOf(byId: map<Key, nat>, ids: Ids, item: Item): Role
    requires item.Object? ==> item.n < |ids|
  {
    if Get(byId, ids, item).Some? then Old(Get(byId, ids, item).value)
    else match item case Object(n) => Old(n) case Attrs(id, _) => New(id)
  }

  /** Attributes that make no valid model and belong to none in the collection. */
  predicate Invalid(byId: map<Key, nat>, ids: Ids, item: Item)
    requires item.Object? ==> item.n < |ids|
  {
    item.Attrs? && !item.valid && Get(byId, ids, item).None?
  }

  /** The ids of the valid items. */
  function IdsGiven(byId: map<Key, nat>, ids: Ids, items: seq<Item>): set<Key>
    requires Known(items, ids)
  {
    if items == [] then {}
    else
      var last := items[|items| - 1];
      IdsGiven(byId, ids, items[..|items| - 1])
      + if Invalid(byId, ids, last) || IdOf(last, ids).None? then {} else {IdOf(last, ids).value}
  }

  /** The valid items in their order, without those whose id was there before. */
  function Roles(byId: map<Key, nat>, ids: Ids, items: seq<Item>): seq<Role>
    requires Known(items, ids)
  {
    if items == [] then []
    else
      var init, last := items[..|items| - 1], items[|items| - 1];
      var id := IdOf(last, ids);
      Roles(byId, ids, init)
      + if Invalid(byId, ids, last) || (id.Some? && id.value in IdsGiven(byId, ids, init)) then []
        else [RoleOf(byId, ids, last)]
  }

  /** The models of the list play the roles: old ones are the same objects, new ones were made with the id. */
  ghost predicate Plays(models: seq<nat>, roles: seq<Role>, ids: Ids, n0: nat) {
    && |models| == |roles|
    && forall i {:trigger models[i]} {:trigger roles[i]} :: 0 <= i < |models| ==>
         models[i] < |ids|
         && match roles[i] case Old(n) => models[i] == n case New(id) => models[i] >= n0 && ids[models[i]] == id
  }
}
