/** The default `set` makes the list exactly what it is given. */
module CollectionRoles {
  import opened Wrappers
  import opened CollectionState
  import opened CollectionTheorems
  import opened CollectionOrder
  import opened CollectionSet

  ghost predicate Extends(byId: map<Key, nat>, byId': map<Key, nat>) {
    forall k {:trigger k in byId'} {:trigger k in byId} :: k in byId ==> k in byId' && byId'[k] == byId[k]
  }

  /** After the items `done` the order plays their roles, and the ids seen are the ids given. */
  ghost predicate Cast(sc: Scan, byId: map<Key, nat>, ids: Ids, done: seq<Item>)
    requires Known(done, ids)
  {
    && ids <= sc.ids && Extends(byId, sc.byId)
    && Plays(sc.order, Roles(byId, ids, done), sc.ids, |ids|)
    && (forall k: Key {:trigger k in sc.seen} :: k.Other? ==> (k in sc.seen <==> k in IdsGiven(byId, ids, done)))
  }

  lemma GivenMore(byId: map<Key, nat>, ids: Ids, done: seq<Item>, item: Item)
    requires Known(done, ids) && (item.Object? ==> item.n < |ids|)
    ensures Known(done + [item], ids)
    ensures var id := IdOf(item, ids);
      IdsGiven(byId, ids, done + [item])
      == IdsGiven(byId, ids, done) + if Invalid(byId, ids, item) || id.None? then {} else {id.value}
    ensures var id := IdOf(item, ids);
      Roles(byId, ids, done + [item])
      == Roles(byId, ids, done)
         + if Invalid(byId, ids, item) || (id.Some? && id.value in IdsGiven(byId, ids, done)) then []
           else [RoleOf(byId, ids, item)]
  {
    assert (done + [item])[..|done|] == done;
  }

  /** A found model that is passed for the first time was in the collection before. */
  lemma FoundBefore(sc: Scan, listed: set<nat>, byId: map<Key, nat>, ids: Ids, done: seq<Item>, item: Item, e: nat)
    requires ScanOk(sc, listed) && Ordered(sc, listed, done, |ids|, {}) && ids <= sc.ids && (item.Object? ==>
          item.n < |ids|)
    requires Indexed(listed, byId, ids) && Found(listed + Members(sc.toAdd), sc.ids, item, e)
    requires sc.ids[e].None? ==> e !in sc.order && e < |ids|
    ensures sc.ids[e] == IdOf(item, ids)
    ensures sc.ids[e].None? || sc.ids[e].value !in sc.seen ==> Get(byId, ids, item) == Some(e)
    ensures e !in listed && sc.ids[e].Some? ==> sc.ids[e].value in sc.seen
  {
    if e in sc.toAdd {
      assert e in sc.order;
    } else {
      assert e in listed;
    }
  }

  lemma RoleFirst(sc: Scan, byId: map<Key, nat>, ids: Ids, done: seq<Item>, item: Item, e: nat)
    requires Known(done, ids) && (item.Object? ==> item.n < |ids|) && e < |sc.ids|
    requires Cast(sc, byId, ids, done) && Get(sc.byId, sc.ids, item) == Some(e) && sc.ids[e] == IdOf(item, ids)
    requires Get(byId, ids, item) == Some(e)
    requires IdOf(item, ids).Some? ==> IdOf(item, ids).value.Other? && IdOf(item, ids).value !in sc.seen
    ensures Known(done + [item], ids) && Cast(Scanned(sc, item, true), byId, ids, done + [item])
  {
    GivenMore(byId, ids, done, item);
    hide Roles, IdsGiven, Plays, Invalid, RoleOf, Extends, Get;
  }

  lemma RoleRepeated(sc: Scan, byId: map<Key, nat>, ids: Ids, done: seq<Item>, item: Item, e: nat)
    requires Known(done, ids) && (item.Object? ==> item.n < |ids|) && e < |sc.ids|
    requires Cast(sc, byId, ids, done) && Get(sc.byId, sc.ids, item) == Some(e) && sc.ids[e] == IdOf(item, ids)
    requires IdOf(item, ids).Some? && IdOf(item, ids).value.Other? && IdOf(item, ids).value in sc.seen
    ensures Known(done + [item], ids) && Cast(Scanned(sc, item, true), byId, ids, done + [item])
  {
    GivenMore(byId, ids, done, item);
    hide Roles, IdsGiven, Plays, Invalid, RoleOf, Extends, Get;
    var k := IdOf(item, ids).value;
    assert k in IdsGiven(byId, ids, done);
    assert IdsGiven(byId, ids, done) + {k} == IdsGiven(byId, ids, done);
    assert IdsGiven(byId, ids, done) + {} == IdsGiven(byId, ids, done);
  }

  lemma RoleFound(sc: Scan, byId: map<Key, nat>, ids: Ids, done: seq<Item>, item: Item, e: nat)
    requires Known(done, ids) && (item.Object? ==> item.n < |ids|) && e < |sc.ids|
    requires Cast(sc, byId, ids, done) && Get(sc.byId, sc.ids, item) == Some(e) && sc.ids[e] == IdOf(item, ids)
    requires sc.ids[e].None? || sc.ids[e].value !in sc.seen ==> Get(byId, ids, item) == Some(e)
    requires IdOf(item, ids).Some? ==> IdOf(item, ids).value.Other?
    ensures Known(done + [item], ids) && Cast(Scanned(sc, item, true), byId, ids, done + [item])
  {
    hide Cast, Scanned;
    var id := IdOf(item, ids);
    if id.None? || id.value !in sc.seen {
      RoleFirst(sc, byId, ids, done, item, e);
    } else {
      RoleRepeated(sc, byId, ids, done, item, e);
    }
  }

  lemma RoleTaken(sc: Scan, byId: map<Key, nat>, ids: Ids, done: seq<Item>, n: nat)
    requires Known(done, ids) && n < |ids| && Cast(sc, byId, ids, done) && Get(sc.byId, sc.ids, Object(n)).None?
    requires ids[n].Some? ==> ids[n].value.Other? && ids[n].value !in sc.seen
    ensures Known(done + [Object(n)], ids) && Cast(Scanned(sc, Object(n), true), byId, ids, done + [Object(n)])
  {
    GivenMore(byId, ids, done, Object(n));
    hide Roles, IdsGiven, Plays, Extends, Invalid, RoleOf;
  }

  lemma RoleMade(sc: Scan, byId: map<Key, nat>, ids: Ids, done: seq<Item>, id: Option<Key>, valid: bool)
    requires Known(done, ids) && Cast(sc, byId, ids, done) && Get(sc.byId, sc.ids, Attrs(id, valid)).None?
    requires id.Some? ==> id.value.Other? && id.value !in sc.seen
    requires Cid(|sc.ids|) !in sc.byId
    ensures Known(done + [Attrs(id, valid)], ids)
    ensures Cast(Scanned(sc, Attrs(id, valid), true), byId, ids, done + [Attrs(id, valid)])
  {
    var item := Attrs(id, valid);
    GivenMore(byId, ids, done, item);
    hide Roles, IdsGiven, Plays, Extends, Invalid, RoleOf;
  }

  lemma CastStep(sc: Scan, listed: set<nat>, byId: map<Key, nat>, ids: Ids, done: seq<Item>, item: Item)
    requires ScanOk(sc, listed) && Ordered(sc, listed, done, |ids|, {}) && Indexed(listed, byId, ids)
    requires Known(done, ids) && Cast(sc, byId, ids, done) && PlainIds(ids)
    requires item.Object? ==> item.n < |ids| && (ids[item.n].None? ==> item !in done)
    requires item.Attrs? && item.id.Some? ==> item.id.value.Other?
    ensures Known(done + [item], ids) && Cast(Scanned(sc, item, true), byId, ids, done + [item])
  {
    hide Ordered, Cast;
    CastPrefix(sc, byId, ids, done);
    var all := listed + Members(sc.toAdd);
    match Get(sc.byId, sc.ids, item)
    case Some(e) =>
      IdlessFoundOnce(sc, listed, done, |ids|, item, e);
      FoundBefore(sc, listed, byId, ids, done, item, e);
      RoleFound(sc, byId, ids, done, item, e);
    case None =>
      SeenIndexed(sc, listed, done, |ids|);
      match item
      case Object(n) => RoleTaken(sc, byId, ids, done, n);
      case Attrs(id, valid) =>
        FreshIndexed(all, sc.byId, sc.ids, id);
        RoleMade(sc, byId, ids, done, id, valid);
  }

  lemma CastPrefix(sc: Scan, byId: map<Key, nat>, ids: Ids, done: seq<Item>)
    requires Known(done, ids) && Cast(sc, byId, ids, done)
    ensures ids <= sc.ids && |ids| <= |sc.ids|
  {
  }

  lemma SeenIndexed(sc: Scan, listed: set<nat>, done: seq<Item>, n0: nat)
    requires Ordered(sc, listed, done, n0, {})
    ensures forall k: Key {:trigger k in sc.seen} :: k in sc.seen && k.Other? ==> k in sc.byId
  {
  }

  lemma {:induction false} CastAll(c: Coll, ids: Ids, items: seq<Item>)
    requires Given(c, ids, items) && NoIdlessTwice(items, ids)
    ensures Cast(ScannedAll(Scan(c.byId, ids, [], [], {}), items, true), c.byId, ids, items)
  {
    hide Ordered, Cast, Scanned, Indexed, ScanOk;
    var start := Scan(c.byId, ids, [], [], {});
    if items == [] {
      NothingCast(c, ids);
    } else {
      var n := |items| - 1;
      var init := items[..n];
      CastAll(c, ids, init);
      ScannedAllOrdered(c, ids, init);
      CastStep(ScannedAll(start, init, true), Members(c.models), c.byId, ids, init, items[n]);
      assert init + [items[n]] == items;
    }
  }

  lemma NothingCast(c: Coll, ids: Ids)
    ensures Cast(Scan(c.byId, ids, [], [], {}), c.byId, ids, [])
  {
  }

  /** With its default options `set` leaves exactly the valid models it is given, in the order they are given and
      each id once: model objects that were there before, or were given, as the same objects, and all others new. */
  lemma SetExactly(c: Coll, ids: Ids, items: seq<Item>)
    requires Given(c, ids, items) && NoIdlessTwice(items, ids)
    ensures var p := SetAll(c, ids, items, true, None);
      Agrees(p.coll, p.ids) && Plays(p.coll.models, Roles(c.byId, ids, items), p.ids, |ids|)
  {
    hide ScannedAll, SetAll, Agrees;
    SetAgrees(c, ids, items);
    CastAll(c, ids, items);
  }

  // ---------- what `add` appends ----------

  /** The roles of the valid items that are neither in the collection nor given before. */
  function Joining(byId: map<Key, nat>, ids: Ids, items: seq<Item>): seq<Role>
    requires Known(items, ids)
  {
    if items == [] then []
    else
      var init, last := items[..|items| - 1], items[|items| - 1];
      Joining(byId, ids, init) + if Stays(byId, ids, init, last) then [] else [RoleOf(byId, ids, last)]
  }

  /** Item `last`, given after `init`, adds no model. */
  predicate Stays(byId: map<Key, nat>, ids: Ids, init: seq<Item>, last: Item)
    requires Known(init, ids) && (last.Object? ==> last.n < |ids|)
  {
    var id := IdOf(last, ids);
    || Get(byId, ids, last).Some? || (last.Attrs? && !last.valid)
    || (id.Some? && id.value in IdsGiven(byId, ids, init)) || (last.Object? && last in init)
  }

  /** What the loop of `add` has found out after the items `done`. */
  ghost predicate Joined(sc: Scan, byId: map<Key, nat>, ids: Ids, done: seq<Item>)
    requires Known(done, ids)
  {
    && ids <= sc.ids && Extends(byId, sc.byId)
    && Plays(sc.toAdd, Joining(byId, ids, done), sc.ids, |ids|)
    && KeysJoined(sc.byId, byId, ids, done) && CidsJoined(sc.byId, byId, ids, done)
  }

  /** The ids in the index are those of the collection and those given. */
  ghost predicate KeysJoined(now: map<Key, nat>, byId: map<Key, nat>, ids: Ids, done: seq<Item>)
    requires Known(done, ids)
  {
    forall k: Key {:trigger k in now} :: k.Other? ==> (k in now <==> k in byId || k in IdsGiven(byId, ids, done))
  }

  /** A model object without an id is in the index if it was, or if it was given. */
  ghost predicate CidsJoined(now: map<Key, nat>, byId: map<Key, nat>, ids: Ids, done: seq<Item>) {
    forall n: nat {:trigger Cid(n) in now} :: n < |ids| && ids[n].None? ==>
          (Cid(n) in now <==> Cid(n) in byId || Object(n) in done)
  }

  /** An item is found exactly if it was in the collection or came before. */
  lemma FoundExactly(sc: Scan, listed: set<nat>, byId: map<Key, nat>, ids: Ids, done: seq<Item>, item: Item)
    requires ScanOk(sc, listed) && Indexed(listed, byId, ids) && Known(done, ids) && Joined(sc, byId, ids, done)
    requires item.Object? ==> item.n < |ids|
    requires item.Attrs? && item.id.Some? ==> item.id.value.Other?
    ensures var id := IdOf(item, ids);
      Get(sc.byId, sc.ids, item).Some? <==>
        || Get(byId, ids, item).Some? || (id.Some? && id.value in IdsGiven(byId, ids, done))
          || (item.Object? && item in done)
  {
    hide IdsGiven, Joining, Plays;
    if item.Object? {
      var n := item.n;
      assert sc.ids[n] == ids[n];
      if ids[n].Some? {
        assert ids[n].value.Other?;
        if item in done {
          GivenObject(byId, ids, done, n);
        }
      }
    }
  }

  lemma {:induction false} GivenObject(byId: map<Key, nat>, ids: Ids, done: seq<Item>, n: nat)
    requires Known(done, ids) && n < |ids| && Object(n) in done && ids[n].Some?
    ensures ids[n].value in IdsGiven(byId, ids, done)
  {
    var last := done[|done| - 1];
    if last != Object(n) {
      GivenObject(byId, ids, done[..|done| - 1], n);
    }
  }

  lemma JoiningMore(byId: map<Key, nat>, ids: Ids, done: seq<Item>, item: Item)
    requires Known(done, ids) && (item.Object? ==> item.n < |ids|)
    ensures Known(done + [item], ids)
    ensures Joining(byId, ids, done + [item])
            == Joining(byId, ids, done) + if Stays(byId, ids, done, item) then [] else [RoleOf(byId, ids, item)]
  {
    assert (done + [item])[..|done|] == done;
  }

  /** An item that adds no model. */
  lemma JoinedStays(sc: Scan, byId: map<Key, nat>, ids: Ids, done: seq<Item>, item: Item)
    requires Known(done, ids) && Joined(sc, byId, ids, done) && (item.Object? ==>
          item.n < |ids|) && Stays(byId, ids, done, item)
    requires Get(sc.byId, sc.ids, item).None? ==> Invalid(byId, ids, item)
    requires var id := IdOf(item, ids); id.Some? ==> id.value.Other? && (Get(sc.byId, sc.ids, item).Some? ==>
          id.value in sc.byId)
    requires item.Object? && ids[item.n].None? ==> Cid(item.n) in sc.byId
    ensures Known(done + [item], ids) && Joined(sc, byId, ids, done + [item])
  {
    GivenMore(byId, ids, done, item);
    JoiningMore(byId, ids, done, item);
    hide Joining, IdsGiven, Plays, Stays, RoleOf, Get, Extends, Invalid;
    assert CidsJoined(sc.byId, byId, ids, done + [item]) by {
      assert forall x :: x in done + [item] <==> x in done || x == item;
    }
    assert KeysJoined(sc.byId, byId, ids, done + [item]);
  }

  lemma TakenExtends(byId: map<Key, nat>, now: map<Key, nat>, m: nat, id: Option<Key>)
    requires Extends(byId, now) && Cid(m) !in now && Look(now, id).None?
    ensures Extends(byId, Referenced(now, m, id))
  {
  }

  lemma TakenKeys(byId: map<Key, nat>, now: map<Key, nat>, ids: Ids, done: seq<Item>, item: Item, m: nat)
    requires Known(done, ids) && (item.Object? ==>
          item.n < |ids|) && KeysJoined(now, byId, ids, done) && !Invalid(byId, ids, item)
    requires IdOf(item, ids).Some? ==> IdOf(item, ids).value.Other?
    ensures Known(done + [item], ids) && KeysJoined(Referenced(now, m, IdOf(item, ids)), byId, ids, done + [item])
  {
    GivenMore(byId, ids, done, item);
    hide IdsGiven, Invalid, IdOf, Roles;
    var id := IdOf(item, ids);
    assert forall k: Key :: k.Other? ==> (k in Referenced(now, m, id) <==> k in now || id == Some(k));
  }

  lemma TakenCids(byId: map<Key, nat>, now: map<Key, nat>, ids: Ids, done: seq<Item>, item: Item, m: nat,
          id: Option<Key>)
    requires CidsJoined(now, byId, ids, done) && (id.Some? ==> id.value.Other?)
    requires item.Object? ==> m == item.n
    requires item.Attrs? ==> m >= |ids|
    ensures CidsJoined(Referenced(now, m, id), byId, ids, done + [item])
  {
    assert forall x :: x in done + [item] <==> x in done || x == item;
    assert forall n: nat :: Cid(n) in Referenced(now, m, id) <==> Cid(n) in now || n == m;
  }

  lemma TakenPlays(models: seq<nat>, roles: seq<Role>, ids: Ids, n0: nat, m: nat, role: Role)
    requires Plays(models, roles, ids, n0) && m < |ids|
    requires match role case Old(n) => m == n case New(id) => m >= n0 && ids[m] == id
    ensures Plays(models + [m], roles + [role], ids, n0)
  {
  }

  /** An item that adds model `m`. */
  lemma JoinedTaken(sc: Scan, byId: map<Key, nat>, ids: Ids, done: seq<Item>, item: Item, m: nat)
    requires Known(done, ids) && Joined(sc, byId, ids, done) && (item.Object? ==>
          item.n < |ids|) && !Stays(byId, ids, done, item)
    requires m < |sc.ids| && sc.ids[m] == IdOf(item, ids) && (sc.ids[m].Some? ==> sc.ids[m].value.Other?)
    requires item.Object? ==> m == item.n
    requires item.Attrs? ==> m >= |ids|
    requires Cid(m) !in sc.byId && Look(sc.byId, sc.ids[m]).None?
    ensures Known(done + [item], ids) && Joined(Taken(sc, m), byId, ids, done + [item])
  {
    JoiningMore(byId, ids, done, item);
    TakenExtends(byId, sc.byId, m, sc.ids[m]);
    TakenKeys(byId, sc.byId, ids, done, item, m);
    TakenCids(byId, sc.byId, ids, done, item, m, sc.ids[m]);
    TakenPlays(sc.toAdd, Joining(byId, ids, done), sc.ids, |ids|, m, RoleOf(byId, ids, item));
    hide Joining, IdsGiven, Plays, KeysJoined, CidsJoined, Extends, Referenced;
  }

  lemma MoreIdsJoined(sc: Scan, byId: map<Key, nat>, ids: Ids, done: seq<Item>, id: Option<Key>)
    requires Known(done, ids) && Joined(sc, byId, ids, done)
    ensures Joined(sc.(ids := sc.ids + [id]), byId, ids, done)
  {
    hide Joining, IdsGiven;
  }

  lemma JoinedStep(sc: Scan, listed: set<nat>, byId: map<Key, nat>, ids: Ids, done: seq<Item>, item: Item)
    requires ScanOk(sc, listed) && Indexed(listed, byId, ids) && Known(done, ids) && Joined(sc, byId, ids, done)
    requires PlainIds(ids)
    requires item.Object? ==> item.n < |ids|
    requires item.Attrs? && item.id.Some? ==> item.id.value.Other?
    ensures Known(done + [item], ids) && Joined(Scanned(sc, item, false), byId, ids, done + [item])
  {
    var all := listed + Members(sc.toAdd);
    FoundExactly(sc, listed, byId, ids, done, item);
    GetListed(all, sc.byId, sc.ids, item);
    JoinedPrefix(sc, byId, ids, done);
    StaysExactly(sc, byId, ids, done, item);
    hide Joined, Stays;
    if Stays(byId, ids, done, item) {
      JoinedStays(sc, byId, ids, done, item);
      assert Scanned(sc, item, false).(seen := {}) == sc.(seen := {});
      SeenIrrelevant(sc, Scanned(sc, item, false), byId, ids, done + [item]);
    } else {
      match item
      case Object(n) =>
        JoinedTaken(sc, byId, ids, done, item, n);
        SeenIrrelevant(Taken(sc, n), Scanned(sc, item, false), byId, ids, done + [item]);
      case Attrs(id, valid) =>
        var made := sc.(ids := sc.ids + [id]);
        FreshIndexed(all, sc.byId, sc.ids, id);
        MoreIdsJoined(sc, byId, ids, done, id);
        JoinedTaken(made, byId, ids, done, item, |sc.ids|);
        SeenIrrelevant(Taken(made, |sc.ids|), Scanned(sc, item, false), byId, ids, done + [item]);
    }
  }

  lemma JoinedPrefix(sc: Scan, byId: map<Key, nat>, ids: Ids, done: seq<Item>)
    requires Known(done, ids) && Joined(sc, byId, ids, done)
    ensures ids <= sc.ids && |ids| <= |sc.ids| && Extends(byId, sc.byId)
    ensures forall n {:trigger ids[n]} :: 0 <= n < |ids| ==> sc.ids[n] == ids[n]
  {
  }

  lemma StaysExactly(sc: Scan, byId: map<Key, nat>, ids: Ids, done: seq<Item>, item: Item)
    requires Known(done, ids) && (item.Object? ==> item.n < |ids|) && |ids| <= |sc.ids|
    requires var id := IdOf(item, ids);
      Get(sc.byId, sc.ids, item).Some? <==>
        || Get(byId, ids, item).Some? || (id.Some? && id.value in IdsGiven(byId, ids, done))
          || (item.Object? && item in done)
    ensures Stays(byId, ids, done, item) <==> Get(sc.byId, sc.ids, item).Some? || (item.Attrs? && !item.valid)
  {
  }

  /** Without `remove` nothing depends on what was seen, or on the order. */
  lemma SeenIrrelevant(sc: Scan, sc': Scan, byId: map<Key, nat>, ids: Ids, done: seq<Item>)
    requires Known(done, ids) && Joined(sc, byId, ids, done)
    requires sc'.byId == sc.byId && sc'.ids == sc.ids && sc'.toAdd == sc.toAdd
    ensures Joined(sc', byId, ids, done)
  {
  }

  lemma {:induction false} JoinedAll(c: Coll, ids: Ids, items: seq<Item>)
    requires Given(c, ids, items)
    ensures Joined(ScannedAll(Scan(c.byId, ids, [], [], {}), items, false), c.byId, ids, items)
  {
    hide Joined, Scanned, Indexed, ScanOk;
    var start := Scan(c.byId, ids, [], [], {});
    if items == [] {
      NothingJoined(c, ids);
    } else {
      var n := |items| - 1;
      var init := items[..n];
      JoinedAll(c, ids, init);
      ScanFacts(c, ids, init, false);
      JoinedStep(ScannedAll(start, init, false), Members(c.models), c.byId, ids, init, items[n]);
      assert init + [items[n]] == items;
    }
  }

  lemma NothingJoined(c: Coll, ids: Ids)
    ensures Joined(Scan(c.byId, ids, [], [], {}), c.byId, ids, [])
  {
  }
}
