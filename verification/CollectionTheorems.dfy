/** The list and the index of a Collection agree after every run of operations, and `set` makes the list what it is
    given. */
module CollectionTheorems {
  import opened Wrappers
  import opened CollectionState

  // ---------- lists without repeats ----------

  lemma {:induction false} MembersCount(s: seq<nat>)
    requires NoRepeats(s)
    ensures |Members(s)| == |s|
  {
    if s != [] {
      var n := |s| - 1;
      MembersCount(s[..n]);
      assert Members(s) == Members(s[..n]) + {s[n]};
      assert s[n] !in s[..n];
    }
  }

  lemma MembersAppend(s: seq<nat>, m: nat)
    ensures Members(s + [m]) == Members(s) + {m}
    ensures NoRepeats(s) && m !in s ==> NoRepeats(s + [m])
  {
  }

  lemma SplicedMembers(s: seq<nat>, m: nat)
    requires NoRepeats(s) && m in s
    ensures NoRepeats(Spliced(s, m)) && |Spliced(s, m)| == |s| - 1
    ensures Members(Spliced(s, m)) == Members(s) - {m}
  {
    var i, t := IndexOf(s, m), Spliced(s, m);
    assert t == s[..i] + s[i + 1..];
    forall x | x in s && x != m ensures x in t {
      var j :| 0 <= j < |s| && s[j] == x;
      if j < i {
        assert t[j] == x;
      } else {
        assert t[j - 1] == x;
      }
    }
  }

  // ---------- remove ----------

  /** The list, and a set of models that are in the index but not in the list. */
  ghost predicate Holding(c: Coll, ids: Ids, extra: set<nat>) {
    && NoRepeats(c.models) && c.length == |c.models|
    && extra !! Members(c.models) && Indexed(Members(c.models) + extra, c.byId, ids)
  }

  /** The order-preserving rest of a list. */
  function Without(models: seq<nat>, gone: set<nat>): seq<nat> {
    if models == [] then []
    else
      var last := models[|models| - 1];
      Without(models[..|models| - 1], gone) + if last in gone then [] else [last]
  }

  /** The models that the arguments of `remove` stand for. */
  function Meant(byId: map<Key, nat>, ids: Ids, items: seq<Item>): set<nat>
    requires Known(items, ids)
  {
    if items == [] then {}
    else
      var n := |items| - 1;
      Meant(byId, ids, items[..n])
      + match Get(byId, ids, items[n]) case None => {} case Some(m) => {m}
  }

  lemma {:induction false} WithoutNothing(models: seq<nat>)
    ensures Without(models, {}) == models
  {
    if models != [] {
      WithoutNothing(models[..|models| - 1]);
    }
  }

  lemma {:induction false} WithoutMembers(models: seq<nat>, gone: set<nat>)
    ensures Members(Without(models, gone)) == Members(models) - gone
    ensures NoRepeats(models) ==> NoRepeats(Without(models, gone))
  {
    if models != [] {
      var n := |models| - 1;
      WithoutMembers(models[..n], gone);
      assert Members(models) == Members(models[..n]) + {models[n]};
      if models[n] !in gone {
        MembersAppend(Without(models[..n], gone), models[n]);
        if NoRepeats(models) {
          assert models[n] !in Members(models[..n]);
        }
      } else {
        assert Without(models, gone) == Without(models[..n], gone);
      }
    }
  }

  lemma {:induction false} WithoutAbsent(models: seq<nat>, gone: set<nat>, m: nat)
    requires m !in models
    ensures Without(models, gone + {m}) == Without(models, gone)
  {
    if models != [] {
      WithoutAbsent(models[..|models| - 1], gone, m);
    }
  }

  lemma WithoutHas(models: seq<nat>, gone: set<nat>, m: nat)
    ensures m in Without(models, gone) <==> m in models && m !in gone
  {
    WithoutMembers(models, gone);
    assert m in Without(models, gone) <==> m in Members(Without(models, gone));
  }

  lemma NoRepeatsInit(s: seq<nat>, m: nat)
    requires NoRepeats(s) && m in s
    ensures var n := |s| - 1; NoRepeats(s[..n]) && (s[n] == m ==> m !in s[..n]) && (s[n] != m ==> m in s[..n])
  {
  }

  /** Splicing one model out takes it from the rest. */
  lemma {:induction false} WithoutSpliced(models: seq<nat>, gone: set<nat>, m: nat)
    requires NoRepeats(models) && m in models && m !in gone
    ensures m in Without(models, gone) && Spliced(Without(models, gone), m) == Without(models, gone + {m})
  {
    hide Spliced, NoRepeats;
    var n := |models| - 1;
    var init, last := models[..n], models[n];
    WithoutHas(models, gone, m);
    WithoutHas(init, gone, m);
    NoRepeatsInit(models, m);
    if last == m {
      WithoutAbsent(init, gone, m);
      IndexAppend(Without(init, gone), m);
    } else {
      WithoutSpliced(init, gone, m);
      if last !in gone {
        SplicedAppend(Without(init, gone), m, last);
      } else {
        assert Without(models, gone) == Without(init, gone) && Without(models, gone + {m}) == Without(init, gone + {m});
      }
    }
  }

  lemma {:induction false} IndexAppend(s: seq<nat>, m: nat)
    requires m !in s
    ensures IndexOf(s + [m], m) == |s| && Spliced(s + [m], m) == s
  {
    if s != [] {
      assert (s + [m])[1..] == s[1..] + [m];
      IndexAppend(s[1..], m);
    }
  }

  lemma {:induction false} SplicedAppend(s: seq<nat>, m: nat, last: nat)
    requires m in s
    ensures IndexOf(s + [last], m) == IndexOf(s, m) && Spliced(s + [last], m) == Spliced(s, m) + [last]
  {
    hide IndexOf;
    IndexOfAppend(s, m, last);
    var i := IndexOf(s, m);
    assert (s + [last])[..i] == s[..i] && (s + [last])[i + 1..] == s[i + 1..] + [last];
  }

  lemma {:induction false} IndexOfAppend(s: seq<nat>, m: nat, last: nat)
    requires m in s
    ensures IndexOf(s + [last], m) == IndexOf(s, m)
  {
    if s[0] != m {
      assert (s + [last])[1..] == s[1..] + [last];
      IndexOfAppend(s[1..], m, last);
    }
  }

  /** What an argument stands for does not change before its model is removed. */
  lemma GetLater(listed: set<nat>, byId: map<Key, nat>, ids: Ids, gone: set<nat>, byId': map<Key, nat>, item: Item)
    requires Indexed(listed, byId, ids) && Indexed(listed - gone, byId', ids) && PlainIds(ids)
    requires item.Object? ==> item.n < |ids|
    ensures var m := Get(byId, ids, item);
      Get(byId', ids, item) == if m.Some? && m.value in gone then None else m
    ensures Get(byId, ids, item).Some? ==> Get(byId, ids, item).value in listed
  {
    match item
    case Attrs(id, _) => LookLater(listed, byId, ids, gone, byId', id);
    case Object(n) =>
      LookLater(listed, byId, ids, gone, byId', ids[n]);
      LookLater(listed, byId, ids, gone, byId', Some(Cid(n)));
  }

  lemma LookLater(listed: set<nat>, byId: map<Key, nat>, ids: Ids, gone: set<nat>, byId': map<Key, nat>, k: Option<Key>)
    requires Indexed(listed, byId, ids) && Indexed(listed - gone, byId', ids)
    ensures var m := Look(byId, k);
      Look(byId', k) == if m.Some? && m.value in gone then None else m
    ensures Look(byId, k).Some? ==> Look(byId, k).value in listed
  {
    if k.Some? && k.value in byId {
      var m := byId[k.value];
      assert m in gone || m in listed - gone;
    }
    if k.Some? && k.value in byId' {
      var x := byId'[k.value];
      assert x in listed - gone && x in listed;
    }
  }

  lemma {:induction false} RemovedAllIs(c: Coll, ids: Ids, items: seq<Item>, extra: set<nat>)
    requires Known(items, ids) && Holding(c, ids, extra) && PlainIds(ids) && Meant(c.byId, ids, items) !! extra
    ensures var r, gone := RemovedAll(c, ids, items), Meant(c.byId, ids, items);
      Holding(r, ids, extra) && r.models == Without(c.models, gone)
  {
    if items == [] {
      WithoutNothing(c.models);
    } else {
      var n := |items| - 1;
      var r, gone := RemovedAll(c, ids, items[..n]), Meant(c.byId, ids, items[..n]);
      RemovedAllIs(c, ids, items[..n], extra);
      RemovedOneMore(c, r, ids, items[n], extra, gone);
      var m := Get(c.byId, ids, items[n]);
      assert Meant(c.byId, ids, items) == if m.Some? then gone + {m.value} else gone;
    }
  }

  lemma RemovedOneMore(c: Coll, r: Coll, ids: Ids, item: Item, extra: set<nat>, gone: set<nat>)
    requires Holding(c, ids, extra) && Holding(r, ids, extra) && PlainIds(ids) && gone !! extra
    requires r.models == Without(c.models, gone) && (item.Object? ==> item.n < |ids|)
    requires Get(c.byId, ids, item).Some? ==> Get(c.byId, ids, item).value !in extra
    ensures var m, r' := Get(c.byId, ids, item), RemovedOne(r, ids, item);
      Holding(r', ids, extra) && r'.models == Without(c.models, if m.Some? then gone + {m.value} else gone)
  {
    WithoutMembers(c.models, gone);
    var listed := Members(c.models) + extra;
    assert listed - gone == Members(r.models) + extra;
    GetLater(listed, c.byId, ids, gone, r.byId, item);
    var m := Get(c.byId, ids, item);
    if m.Some? && m.value !in gone {
      RemovedHolding(r, ids, m.value, extra);
      WithoutSpliced(c.models, gone, m.value);
    } else if m.Some? {
      assert gone + {m.value} == gone;
    }
  }

  lemma RemovedHolding(r: Coll, ids: Ids, m: nat, extra: set<nat>)
    requires Holding(r, ids, extra) && m in r.models
    ensures m < |ids|
    ensures Holding(Coll(Spliced(r.models, m), r.length - 1, Unreferenced(r.byId, m, ids[m])), ids, extra)
  {
    SplicedMembers(r.models, m);
    var listed := Members(r.models) + extra;
    RemoveIndexed(listed, r.byId, ids, m);
    assert listed - {m} == Members(Spliced(r.models, m)) + extra;
  }

  /** `remove` takes the models its arguments stand for out of the list and the index, and leaves the others in
      their order. */
  lemma RemoveExactly(c: Coll, ids: Ids, items: seq<Item>)
    requires Agrees(c, ids) && PlainIds(ids) && Known(items, ids)
    ensures var r := RemovedAll(c, ids, items);
      Agrees(r, ids) && r.models == Without(c.models, Meant(c.byId, ids, items))
  {
    assert Members(c.models) + {} == Members(c.models);
    RemovedAllIs(c, ids, items, {});
    var r := RemovedAll(c, ids, items);
    assert Members(r.models) + {} == Members(r.models);
  }

  // ---------- set: the index ----------

  /** An item that carries no client id as its id. */
  ghost predicate PlainItems(items: seq<Item>) {
    forall i {:trigger items[i]} :: 0 <= i < |items| && items[i].Attrs? && items[i].id.Some? ==>
          items[i].id.value.Other?
  }

  ghost predicate ScanOk(sc: Scan, listed: set<nat>) {
    && NoRepeats(sc.toAdd) && listed !! Members(sc.toAdd) && PlainIds(sc.ids)
    && Indexed(listed + Members(sc.toAdd), sc.byId, sc.ids)
  }

  lemma TakenOk(sc: Scan, listed: set<nat>, m: nat)
    requires ScanOk(sc, listed) && m < |sc.ids| && Cid(m) !in sc.byId && Look(sc.byId, sc.ids[m]).None?
    ensures ScanOk(Taken(sc, m), listed)
  {
    AddIndexed(listed + Members(sc.toAdd), sc.byId, sc.ids, m);
    MembersAppend(sc.toAdd, m);
    assert listed + Members(sc.toAdd) + {m} == listed + Members(sc.toAdd + [m]);
  }

  lemma MadeOk(sc: Scan, listed: set<nat>, id: Option<Key>)
    requires ScanOk(sc, listed) && (id.Some? ==> id.value.Other?) && Look(sc.byId, id).None?
    ensures ScanOk(Taken(sc.(ids := sc.ids + [id]), |sc.ids|), listed)
  {
    FreshIndexed(listed + Members(sc.toAdd), sc.byId, sc.ids, id);
    TakenOk(sc.(ids := sc.ids + [id]), listed, |sc.ids|);
  }

  lemma GetListed(listed: set<nat>, byId: map<Key, nat>, ids: Ids, item: Item)
    requires Indexed(listed, byId, ids) && PlainIds(ids) && (item.Object? ==> item.n < |ids|)
    requires item.Attrs? && item.id.Some? ==> item.id.value.Other?
    ensures Get(byId, ids, item).Some? ==> Found(listed, ids, item, Get(byId, ids, item).value)
    ensures NoneFound(byId, ids, item)
  {
  }

  /** An item finds a listed model with its id; a model without an id is found only by itself. */
  ghost predicate Found(listed: set<nat>, ids: Ids, item: Item, m: nat)
    requires item.Object? ==> item.n < |ids|
  {
    && m in listed && m < |ids|
    && (ids[m].None? ==> item == Object(m))
    && (item.Attrs? ==> ids[m] == item.id)
    && (item.Object? && m != item.n ==> ids[m] == ids[item.n])
  }

  ghost predicate NoneFound(byId: map<Key, nat>, ids: Ids, item: Item)
    requires item.Object? ==> item.n < |ids|
  {
    Get(byId, ids, item).None? ==>
      match item
      case Attrs(id, _) => Look(byId, id).None?
      case Object(n) => Cid(n) !in byId && Look(byId, ids[n]).None?
  }

  lemma ScannedOk(sc: Scan, listed: set<nat>, item: Item, remove: bool)
    requires ScanOk(sc, listed) && (item.Object? ==> item.n < |sc.ids|)
    requires item.Attrs? && item.id.Some? ==> item.id.value.Other?
    ensures ScanOk(Scanned(sc, item, remove), listed)
  {
    GetListed(listed + Members(sc.toAdd), sc.byId, sc.ids, item);
    match Get(sc.byId, sc.ids, item)
    case Some(e) =>
    case None =>
      match item
      case Object(n) => TakenOk(sc, listed, n);
      case Attrs(id, valid) => if valid { MadeOk(sc, listed, id); }
  }

  lemma {:induction false} ScannedAllOk(sc: Scan, listed: set<nat>, items: seq<Item>, remove: bool)
    requires ScanOk(sc, listed) && Known(items, sc.ids) && PlainItems(items)
    ensures ScanOk(ScannedAll(sc, items, remove), listed)
  {
    if items != [] {
      var n := |items| - 1;
      ScannedAllOk(sc, listed, items[..n], remove);
      assert items[n].Object? ==> items[n].n < |sc.ids|;
      assert items[n].Attrs? && items[n].id.Some? ==> items[n].id.value.Other?;
      ScannedOk(ScannedAll(sc, items[..n], remove), listed, items[n], remove);
    }
  }
}
