/** The Collection object: its list, its length and its index are changed in place. */
module Collections {
  import opened Wrappers
  import opened CollectionState

  class Collection {
    var models: seq<nat>
    var length: int
    var byId: map<Key, nat>
    var ids: Ids            // the ids of all model objects

    function View(): Coll
      reads this
    {
      Coll(models, length, byId)
    }

    constructor (ids: Ids)
      ensures View() == EMPTY && this.ids == ids
    {
      models, length, byId := [], 0, map[];
      this.ids := ids;
    }

    method AddReference(m: nat)
      requires m < |ids|
      modifies this`byId
      ensures byId == Referenced(old(byId), m, ids[m])
    {
      byId := byId[Cid(m) := m];
      if ids[m].Some? {
        byId := byId[ids[m].value := m];
      }
    }

    method RemoveItem(item: Item)
      requires item.Object? ==> item.n < |ids|
      modifies this`models, this`length, this`byId
      ensures View() == RemovedOne(old(View()), ids, item)
    {
      var m := Get(byId, ids, item);
      if m.Some? {
        if m.value < |ids| && ids[m.value].Some? {
          byId := byId - {ids[m.value].value};
        }
        byId := byId - {Cid(m.value)};
        models := Spliced(models, m.value);
        length := length - 1;
      }
    }

    /** Removes the models its arguments stand for. */
    method Remove(items: seq<Item>)
      requires Known(items, ids)
      modifies this`models, this`length, this`byId
      ensures View() == RemovedAll(old(View()), ids, items)
    {
      hide RemovedOne;
      var i := 0;
      while i < |items|
        invariant 0 <= i <= |items| && Known(items[..i], ids)
        invariant View() == RemovedAll(old(View()), ids, items[..i])
      {
        assert items[..i + 1][..i] == items[..i];
        RemoveItem(items[i]);
        i := i + 1;
      }
      assert items[..i] == items;
    }

    /** The loop of `set` over the models it is given. */
    method ScanItems(items: seq<Item>, remove: bool) returns (toAdd: seq<nat>, order: seq<nat>, seen: set<Key>)
      requires Known(items, ids)
      modifies this`byId, this`ids
      ensures Scan(byId, ids, toAdd, order, seen) == ScannedAll(Scan(old(byId), old(ids), [], [], {}), items, remove)
    {
      ghost var start := Scan(byId, ids, [], [], {});
      toAdd, order, seen := [], [], {};
      var i := 0;
      while i < |items|
        invariant 0 <= i <= |items| && Known(items[..i], start.ids)
        invariant Scan(byId, ids, toAdd, order, seen) == ScannedAll(start, items[..i], remove)
      {
        assert items[..i + 1][..i] == items[..i];
        toAdd, order, seen := ScanItem(items[i], remove, toAdd, order, seen);
        i := i + 1;
      }
      assert items[..i] == items;
    }

    method ScanItem(item: Item, remove: bool, toAdd0: seq<nat>, order0: seq<nat>, seen0: set<Key>)
      returns (toAdd: seq<nat>, order: seq<nat>, seen: set<Key>)
      requires item.Object? ==> item.n < |ids|
      modifies this`byId, this`ids
      ensures Scan(byId, ids, toAdd, order, seen) == Scanned(Scan(old(byId), old(ids), toAdd0, order0, seen0), item,
          remove)
    {
      toAdd, order, seen := toAdd0, order0, seen0;
      var existing := Get(byId, ids, item);
      var model: nat;
      if existing.Some? {
        if existing.value >= |ids| {
          return;
        }
        if remove {
          seen := seen + {Cid(existing.value)};
        }
        model := existing.value;
      } else {
        match item {
          case Object(n) => model := n;
          case Attrs(id, valid) =>
            if !valid {
              return;
            }
            model := |ids|;
            ids := ids + [id];
        }
        toAdd := toAdd + [model];
        AddReference(model);
      }
      var id := ids[model];
      if remove && (id.None? || id.value !in seen) {
        order := order + [model];
      }
      if id.Some? {
        seen := seen + {id.value};
      }
    }

    /** The models that were not seen, for `remove`. */
    method CollectUnseen(seen: set<Key>) returns (toRemove: seq<Item>)
      requires length <= |models|
      ensures toRemove == Unseen(Counted(View()), seen)
    {
      toRemove := [];
      var i := 0;
      while i < length
        invariant 0 <= i && (i == 0 || i <= length) && toRemove == Unseen(models[..i], seen)
      {
        assert models[..i + 1][..i] == models[..i];
        if Cid(models[i]) !in seen {
          toRemove := toRemove + [Object(models[i])];
        }
        i := i + 1;
      }
      assert models[..i] == Counted(View());
    }

    /** Puts new models into the list from position `at` on. */
    method InsertAt(at: int, toAdd: seq<nat>)
      modifies this`models
      ensures models == Inserted(old(models), at, toAdd)
    {
      var i := 0;
      while i < |toAdd|
        invariant 0 <= i <= |toAdd| && models == Inserted(old(models), at, toAdd[..i])
      {
        assert toAdd[..i + 1][..i] == toAdd[..i];
        var k := Place(at + i, |models|);
        models := models[..k] + [toAdd[i]] + models[k..];
        i := i + 1;
      }
      assert toAdd[..i] == toAdd;
    }

    /** `set`; with `remove` off it is `add`.  List and index need not agree, but the list must be as long as
        `length` says, or the loop over it fails. */
    method Set(items: seq<Item>, remove: bool, at: Option<int>)
      requires length <= |models| && Known(items, ids)
      requires forall m {:trigger m in models} :: m in models ==> m < |ids|
      modifies this
      ensures Pair(View(), ids) == SetAll(old(View()), old(ids), items, remove, at)
    {
      ghost var c := View();
      hide ScannedAll, Inserted, Indexed, RemovedAll;
      var toAdd, order, seen := ScanItems(items, remove);
      if remove {
        var toRemove := CollectUnseen(seen);
        Remove(toRemove);
      }
      if toAdd != [] || order != [] {
        length := length + |toAdd|;
        if at.Some? {
          InsertAt(at.value, toAdd);
        } else if remove {
          models := order;
        } else {
          models := models + toAdd;
        }
      }
    }

    method ResetTo(items: seq<Item>)
      requires Known(items, ids)
      modifies this
      ensures Pair(View(), ids) == Reset(old(ids), items)
    {
      length := 0;
      models := [];
      byId := map[];
      Set(items, false, None);
    }

    /** The listener for a change of a model's id. */
    method ChangeId(m: nat, id: Option<Key>)
      requires m < |ids|
      modifies this
      ensures Pair(View(), ids) == IdChanged(old(View()), old(ids), m, id)
    {
      var previous := ids[m];
      ids := ids[m := id];
      if m in models && previous != id {
        if previous.Some? {
          byId := byId - {previous.value};
        }
        if id.Some? {
          byId := byId[id.value := m];
        }
      }
    }
  }
}
