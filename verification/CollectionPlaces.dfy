/** Where `add` and `set` put models that are given a position, and what `get` and `reset` do. */
module CollectionPlaces {
  import opened Wrappers
  import opened CollectionState
  import opened CollectionTheorems
  import opened CollectionSet
  import opened CollectionRoles
  import opened CollectionRuns

  // ---------- get ----------

  lemma GetIndexed(listed: set<nat>, byId: map<Key, nat>, ids: Ids, item: Item, m: nat)
    requires Indexed(listed, byId, ids) && PlainIds(ids) && (item.Object? ==> item.n < |ids|)
    requires item.Attrs? && item.id.Some? ==> item.id.value.Other?
    ensures Get(byId, ids, item) == Some(m) <==>
              m in listed && m < |ids| && (item == Object(m) || (ids[m].Some? && IdOf(item, ids) == ids[m]))
  {
    GetListed(listed, byId, ids, item);
    if item.Object? && item.n in listed {
      assert byId[Cid(item.n)] == item.n;
    }
  }

  /** `get` finds the listed model that is the object asked for or has its id, and nothing else. */
  lemma GetExactly(c: Coll, ids: Ids, item: Item, m: nat)
    requires Agrees(c, ids) && PlainIds(ids) && (item.Object? ==> item.n < |ids|)
    requires item.Attrs? && item.id.Some? ==> item.id.value.Other?
    ensures Get(c.byId, ids, item) == Some(m) <==>
              m in c.models && m < |ids| && (item == Object(m) || (ids[m].Some? && IdOf(item, ids) == ids[m]))
  {
    GetIndexed(Members(c.models), c.byId, ids, item, m);
  }

  // ---------- one position after the other ----------

  function Min(a: int, b: int): int {
    if a < b then a else b
  }

  function Reversed(s: seq<nat>): seq<nat> {
    if s == [] then [] else [s[|s| - 1]] + Reversed(s[..|s| - 1])
  }

  /** Each of `xs` in front of one of `ys`. */
  function Interleaved(xs: seq<nat>, ys: seq<nat>): (r: seq<nat>)
    requires |xs| <= |ys|
    ensures |r| == |xs| + |ys|
  {
    if xs == [] then ys else [xs[0], ys[0]] + Interleaved(xs[1..], ys[1..])
  }

  lemma {:induction false} InterleavedMore(xs: seq<nat>, x: nat, ys: seq<nat>)
    requires |xs| < |ys|
    ensures var r := Interleaved(xs, ys); Interleaved(xs + [x], ys) == r[..2 * |xs|] + [x] + r[2 * |xs|..]
  {
    if xs != [] {
      InterleavedMore(xs[1..], x, ys[1..]);
      assert (xs + [x])[1..] == xs[1..] + [x];
    } else {
      assert (xs + [x])[1..] == [];
      assert Interleaved([], ys[1..]) == ys[1..];
    }
  }

  /** `r` with `x` put in at place `i`. */
  function Put(r: seq<nat>, i: nat, x: nat): seq<nat>
    requires i <= |r|
  {
    r[..i] + [x] + r[i..]
  }

  lemma PutBehind(a: seq<nat>, r: seq<nat>, i: nat, x: nat)
    requires i <= |r|
    ensures Put(a + r, |a| + i, x) == a + Put(r, i, x)
  {
    assert (a + r)[..|a| + i] == a + r[..i] && (a + r)[|a| + i..] == r[i..];
  }

  lemma LastInserted(s: seq<nat>, at: int, more: seq<nat>, t: seq<nat>, i: int)
    requires more != [] && t == Inserted(s, at, more[..|more| - 1])
    requires i == Place(at + |more| - 1, |t|)
    ensures 0 <= i <= |t| && Inserted(s, at, more) == Put(t, i, more[|more| - 1])
  {
  }

  /** A position from the start: the models go there together and in order, behind the last one at most. */
  lemma {:induction false} InsertedTogether(s: seq<nat>, at: int, more: seq<nat>)
    requires at >= 0
    ensures var p := Min(at, |s|); Inserted(s, at, more) == s[..p] + more + s[p..]
  {
    var p := Min(at, |s|);
    if more == [] {
      assert s == s[..p] + [] + s[p..];
    } else {
      var n := |more| - 1;
      var t := s[..p] + more[..n] + s[p..];
      InsertedTogether(s, at, more[..n]);
      LastInserted(s, at, more, t, p + n);
      hide Inserted;
      assert t[..p + n] == s[..p] + more[..n] && t[p + n..] == s[p..];
      assert more == more[..n] + [more[n]];
      assert Put(t, p + n, more[n]) == s[..p] + more + s[p..];
    }
  }

  /** A position before the start of the list: one model after the other goes to the front. */
  lemma {:induction false} InsertedFront(s: seq<nat>, at: int, more: seq<nat>)
    requires at < 0 && (more != [] ==> |s| + at + 2 * (|more| - 1) <= 0)
    ensures Inserted(s, at, more) == Reversed(more) + s
  {
    if more != [] {
      var n := |more| - 1;
      var t := Reversed(more[..n]) + s;
      InsertedFront(s, at, more[..n]);
      ReversedLength(more[..n]);
      LastInserted(s, at, more, t, 0);
      assert Put(t, 0, more[n]) == [more[n]] + t;
    }
  }

  lemma {:induction false} ReversedLength(s: seq<nat>)
    ensures |Reversed(s)| == |s|
  {
    if s != [] { ReversedLength(s[..|s| - 1]); }
  }

  /** A position counted from the end: each model goes in front of the next one of the list. */
  lemma {:induction false} InsertedBetween(s: seq<nat>, at: int, more: seq<nat>)
    requires 0 <= |s| + at && |more| <= -at
    ensures var q := |s| + at; Inserted(s, at, more) == s[..q] + Interleaved(more, s[q..])
  {
    var q := |s| + at;
    if more == [] {
      assert s == s[..q] + s[q..];
    } else {
      var n := |more| - 1;
      var r := Interleaved(more[..n], s[q..]);
      InsertedBetween(s, at, more[..n]);
      LastInserted(s, at, more, s[..q] + r, q + 2 * n);
      InterleavedMore(more[..n], more[n], s[q..]);
      assert more[..n] + [more[n]] == more;
      hide Inserted, Interleaved;
      PutBehind(s[..q], r, 2 * n, more[n]);
    }
  }

  lemma {:induction false} InsertedParts(s: seq<nat>, at: int, a: seq<nat>, b: seq<nat>)
    ensures Inserted(s, at, a + b) == Inserted(Inserted(s, at, a), at + |a|, b)
    decreases |b|
  {
    if b == [] {
      assert a + b == a;
    } else {
      var n := |b| - 1;
      InsertedParts(s, at, a, b[..n]);
      assert (a + b)[..|a| + n] == a + b[..n];
      var t := Inserted(s, at, a + b[..n]);
      var i := Place(at + |a| + n, |t|);
      LastInserted(s, at, a + b, t, i);
      LastInserted(Inserted(s, at, a), at + |a|, b, t, i);
    }
  }

  /** How many models go to the front because the position lies before the start. */
  function Fronts(length: nat, at: int, count: nat): (f: nat)
    requires at < 0
    ensures f <= count && f <= -at && (length + at + 2 * f >= 0 || f == count)
    ensures f > 0 ==> length + at + 2 * (f - 1) <= 0
  {
    if length + at >= 0 then 0 else Min(count, (1 - length - at) / 2)
  }

  /** How many models after them go between those of the list. */
  function Betweens(length: nat, at: int, count: nat): (b: nat)
    requires at < 0
    ensures Fronts(length, at, count) + b == Min(count, -at)
  {
    Min(count, -at) - Fronts(length, at, count)
  }

  /** The list with models at a position; a negative one is counted from the end, and moves with each model put in, so
      that first models may go to the front, then some between those of the list, and the others in front of all. */
  function Spread(s: seq<nat>, at: int, more: seq<nat>): seq<nat> {
    if at >= 0 then s[..Min(at, |s|)] + more + s[Min(at, |s|)..]
    else
      var f, b := Fronts(|s|, at, |more|), Betweens(|s|, at, |more|);
      Divided(s, at, more[..f], more[f..f + b], more[f + b..])
  }

  function Divided(s: seq<nat>, at: int, a: seq<nat>, middle: seq<nat>, rest: seq<nat>): seq<nat>
    requires |a| + |middle| <= -at
  {
    ReversedLength(a);
    rest + Between(Reversed(a) + s, |s| + at + 2 * |a|, middle)
  }

  function Between(s: seq<nat>, q: int, more: seq<nat>): seq<nat>
    requires q + |more| <= |s|
  {
    if more == [] || q < 0 then s else s[..q] + Interleaved(more, s[q..])
  }

  /** Every position, exactly. */
  lemma InsertedExactly(s: seq<nat>, at: int, more: seq<nat>)
    ensures Inserted(s, at, more) == Spread(s, at, more)
  {
    if at >= 0 {
      InsertedTogether(s, at, more);
    } else {
      var f, b := Fronts(|s|, at, |more|), Betweens(|s|, at, |more|);
      hide Inserted, Divided, Fronts, Betweens;
      InThree(more, f, b);
      InsertedDivided(s, at, more[..f], more[f..f + b], more[f + b..]);
    }
  }

  lemma InThree(more: seq<nat>, f: nat, b: nat)
    requires f + b <= |more|
    ensures more == more[..f] + more[f..f + b] + more[f + b..]
  {
  }

  lemma InsertedDivided(s: seq<nat>, at: int, a: seq<nat>, middle: seq<nat>, rest: seq<nat>)
    requires at < 0 && |a| + |middle| <= -at && (rest != [] ==> at + |a| + |middle| == 0)
    requires middle != [] ==> 0 <= |s| + at + 2 * |a|
    requires a != [] ==> |s| + at + 2 * (|a| - 1) <= 0
    ensures Inserted(s, at, a + middle + rest) == Divided(s, at, a, middle, rest)
  {
    var front := Reversed(a) + s;
    ReversedLength(a);
    hide Inserted, Reversed, Between;
    InsertedFront(s, at, a);
    InsertedMiddle(front, at + |a|, middle);
    InsertedParts(s, at, a, middle);
    InsertedParts(s, at, a + middle, rest);
    InsertedLast(Between(front, |s| + at + 2 * |a|, middle), at + |a| + |middle|, rest);
  }

  lemma InsertedMiddle(s: seq<nat>, at: int, more: seq<nat>)
    requires at <= 0 && |more| <= -at && (more != [] ==> 0 <= |s| + at)
    ensures |s| + at + |more| <= |s| && Inserted(s, at, more) == Between(s, |s| + at, more)
  {
    if more != [] { InsertedBetween(s, at, more); }
  }

  lemma InsertedLast(s: seq<nat>, at: int, more: seq<nat>)
    requires more != [] ==> at == 0
    ensures Inserted(s, at, more) == more + s
  {
    if more != [] { InsertedTogether(s, 0, more); }
  }

  // ---------- models at a position ----------

  /** What the loop of `set` finds out about new models does not depend on whether others are removed. */
  lemma {:induction false} ScannedAlike(sc: Scan, items: seq<Item>)
    requires Known(items, sc.ids)
    ensures var a, b := ScannedAll(sc, items, true), ScannedAll(sc, items, false);
      a.byId == b.byId && a.ids == b.ids && a.toAdd == b.toAdd
  {
    if items != [] {
      ScannedAlike(sc, items[..|items| - 1]);
      hide Get, Referenced;
    }
  }

  /** The listed models that no item stands for. */
  ghost function Unnamed(c: Coll, ids: Ids, items: seq<Item>): set<nat>
    requires Known(items, ids)
  {
    set m | m in c.models && !Named(c, ids, items, m)
  }

  ghost predicate Named(c: Coll, ids: Ids, items: seq<Item>, m: nat)
    requires Known(items, ids)
  {
    exists i {:trigger items[i]} :: 0 <= i < |items| && Get(c.byId, ids, items[i]) == Some(m)
  }

  lemma NamedMore(c: Coll, ids: Ids, items: seq<Item>, m: nat)
    requires Known(items, ids) && items != []
    ensures var n := |items| - 1;
      Named(c, ids, items, m) <==> Named(c, ids, items[..n], m) || Get(c.byId, ids, items[n]) == Some(m)
  {
  }

  /** What `modelMap` says of a model that was there before. */
  lemma {:induction false} SeenExactly(c: Coll, ids: Ids, items: seq<Item>, m: nat)
    requires Given(c, ids, items) && m in c.models
    ensures Cid(m) in ScannedAll(Scan(c.byId, ids, [], [], {}), items, true).seen <==> Named(c, ids, items, m)
  {
    if items != [] {
      var n := |items| - 1;
      var start, item := Scan(c.byId, ids, [], [], {}), items[n];
      SeenExactly(c, ids, items[..n], m);
      ScanFacts(c, ids, items[..n], true);
      NamedMore(c, ids, items, m);
      var sc := ScannedAll(start, items[..n], true);
      FoundAlike(c, ids, items[..n], item, m);
      hide ScannedAll, Get, Named;
      SeenStep(sc, item, m);
      assert ScannedAll(start, items, true) == Scanned(sc, item, true) by { LastScanned(start, items); }
    }
  }

  lemma LastScanned(sc: Scan, items: seq<Item>)
    requires Known(items, sc.ids) && items != []
    ensures ScannedAll(sc, items, true) == Scanned(ScannedAll(sc, items[..|items| - 1], true), items[|items| - 1], true)
  {
  }

  lemma SeenStep(sc: Scan, item: Item, m: nat)
    requires (item.Object? ==> item.n < |sc.ids|) && PlainIds(sc.ids)
    requires item.Attrs? && item.id.Some? ==> item.id.value.Other?
    requires Get(sc.byId, sc.ids, item).Some? ==> Get(sc.byId, sc.ids, item).value < |sc.ids|
    ensures Cid(m) in Scanned(sc, item, true).seen <==> Cid(m) in sc.seen || Get(sc.byId, sc.ids, item) == Some(m)
  {
    hide Get;
  }

  lemma FoundAlike(c: Coll, ids: Ids, init: seq<Item>, item: Item, m: nat)
    requires Given(c, ids, init) && m in c.models && (item.Object? ==> item.n < |ids|)
    requires item.Attrs? && item.id.Some? ==> item.id.value.Other?
    ensures var sc := ScannedAll(Scan(c.byId, ids, [], [], {}), init, true);
      && ids <= sc.ids && PlainIds(sc.ids)
      && (Get(sc.byId, sc.ids, item) == Some(m) <==> Get(c.byId, ids, item) == Some(m))
      && (Get(sc.byId, sc.ids, item).Some? ==> Get(sc.byId, sc.ids, item).value < |sc.ids|)
  {
    var sc := ScannedAll(Scan(c.byId, ids, [], [], {}), init, true);
    ScanFacts(c, ids, init, true);
    hide ScannedAll, Get, Indexed;
    var all := Members(c.models) + Members(sc.toAdd);
    assert m in all;
    GetIndexed(all, sc.byId, sc.ids, item, m);
    GetIndexed(Members(c.models), c.byId, ids, item, m);
    if Get(sc.byId, sc.ids, item).Some? {
      GetIndexed(all, sc.byId, sc.ids, item, Get(sc.byId, sc.ids, item).value);
    }
  }

  /** `add` at a position leaves the old list and puts the models of the valid items that are new to it where `Spread`
      says; `set` at a position does the same to the models of the list that some item stands for. */
  lemma AtExactly(c: Coll, ids: Ids, items: seq<Item>, remove: bool, at: int) returns (more: seq<nat>)
    requires Given(c, ids, items)
    ensures var p := SetAll(c, ids, items, remove, Some(at));
      && Agrees(p.coll, p.ids) && PlainIds(p.ids) && ids <= p.ids
      && Plays(more, Joining(c.byId, ids, items), p.ids, |ids|)
      && p.coll.models == Spread(if remove then Without(c.models, Unnamed(c, ids, items)) else c.models, at, more)
  {
    var start := Scan(c.byId, ids, [], [], {});
    var sc := ScannedAll(start, items, remove);
    more := sc.toAdd;
    AddAgrees(c, ids, items, remove, Some(at));
    JoinedAll(c, ids, items);
    ScannedAlike(start, items);
    ScanFacts(c, ids, items, remove);
    if remove {
      KeptFacts(c, ids, sc);
      forall m | m in c.models ensures Cid(m) in sc.seen <==> Named(c, ids, items, m) {
        SeenExactly(c, ids, items, m);
      }
      assert UnseenMembers(c.models, sc.seen) == Unnamed(c, ids, items);
    }
    hide ScannedAll, RemovedAll, Indexed, Spread, Joining, Plays, Named, Without;
    InsertedExactly(if remove then Without(c.models, Unnamed(c, ids, items)) else c.models, at, more);
  }

  /** In particular, at a position within the list or at its end, the new models stand there together and in order. */
  lemma AddAtExactly(c: Coll, ids: Ids, items: seq<Item>, at: nat)
    requires Given(c, ids, items) && at <= |c.models|
    ensures var p := SetAll(c, ids, items, false, Some(at));
      var count := |p.coll.models| - |c.models|;
      && count >= 0 && p.coll.models[..at] == c.models[..at] && p.coll.models[at + count..] == c.models[at..]
      && Plays(p.coll.models[at..at + count], Joining(c.byId, ids, items), p.ids, |ids|)
  {
    var more := AtExactly(c, ids, items, false, at);
    var models := SetAll(c, ids, items, false, Some(at)).coll.models;
    assert models == c.models[..at] + more + c.models[at..];
    hide SetAll, Plays, Joining, Spread;
    assert models[at..at + |more|] == more;
  }

  // ---------- reset ----------

  /** After `reset` the list has exactly the models of the valid items, in the order given, each object and each id
      once. */
  lemma ResetExactly(ids: Ids, items: seq<Item>)
    requires PlainIds(ids) && Known(items, ids) && PlainItems(items)
    ensures var p := Reset(ids, items);
      && Agrees(p.coll, p.ids) && PlainIds(p.ids) && ids <= p.ids
      && Plays(p.coll.models, Joining(map[], ids, items), p.ids, |ids|)
  {
    EmptyAgrees(ids);
    hide Joining, Plays, Agrees;
    AddExactly(EMPTY, ids, items);
    var models := Reset(ids, items).coll.models;
    assert models[0..] == models;
  }
}
