/** What `notify` does: each notification calls every progress callback attached until the next one begins, once, in the
    order of attachment and with its arguments. */
module DeferredProgress {
  import opened Wrappers
  import opened CallbackState
  import opened CallbackQueue
  import opened DeferredState
  import opened DeferredTheorems

  /** The notifications that have begun to call; and, for all but the last, how many progress callbacks were attached
      when the next one began. */
  datatype Tale<D> = Tale(told: seq<D>, ended: seq<nat>)

  ghost predicate TaleOk<D>(ids: seq<nat>, t: Tale<D>) {
    && |t.ended| == (if t.told == [] then 0 else |t.told| - 1)
    && forall i {:trigger t.ended[i]} :: 0 <= i < |t.ended| ==> t.ended[i] <= |ids|
  }

  /** The calls of notifications of which number `i` reached the first `ended[i]` callbacks. */
  function Rounds<D>(ids: seq<nat>, told: seq<D>, ended: seq<nat>): seq<Call<Entry, D>>
    requires |told| == |ended| && forall i {:trigger ended[i]} :: 0 <= i < |ended| ==> ended[i] <= |ids|
  {
    if told == [] then []
    else
      var n := |told| - 1;
      Rounds(ids, told[..n], ended[..n]) + Calls(Users(ids[..ended[n]]), told[n])
  }

  /** The calls of all notifications but the last. */
  function Past<D>(ids: seq<nat>, t: Tale<D>): seq<Call<Entry, D>>
    requires TaleOk(ids, t)
  {
    Rounds(ids, t.told[..|t.ended|], t.ended)
  }

  function More<D>(t: Tale<D>, begun: seq<D>, attached: nat): Tale<D> {
    if begun == [] then t else Tale(t.told + begun, if t.told == [] then t.ended else t.ended + [attached])
  }

  /** The calls made are those of the past notifications, and those of the last one, to all callbacks or, while one of
      them is running, to the first of them up to that one. */
  ghost predicate CallsMade<D>(l: State<Entry, D>, ids: seq<nat>, t: Tale<D>)
    requires TaleOk(ids, t)
  {
    if t.told == [] then l.log == [] && !l.firing
    else
      var past, v := Past(ids, t), t.told[|t.told| - 1];
      var p := |l.log| - |past|;
      && 0 <= p <= |ids| && l.log == past + Calls(Users(ids[..p]), v)
      && (if l.firing then p > 0 && l.data == Some(v) else p == |ids|)
  }

  /** The callbacks that the last notification has still to call are the rest of the list. */
  ghost predicate StillToCall<D>(l: State<Entry, D>, ids: seq<nat>, t: Tale<D>)
    requires TaleOk(ids, t)
  {
    var p := |l.log| - |Past(ids, t)|;
    && 0 <= p <= |ids| && l.list.Some? && 0 <= l.firingIndex < |l.list.value|
    && l.list.value[l.firingIndex + 1..] == Users(ids[p..])
  }

  /** A progress list; `open` as long as the deferred is pending. */
  ghost predicate Telling<D>(l: State<Entry, D>, ids: seq<nat>, t: Tale<D>, open: bool) {
    && Inv(l) && l.options == MEMORY && TaleOk(ids, t) && CallsMade(l, ids, t)
    && (l.fired <==> t.told != [])
    && l.memory == (if t.told == [] then None else Some(t.told[|t.told| - 1]))
    && (l.firing ==> StillToCall(l, ids, t))
    && (if open then l.stack.Some? && l.list == Some(Users(ids)) else l.stack.None? && (l.list.Some? <==> t.told != []))
  }

  // ---------- more callbacks ----------

  lemma {:induction false} RoundsSame<D>(ids: seq<nat>, f: nat, told: seq<D>, ended: seq<nat>)
    requires |told| == |ended| && forall i {:trigger ended[i]} :: 0 <= i < |ended| ==> ended[i] <= |ids|
    ensures Rounds(ids + [f], told, ended) == Rounds(ids, told, ended)
    decreases |told|
  {
    if told != [] {
      var n := |told| - 1;
      RoundsSame(ids, f, told[..n], ended[..n]);
      assert (ids + [f])[..ended[n]] == ids[..ended[n]];
    }
  }

  lemma UsersMore(ids: seq<nat>, f: nat, p: nat)
    requires p <= |ids|
    ensures Users((ids + [f])[p..]) == Users(ids[p..]) + [User(f)]
    ensures (ids + [f])[..p] == ids[..p]
    ensures Users(ids + [f]) == Users(ids) + [User(f)]
  {
  }

  lemma AddsOne<D>(l: State<Entry, D>, f: nat)
    requires Inv(l) && l.options == MEMORY && l.list.Some?
    ensures Added(l, [User(f)])
         == var list := l.list.value + [User(f)];
            if l.firing then l.(list := Some(list), firingLength := |list|)
            else if l.memory.Some? then
              l.(list := Some(list), firingIndex := |l.list.value|, firingLength := |list|, firing := true,
                fired := true,
                 data := l.memory, started := l.started + [l.memory.value],
                   log := l.log + [Call(User(f), l.memory.value)])
            else l.(list := Some(list))
  {
    var list := l.list.value + [User(f)];
    assert [User(f)][1..] == [];
    assert Pushed(list, [], false) == list;
    assert Pushed(l.list.value, [User(f)], false) == list;
    if !l.firing && l.memory.Some? {
      var next := l.(list := Some(list), firingIndex := |l.list.value|, firingLength := |list|, firing := true,
                     fired := true, data := l.memory, started := l.started + [l.memory.value]);
      assert Added(l, [User(f)]) == Loop(next);
      assert list[|l.list.value|] == User(f);
    }
  }

  lemma PastSame<D>(ids: seq<nat>, f: nat, t: Tale<D>)
    requires TaleOk(ids, t)
    ensures TaleOk(ids + [f], t) && Past(ids + [f], t) == Past(ids, t)
  {
    RoundsSame(ids, f, t.told[..|t.ended|], t.ended);
  }

  lemma OneCallMore<D>(ids: seq<nat>, p: nat, v: D)
    requires p < |ids|
    ensures Calls(Users(ids[..p + 1]), v) == Calls(Users(ids[..p]), v) + [Call(User(ids[p]), v)]
  {
  }

  /** A callback that is attached joins the running notification, or is called for the last one, if there was one. */
  lemma AttachTells<D>(l: State<Entry, D>, ids: seq<nat>, t: Tale<D>, open: bool, f: nat)
    requires Telling(l, ids, t, open)
    ensures Telling(Added(l, [User(f)]), ids + [f], t, open)
  {
    var l', ids' := Added(l, [User(f)]), ids + [f];
    AddKeepsInv(l, [User(f)]);
    PastSame(ids, f, t);
    var p := |l.log| - |Past(ids, t)|;
    if l.list.Some? {
      AddsOne(l, f);
      UsersMore(ids, f, |ids|);
      hide Past, Added;
      if t.told == [] {
      } else if l.firing {
        UsersMore(ids, f, p);
        assert l'.list.value[l'.firingIndex + 1..] == l.list.value[l.firingIndex + 1..] + [User(f)];
      } else {
        OneCallMore(ids', |ids|, t.told[|t.told| - 1]);
        assert ids'[..|ids|] == ids && ids'[|ids|] == f && ids[..|ids|] == ids;
        assert Users(ids'[|ids| + 1..]) == [];
        assert l'.list.value[l'.firingIndex + 1..] == [];
      }
    }
  }

  // ---------- notifications ----------

  lemma MorePast<D>(ids: seq<nat>, t: Tale<D>, v: D)
    requires TaleOk(ids, t)
    ensures var t' := More(t, [v], |ids|);
      && TaleOk(ids, t')
      && Past(ids, t') == if t.told == [] then [] else Past(ids, t) + Calls(Users(ids), t.told[|t.told| - 1])
  {
    var t' := More(t, [v], |ids|);
    if t.told != [] {
      assert t'.told[..|t'.ended|] == t.told;
      assert t.told[..|t.ended|] == t.told[..|t.told| - 1];
      assert t'.ended[..|t.ended|] == t.ended && ids[..|ids|] == ids;
    }
  }

  lemma FireIs<D>(l: State<Entry, D>, ids: seq<nat>, v: D)
    requires l.options == MEMORY && l.firingStart == 0 && l.list == Some(Users(ids)) && l.stack.Some? && !l.firing
    requires ids == [] ==> l.stack.value == []
    ensures var begun := l.(memory := Some(v), fired := true, firingIndex := 0, firingLength := |ids|, data := Some(v),
                            started := l.started + [v]);
      Fire(l, v) == if ids == [] then begun else begun.(firing := true, log := l.log + [Call(User(ids[0]), v)])
  {
    var next := l.(memory := Some(v), fired := true, firingIndex := 0, firingLength := |ids|, firing := true,
                   data := Some(v), started := l.started + [v]);
    assert Fire(l, v) == Loop(next);
    if ids == [] { assert Loop(next) == Finish(next); }
  }

  /** The list while no notification is running begins one. */
  lemma FireTells<D>(l: State<Entry, D>, ids: seq<nat>, t: Tale<D>, v: D)
    requires Telling(l.(firing := false, stack := Some([])), ids, t, true) && l.stack.Some? && !l.firing
    requires ids == [] ==> l.stack.value == []
    ensures var l' := Fire(l, v);
      && Telling(l', ids, More(t, [v], |ids|), true) && l'.started == l.started + [v] && l'.stack == l.stack
  {
    var l', t' := Fire(l, v), More(t, [v], |ids|);
    MorePast(ids, t, v);
    FireIs(l, ids, v);
    assert ids[..|ids|] == ids;
    assert l.log == Past(ids, t');
    hide Past, Fire;
    assert Calls<Entry, D>(Users(ids[..0]), v) == [];
    if ids != [] {
      OneCallMore(ids, 0, v);
      assert Users(ids)[1..] == Users(ids[1..]);
    }
  }

  lemma NotifyTells<D>(l: State<Entry, D>, ids: seq<nat>, t: Tale<D>, open: bool, v: D)
    requires Telling(l, ids, t, open)
    ensures var l' := FiredWith(l, v);
      var begun := if open && !l.firing then [v] else [];
      && Telling(l', ids, More(t, begun, |ids|), open) && l'.started == l.started + begun
      && (open ==> begun + l'.stack.value == l.stack.value + [v]) && (!open ==> l' == l)
  {
    FireWithKeepsInv(l, v);
    if open && !l.firing {
      assert l.stack.value == [];
      assert l.(firing := false, stack := Some([])) == l;
      hide Telling;
      FireTells(l, ids, t, v);
    } else if open {
      hide Past;
    }
  }

  // ---------- returns ----------

  /** The running callback returns: the next one is called, or the notification that waited longest begins, or the list
      is idle. */
  lemma ReturnTells<D>(l: State<Entry, D>, ids: seq<nat>, t: Tale<D>, open: bool, isFalse: bool)
    requires Telling(l, ids, t, open) && l.firing
    ensures var l' := Returned(l, isFalse);
      var begun := if open && l.firingIndex + 1 == |l.list.value| && l.stack.value != [] then [l.stack.value[0]]
          else [];
      && Telling(l', ids, More(t, begun, |ids|), open) && l'.started == l.started + begun
      && (open ==> begun + l'.stack.value == l.stack.value)
  {
    ReturnKeepsInv(l, isFalse);
    var p := |l.log| - |Past(ids, t)|;
    var next := l.(firingIndex := l.firingIndex + 1);
    if l.firingIndex + 1 < |l.list.value| {
      NextTells(l, ids, t, open, isFalse);
    } else {
      assert Loop(next) == Finish(next);
      assert |Users(ids[p..])| == |ids| - p == 0;
      var ended := next.(firing := false);
      if open && l.stack.value != [] {
        var waiting := ended.(stack := Some(l.stack.value[1..]));
        assert Telling(waiting.(firing := false, stack := Some([])), ids, t, true) by { hide Past; }
        hide Telling;
        FireTells(waiting, ids, t, l.stack.value[0]);
      } else {
        hide Past;
      }
    }
  }

  lemma NextTells<D>(l: State<Entry, D>, ids: seq<nat>, t: Tale<D>, open: bool, isFalse: bool)
    requires Telling(l, ids, t, open) && l.firing && l.firingIndex + 1 < |l.list.value|
    ensures var l' := Returned(l, isFalse);
      Telling(l', ids, t, open) && l'.started == l.started && l'.stack == l.stack
  {
    ReturnKeepsInv(l, isFalse);
    var p := |l.log| - |Past(ids, t)|;
    var rest := l.list.value[l.firingIndex + 1..];
    assert |rest| == |ids| - p;
    assert rest[0] == l.list.value[l.firingIndex + 1] == User(ids[p]);
    OneCallMore(ids, p, t.told[|t.told| - 1]);
    assert rest[1..] == l.list.value[l.firingIndex + 2..];
    assert Users(ids[p..])[1..] == Users(ids[p + 1..]);
    hide Past;
  }

  /** The settlement of the deferred: what waits is dropped, what runs goes on. */
  lemma LockTells<D>(l: State<Entry, D>, ids: seq<nat>, t: Tale<D>)
    requires Telling(l, ids, t, true)
    ensures Telling(Locked(l), ids, t, false)
  {
    hide Past;
  }

  // ---------- whole runs ----------

  /** The notifications that a step begins; attaching a callback begins none. */
  function Begins<D>(before: State<Entry, D>, after: State<Entry, D>, op: UserOp<D>): seq<D> {
    if op.AttachOp? || |after.started| < |before.started| then [] else after.started[|before.started|..]
  }

  /** The tale goes on with what the operations begin. */
  ghost function TaleOf<D>(d: Deferred<D>, t: Tale<D>, ops: seq<UserOp<D>>): Tale<D>
    requires DInv(d)
    decreases |ops|
  {
    if ops == [] then t
    else
      StepKeepsDInv(d, ops[0]);
      var next := StepD(d, ops[0]);
      TaleOf(next, More(t, Begins(d.progress, next.progress, ops[0]), |next.attachedProgress|), ops[1..])
  }

  /** The notifications made before the deferred is settled. */
  function Notifications<D>(ops: seq<UserOp<D>>): seq<D>
    decreases |ops|
  {
    if ops == [] then []
    else match ops[0]
      case SettleOp(which, data) => if which == Progress then [data] + Notifications(ops[1..]) else []
      case _ => Notifications(ops[1..])
  }

  /** A progress list, its tale, and the notifications made; those that have not begun to call wait while the deferred
      is pending, and are dropped when it is settled. */
  ghost predicate Told<D>(l: State<Entry, D>, ids: seq<nat>, t: Tale<D>, made: seq<D>, open: bool) {
    Telling(l, ids, t, open) && if open then t.told + l.stack.value == made else t.told <= made
  }

  lemma AttachTold<D>(l: State<Entry, D>, ids: seq<nat>, t: Tale<D>, made: seq<D>, open: bool, f: nat)
    requires Told(l, ids, t, made, open)
    ensures Told(Added(l, [User(f)]), ids + [f], t, made, open)
  {
    AttachTells(l, ids, t, open, f);
    if l.list.Some? { AddsOne(l, f); }
    hide Telling, Added;
  }

  lemma ReturnTold<D>(l: State<Entry, D>, ids: seq<nat>, t: Tale<D>, made: seq<D>, open: bool, isFalse: bool)
    requires Told(l, ids, t, made, open) && l.firing
    ensures Inv(l) && var l', op := Returned(l, isFalse), ResumeOp(Progress, isFalse);
      Told(l', ids, More(t, Begins(l, l', op), |ids|), made, open)
  {
    ReturnTells(l, ids, t, open, isFalse);
    hide Telling, Returned;
  }

  lemma NotifyTold<D>(l: State<Entry, D>, ids: seq<nat>, t: Tale<D>, made: seq<D>, open: bool, v: D)
    requires Told(l, ids, t, made, open)
    ensures Inv(l) && var l', op := FiredWith(l, v), SettleOp(Progress, v);
      Told(l', ids, More(t, Begins(l, l', op), |ids|), if open then made + [v] else made, open)
  {
    NotifyTells(l, ids, t, open, v);
    hide Telling, FiredWith;
  }

  lemma LockTold<D>(l: State<Entry, D>, ids: seq<nat>, t: Tale<D>, made: seq<D>)
    requires Told(l, ids, t, made, true)
    ensures Told(Locked(l), ids, t, made, false) && Locked(l).started == l.started
  {
    LockTells(l, ids, t);
    hide Telling;
  }

  lemma BeginsNothing<D>(l: State<Entry, D>, l': State<Entry, D>, op: UserOp<D>, t: Tale<D>, n: nat)
    requires op.AttachOp? || l'.started == l.started
    ensures More(t, Begins(l, l', op), n) == t
  {
  }

  ghost predicate ToldOf<D>(d: Deferred<D>, t: Tale<D>, made: seq<D>) {
    Told(d.progress, d.attachedProgress, t, made, d.status == Pending)
  }

  function MadeBy<D>(open: bool, op: UserOp<D>): seq<D> {
    if op.SettleOp? && op.which == Progress && open then [op.data] else []
  }

  lemma StepTold<D>(d: Deferred<D>, t: Tale<D>, made: seq<D>, op: UserOp<D>)
    requires DInv(d) && ToldOf(d, t, made)
    ensures var d' := StepD(d, op);
      ToldOf(d', More(t, Begins(d.progress, d'.progress, op), |d'.attachedProgress|),
        made + MadeBy(d.status == Pending, op))
  {
    hide Told, More, Begins, FiredWith, Returned, Locked, Added, Settle, Resume, ListsInv, Notified, ProgressLocked,
        Untouched,
         Running, Off;
    var d' := StepD(d, op);
    assert made + [] == made;
    match op
    case AttachOp(which, f) =>
      BeginsNothing(d.progress, d'.progress, op, t, |d'.attachedProgress|);
      if which == Progress { AttachTold(d.progress, d.attachedProgress, t, made, d.status == Pending, f); }
    case ResumeOp(which, isFalse) =>
      ResumedProgress(d, which, isFalse);
      if which == Progress && d.progress.firing {
        ReturnTold(d.progress, d.attachedProgress, t, made, d.status == Pending, isFalse);
        SameBegins(d.progress, d'.progress, op, ResumeOp(Progress, isFalse));
      } else {
        BeginsNothing(d.progress, d'.progress, op, t, |d'.attachedProgress|);
      }
    case SettleOp(which, data) =>
      SettledProgressIs(d, which, data);
      if which == Progress {
        NotifyTold(d.progress, d.attachedProgress, t, made, d.status == Pending, data);
      } else {
        if d.status == Pending { LockTold(d.progress, d.attachedProgress, t, made); }
        BeginsNothing(d.progress, d'.progress, op, t, |d'.attachedProgress|);
      }
  }

  lemma SameBegins<D>(l: State<Entry, D>, l': State<Entry, D>, op: UserOp<D>, op': UserOp<D>)
    requires !op.AttachOp? && !op'.AttachOp?
    ensures Begins(l, l', op) == Begins(l, l', op')
  {
  }

  /** The notifications of a run are those of its first operation and those of the rest. */
  lemma MadeMore<D>(made: seq<D>, ops: seq<UserOp<D>>, open: bool)
    requires ops != []
    ensures (if open then made + Notifications(ops) else made)
         == var made' := made + MadeBy(open, ops[0]);
            if open && !(ops[0].SettleOp? && ops[0].which != Progress) then made' + Notifications(ops[1..]) else made'
  {
    if open {
      var head := MadeBy(open, ops[0]);
      var rest := if ops[0].SettleOp? && ops[0].which != Progress then [] else Notifications(ops[1..]);
      assert Notifications(ops) == head + rest;
      hide Notifications, MadeBy;
      Regrouped(made, head, rest);
      assert made + head + [] == made + head;
    } else {
      assert made + [] == made;
    }
  }

  lemma Regrouped<D>(a: seq<D>, b: seq<D>, c: seq<D>)
    ensures a + (b + c) == a + b + c
  {
  }

  lemma {:induction false} RunTold<D>(d: Deferred<D>, t: Tale<D>, made: seq<D>, ops: seq<UserOp<D>>)
    requires DInv(d) && ToldOf(d, t, made)
    ensures ToldOf(RunD(d, ops), TaleOf(d, t, ops), if d.status == Pending then made + Notifications(ops) else made)
    decreases |ops|
  {
    hide ToldOf, StepD, ListsInv, More, Begins, MadeBy, Notified, ProgressLocked, Untouched, Running, Off;
    if ops == [] {
      assert made + Notifications(ops) == made;
    } else {
      var next := StepD(d, ops[0]);
      StepKeepsDInv(d, ops[0]);
      StepTold(d, t, made, ops[0]);
      MadeMore(made, ops, d.status == Pending);
      hide DInv, Notifications;
      var made' := made + MadeBy(d.status == Pending, ops[0]);
      RunTold(next, More(t, Begins(d.progress, next.progress, ops[0]), |next.attachedProgress|), made', ops[1..]);
    }
  }

  lemma NothingTold<D>()
    ensures ToldOf<D>(NewDeferred(), Tale([], []), [])
  {
    assert Users([]) == [];
    assert Rounds<D>([], [], []) == [];
  }

  /** After any run of a new deferred, calls from callbacks included: while it is pending the progress list holds
      exactly the callbacks attached, in order, and the notifications that have begun to call and those that wait are
      together those made, in order.  Each of them has called every callback attached until the next one began, once and
      in order, and the last one all of them, or all up to the one that is running; this goes on after the settlement,
      when what still waits is dropped. */
  lemma NotificationsCall<D>(ops: seq<UserOp<D>>)
    ensures DInv<D>(NewDeferred())
    ensures var d := RunD(NewDeferred(), ops);
      var l, ids, t, made := d.progress, IdsAttached(ops, Progress), TaleOf(NewDeferred(), Tale([], []), ops),
          Notifications(ops);
      && TaleOk(ids, t) && CallsMade(l, ids, t)
      && (d.status == Pending ==>
            l.list == Some(Users(ids)) && l.stack.Some? && t.told + l.stack.value == made
            && (!l.firing ==> l.stack.value == []))
      && (d.status != Pending ==> t.told <= made && l.stack.None?)
  {
    NewDeferredInv<D>();
    NothingTold<D>();
    RunTold(NewDeferred(), Tale([], []), [], ops);
    AttachedInOrder(NewDeferred(), ops);
    assert [] + Notifications(ops) == Notifications(ops);
    assert [] + IdsAttached(ops, Progress) == IdsAttached(ops, Progress);
    hide RunD, TaleOf, Notifications, IdsAttached, CallsMade, StillToCall, Past, DInv;
  }
}
