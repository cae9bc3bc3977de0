/** A deferred settles at most once, and each callback runs exactly once, in the order of attachment and with the
    settling arguments, if the deferred settled its way; if not, never. */
module DeferredTheorems {
  import opened Wrappers
  import opened CallbackState
  import opened CallbackQueue
  import opened DeferredState

  function Ids<D>(d: Deferred<D>, which: Which): seq<nat> {
    match which
    case Done => d.attachedDone
    case Fail => d.attachedFail
    case Progress => d.attachedProgress
  }

  function Other(which: Which): Which {
    match which
    case Done => Fail
    case Fail => Done
    case Progress => Progress
  }

  function StatusOf(which: Which): Status {
    match which
    case Done => Resolved
    case Fail => Rejected
    case Progress => Pending
  }

  /** A list of a deferred that is still pending: the deferred's own callbacks, then the user's. */
  ghost predicate Untouched<D>(l: State<Entry, D>, ids: seq<nat>) {
    && l.options == ONCE_MEMORY && Inv(l) && l.list == Some(OWN + Users(ids)) && l.memory == None
    && !l.fired && !l.firing && l.log == []
  }

  /** The list of the way the deferred has settled: the first callbacks have been called with the settling
      arguments; if one of them is still running, the others are the rest of the list. */
  ghost predicate Running<D>(l: State<Entry, D>, ids: seq<nat>) {
    && l.options == ONCE_MEMORY && Inv(l) && l.fired && l.list.Some? && l.memory.Some?
    && var v := l.memory.value;
       var n := |l.log| - 3;
       && 0 <= n <= |ids|
       && l.log == Calls(OWN, v) + Calls(Users(ids[..n]), v)
       && (if l.firing then
             && l.data == Some(v) && 0 <= l.firingIndex < |l.list.value|
             && l.list.value[l.firingIndex].User?
             && l.list.value[l.firingIndex + 1..] == Users(ids[n..])
           else n == |ids| && l.list.value == [])
  }

  /** The list of the other way: it is disabled and has called nothing. */
  ghost predicate Off<D>(l: State<Entry, D>) {
    l.options == ONCE_MEMORY && Inv(l) && l.list == None && !l.firing && l.log == []
  }

  /** The progress list remembers the arguments it was last notified with. */
  ghost predicate Notified<D>(l: State<Entry, D>) {
    && (l.fired ==> l.started != [])
    && (l.memory.Some? ==> l.started != [] && l.memory.value == l.started[|l.started| - 1])
    && (l.firing ==> l.started != [] && l.data == Some(l.started[|l.started| - 1]))
  }

  /** A locked progress list begins no firing but a replay. */
  ghost predicate ProgressLocked<D>(l: State<Entry, D>) {
    l.stack.None? && (l.list.Some? ==> l.fired)
  }

  ghost predicate DInv<D>(d: Deferred<D>) {
    && ListsInv(d) && Notified(d.progress) && (d.status != Pending ==> ProgressLocked(d.progress))
    && match d.status
       case Pending => Untouched(d.done, d.attachedDone) && Untouched(d.fail, d.attachedFail)
       case Resolved => Running(d.done, d.attachedDone) && Off(d.fail)
       case Rejected => Running(d.fail, d.attachedFail) && Off(d.done)
  }

  lemma NewDeferredInv<D>()
    ensures DInv<D>(NewDeferred())
  {
    assert OWN + Users([]) == OWN;
  }

  // ---------- the lists ----------

  /** The list goes on to the user callback after the one that is running. */
  lemma RunningNext<D>(l: State<Entry, D>, ids: seq<nat>, isFalse: bool)
    requires Running(l, ids) && l.firing && l.firingIndex + 1 < |l.list.value|
    ensures var l' := l.(firingIndex := l.firingIndex + 1,
                         log := l.log + [Call(l.list.value[l.firingIndex + 1], l.memory.value)]);
            Returned(l, isFalse) == l' && Running(l', ids)
  {
    var v := l.memory.value;
    var n := |l.log| - 3;
    var rest := l.list.value[l.firingIndex + 1..];
    assert n < |ids| by { assert |Users(ids[n..])| == |ids| - n; }
    assert rest[0] == l.list.value[l.firingIndex + 1] == User(ids[n]);
    assert Calls(Users(ids[..n + 1]), v) == Calls(Users(ids[..n]), v) + [Call(User(ids[n]), v)];
    assert rest[1..] == l.list.value[l.firingIndex + 2..] == Users(ids[n + 1..]);
  }

  /** After the last user callback the firing ends. */
  lemma RunningEnd<D>(l: State<Entry, D>, ids: seq<nat>, isFalse: bool)
    requires Running(l, ids) && l.firing && l.firingIndex + 1 == |l.list.value|
    ensures var l' := l.(firingIndex := l.firingIndex + 1, firing := false, list := Some([]));
            Returned(l, isFalse) == l' && Running(l', ids)
  {
    var n := |l.log| - 3;
    var next := l.(firingIndex := l.firingIndex + 1);
    assert Loop(next) == Finish(next);
    assert |Users(ids[n..])| == |ids| - n == 0;
  }

  /** The user callbacks a running list has yet to call, one of them being called now. */
  lemma ResumeRunning<D>(l: State<Entry, D>, ids: seq<nat>, isFalse: bool)
    requires Running(l, ids) && l.firing
    ensures Running(Returned(l, isFalse), ids) && !AtOwn(Returned(l, isFalse))
    ensures Returned(l, isFalse).memory == l.memory
  {
    if l.firingIndex + 1 < |l.list.value| {
      RunningNext(l, ids, isFalse);
    } else {
      RunningEnd(l, ids, isFalse);
    }
    hide Returned;
  }

  lemma AttachRunning<D>(l: State<Entry, D>, ids: seq<nat>, f: nat)
    requires Running(l, ids)
    ensures Running(Added(l, [User(f)]), ids + [f]) && !AtOwn(Added(l, [User(f)]))
    ensures Added(l, [User(f)]).memory == l.memory
  {
    var v := l.memory.value;
    var n := |l.log| - 3;
    var list := l.list.value;
    AddKeepsInv(l, [User(f)]);
    assert Pushed(list + [User(f)], [], false) == list + [User(f)];
    assert [User(f)][1..] == [];
    assert Pushed(list, [User(f)], false) == list + [User(f)];
    if l.firing {
      assert (ids + [f])[..n] == ids[..n];
      assert (list + [User(f)])[l.firingIndex + 1..] == list[l.firingIndex + 1..] + [User(f)];
      assert Users((ids + [f])[n..]) == Users(ids[n..]) + [User(f)];
    } else {
      var fired := Added(l, [User(f)]);
      assert Pushed(list, [User(f)], l.options.unique) == [User(f)];
      assert fired == Loop(l.(list := Some([User(f)]), firingIndex := 0, firingLength := 1, firing := true,
          data := Some(v),
                              started := l.started + [v]));
      assert (ids + [f])[..n + 1] == ids + [f] && ids[..n] == ids;
      assert Users(ids + [f]) == Users(ids) + [User(f)];
      assert fired.log == l.log + [Call(User(f), v)];
      assert fired.list.value[1..] == [];
    }
  }

  lemma AttachUntouched<D>(l: State<Entry, D>, ids: seq<nat>, f: nat)
    requires Untouched(l, ids)
    ensures Untouched(Added(l, [User(f)]), ids + [f])
  {
    AddKeepsInv(l, [User(f)]);
    assert [User(f)][1..] == [];
    assert Pushed(l.list.value + [User(f)], [], false) == l.list.value + [User(f)];
    assert OWN + Users(ids + [f]) == OWN + Users(ids) + [User(f)];
  }

  // ---------- the progress list ----------

  lemma {:induction false} FireNotifies<D>(l: State<Entry, D>, v: D)
    requires l.list.Some?
    ensures Notified(Fire(l, v))
    decreases StackLength(l), 2
  {
    LoopNotifies(l.(memory := if l.options.memory then Some(v) else None, fired := true, firingIndex := l.firingStart,
                    firingStart := 0, firingLength := |l.list.value|, firing := true, data := Some(v),
                    started := l.started + [v]));
  }

  lemma {:induction false} LoopNotifies<D>(l: State<Entry, D>)
    requires Notified(l) && l.data.Some? && l.firingIndex >= 0 && (l.list.Some? ==> l.firingLength == |l.list.value|)
    ensures Notified(Loop(l))
    decreases StackLength(l), 1
  {
    if !(l.list.Some? && l.firingIndex < l.firingLength) {
      FinishNotifies(l);
    }
  }

  lemma {:induction false} FinishNotifies<D>(l: State<Entry, D>)
    requires Notified(l.(firing := false))
    ensures Notified(Finish(l))
    decreases StackLength(l), 0
  {
    if l.list.Some? && l.stack.Some? && l.stack.value != [] {
      FireNotifies(l.(firing := false, stack := Some(l.stack.value[1..])), l.stack.value[0]);
    }
  }

  /** An attachment, a notification or a return keeps what the progress list remembers. */
  lemma StepNotifies<D>(l: State<Entry, D>, op: Op<Entry, D>)
    requires Inv(l) && Notified(l) && !op.Remove?
    ensures Notified(Step(l, op))
  {
    match op
    case Add(fs) =>
      if l.list.Some? && !l.firing && l.memory.Some? {
        FireNotifies(l.(list := Some(Pushed(l.list.value, fs, l.options.unique)), firingStart := |l.list.value|),
                     l.memory.value);
      }
    case FireWith(data) =>
      if l.list.Some? && !l.firing && (!l.fired || l.stack.Some?) { FireNotifies(l, data); }
    case Return(isFalse) =>
      if l.firing {
        if isFalse && l.options.stopOnFalse {
          FinishNotifies(l.(memory := None));
        } else {
          LoopNotifies(l.(firingIndex := l.firingIndex + 1));
        }
      }
  }

  lemma LockNotifies<D>(l: State<Entry, D>)
    requires Inv(l) && Notified(l)
    ensures Notified(Locked(l)) && ProgressLocked(Locked(l))
  {
  }

  /** Calls made since get the arguments the list was last notified with. */
  ghost predicate OnlyLast<D>(l: State<Entry, D>, l': State<Entry, D>) {
    && l.log <= l'.log
    && (forall k {:trigger l'.log[k]} :: |l.log| <= k < |l'.log| ==>
          l.started != [] && l'.log[k].data == l.started[|l.started| - 1])
    && (l'.started == [] <==> l.started == [])
    && (l.started != [] ==> l'.started[|l'.started| - 1] == l.started[|l.started| - 1])
  }

  lemma OnlyLastRefl<D>(l: State<Entry, D>)
    ensures OnlyLast(l, l)
  {
  }

  lemma OnlyLastTransitive<D>(a: State<Entry, D>, b: State<Entry, D>, c: State<Entry, D>)
    requires OnlyLast(a, b) && OnlyLast(b, c)
    ensures OnlyLast(a, c)
  {
    forall k | |a.log| <= k < |c.log|
      ensures a.started != [] && c.log[k].data == a.started[|a.started| - 1]
    {
      if k < |b.log| {
        assert c.log[k] == b.log[k];
      } else {
        assert c.log[k].data == b.started[|b.started| - 1];
      }
    }
  }

  /** A locked progress list stays locked. */
  lemma LockedStep<D>(l: State<Entry, D>, op: Op<Entry, D>)
    requires Inv(l) && Notified(l) && ProgressLocked(l) && !op.Remove?
    ensures ProgressLocked(Step(l, op)) && OnlyLast(l, Step(l, op))
    ensures op.FireWith? ==> Step(l, op) == l
  {
    var any: ListOp<Entry, D> := Plain(op);
    ListStepKeepsInv(l, any);
    if l.list.Some? {
      FixedStep(l, any, l.started[|l.started| - 1]);
    } else {
      DisabledStep(l, any);
    }
    hide Step, Notified;
    assert ListStep(l, any) == Step(l, op);
  }

  // ---------- settling ----------

  /** The list `l` inside its own callback number `i`, after it was fired with `v`. */
  function Begun<D>(l: State<Entry, D>, v: D, i: nat): State<Entry, D>
    requires l.list.Some? && i < |OWN|
  {
    l.(memory := Some(v), fired := true, firing := true, firingIndex := i, firingLength := |l.list.value|,
      data := Some(v),
       started := l.started + [v], log := Calls(OWN[..i + 1], v))
  }

  lemma BegunInv<D>(l: State<Entry, D>, ids: seq<nat>, v: D, i: nat)
    requires Untouched(l, ids) && i < |OWN|
    ensures var b := Begun(l, v, i); Inv(b) && AtOwn(b) && b.list.value[i] == OWN[i] && b.options == ONCE_MEMORY
  {
  }

  lemma FireBegins<D>(l: State<Entry, D>, ids: seq<nat>, v: D)
    requires Untouched(l, ids)
    ensures FiredWith(l, v) == Begun(l, v, 0)
  {
    var begun := Begun(l, v, 0);
    assert l.list.value[0] == SetStatus;
    assert l.log + [Call(SetStatus, v)] == begun.log;
    assert FiredWith(l, v) == Loop(begun.(log := l.log));
  }

  lemma BegunNext<D>(l: State<Entry, D>, ids: seq<nat>, v: D, i: nat)
    requires Untouched(l, ids) && i + 1 < |OWN|
    ensures Inv(Begun(l, v, i)) && Returned(Begun(l, v, i), false) == Begun(l, v, i + 1)
  {
    BegunInv(l, ids, v, i);
    OwnReturned(Begun(l, v, i));
    assert l.list.value[i + 1] == OWN[i + 1];
    assert Calls(OWN[..i + 2], v) == Calls(OWN[..i + 1], v) + [Call(OWN[i + 1], v)];
  }

  /** The deferred while the list of kind `which` is inside its own callback number `i`. */
  function Staged<D>(d: Deferred<D>, which: Which, v: D, i: nat): Deferred<D>
    requires List(d, which).list.Some? && i < |OWN|
  {
    var own := WithList(d, which, Begun(List(d, which), v, i));
    var known := if i == 0 then own else own.(status := StatusOf(which));
    if i < 2 then known else WithList(known, Other(which), Disabled(List(d, Other(which))))
  }

  /** One of the own callbacks does its part and the next one is entered. */
  lemma StageNext<D>(d: Deferred<D>, which: Which, v: D, i: nat)
    requires which != Progress && i + 1 < |OWN| && Untouched(List(d, which), Ids(d, which))
    ensures var s := Staged(d, which, v, i);
            && Inv(List(s, which)) && List(s, which).options.once && AtOwn(List(s, which))
            && WithList(Effect(s, which, OWN[i]), which, Returned(List(s, which), false)) == Staged(d, which, v, i + 1)
  {
    BegunInv(List(d, which), Ids(d, which), v, i);
    BegunNext(List(d, which), Ids(d, which), v, i);
    hide Begun, Returned;
  }

  lemma DrainOnce<D>(d: Deferred<D>, which: Which)
    requires which != Progress && Inv(List(d, which)) && List(d, which).options.once && AtOwn(List(d, which))
    ensures var l := List(d, which);
            var next := WithList(Effect(d, which, l.list.value[l.firingIndex]), which, Returned(l, false));
            Inv(List(next, which)) && List(next, which).options.once && Drain(d, which) == Drain(next, which)
  {
    ReturnKeepsInv(List(d, which), false);
    hide Returned;
  }

  /** The own callbacks run one after the other. */
  lemma {:induction false} DrainStages<D>(d: Deferred<D>, which: Which, v: D, i: nat)
    requires which != Progress && i < |OWN| && Untouched(List(d, which), Ids(d, which))
    ensures var s, last := Staged(d, which, v, i), Staged(d, which, v, 2);
            && Inv(List(s, which)) && List(s, which).options.once && Inv(List(last, which))
              && List(last, which).options.once
            && Drain(s, which) == Drain(last, which)
    decreases |OWN| - i
  {
    BegunInv(List(d, which), Ids(d, which), v, i);
    BegunInv(List(d, which), Ids(d, which), v, 2);
    hide Drain, Inv, Untouched, AtOwn;
    if i + 1 < |OWN| {
      StageNext(d, which, v, i);
      DrainOnce(Staged(d, which, v, i), which);
      DrainStages(d, which, v, i + 1);
    }
  }

  /** After its own callbacks a list runs the user's. */
  lemma LastOwn<D>(l: State<Entry, D>, ids: seq<nat>, v: D)
    requires Inv(l) && l.options == ONCE_MEMORY && l.list == Some(OWN + Users(ids)) && l.memory == Some(v) && l.firing
    requires l.data == Some(v) && l.firingIndex == 2
    requires l.log == [Call(SetStatus, v), Call(DisableOther, v), Call(LockProgress, v)]
    ensures Running(Returned(l, false), ids) && !AtOwn(Returned(l, false)) && Returned(l, false).memory == Some(v)
  {
    assert l.log == Calls(OWN, v);
    OwnReturned(l);
    ReturnKeepsInv(l, false);
    if |ids| > 0 {
      assert l.list.value[3] == User(ids[0]);
      assert Users(ids[..1]) == [User(ids[0])];
      assert l.list.value[4..] == Users(ids[1..]);
    } else {
      assert Users(ids[..0]) == [];
    }
  }

  /** The last own callback locks the progress list; then the user's callbacks have their turn. */
  lemma DrainLast<D>(d: Deferred<D>, which: Which, v: D)
    requires DInv(d) && d.status == Pending && which != Progress
    ensures var s := Staged(d, which, v, 2);
            && Inv(List(s, which)) && List(s, which).options.once
            && var d' := Drain(s, which);
               && DInv(d') && d'.status == StatusOf(which) && List(d', which).memory == Some(v)
               && d'.attachedDone == d.attachedDone && d'.attachedFail == d.attachedFail
                 && d'.attachedProgress == d.attachedProgress
               && d'.progress == Locked(d.progress)
  {
    var l := List(d, which);
    var s := Staged(d, which, v, 2);
    LockNotifies(d.progress);
    BegunInv(l, Ids(d, which), v, 2);
    assert Calls(OWN[..3], v) == [Call(SetStatus, v), Call(DisableOther, v), Call(LockProgress, v)];
    LastOwn(Begun(l, v, 2), Ids(d, which), v);
    DrainOnce(s, which);
    hide Returned, Running, Notified, ProgressLocked;
    var end := WithList(Effect(s, which, LockProgress), which, Returned(Begun(l, v, 2), false));
    ReturnKeepsInv(Begun(l, v, 2), false);
    assert Drain(end, which) == end;
  }

  /** The first call of `resolve` (or `reject`) on a pending deferred. */
  lemma SettlePending<D>(d: Deferred<D>, which: Which, v: D)
    requires DInv(d) && d.status == Pending && which != Progress
    ensures var d' := Settle(d, which, v);
            && DInv(d') && d'.status == StatusOf(which) && List(d', which).memory == Some(v)
            && d'.attachedDone == d.attachedDone && d'.attachedFail == d.attachedFail
              && d'.attachedProgress == d.attachedProgress
            && d'.progress == Locked(d.progress)
  {
    FireBegins(List(d, which), Ids(d, which), v);
    DrainStages(d, which, v, 0);
    DrainLast(d, which, v);
    hide Drain, Begun, FiredWith, DInv;
    assert WithList(d, which, Begun(List(d, which), v, 0)) == Staged(d, which, v, 0);
  }

  /** Settling again changes nothing. */
  lemma SettleSettled<D>(d: Deferred<D>, which: Which, v: D)
    requires DInv(d) && d.status != Pending && which != Progress
    ensures Settle(d, which, v) == d
  {
  }

  // ---------- whole runs ----------

  /** What user code does: attach a callback, settle or notify, or return from a callback that a list is running. */
  datatype UserOp<D> = AttachOp(which: Which, f: nat) | SettleOp(which: Which, data: D) | ResumeOp(which: Which,
    isFalse: bool)

  function StepD<D>(d: Deferred<D>, op: UserOp<D>): Deferred<D>
    requires ListsInv(d)
  {
    match op
    case AttachOp(which, f) => Attach(d, which, f)
    case SettleOp(which, data) => Settle(d, which, data)
    case ResumeOp(which, isFalse) => Resume(d, which, isFalse)
  }

  /** The arguments a settled deferred was settled with. */
  function SettledWith<D>(d: Deferred<D>): Option<D> {
    match d.status
    case Pending => None
    case Resolved => d.done.memory
    case Rejected => d.fail.memory
  }

  lemma ProgressStep<D>(d: Deferred<D>, op: Op<Entry, D>)
    requires DInv(d) && !op.Remove?
    ensures Notified(Step(d.progress, op))
    ensures d.status != Pending ==> ProgressLocked(Step(d.progress, op)) && OnlyLast(d.progress, Step(d.progress, op))
    ensures d.status != Pending && op.FireWith? ==> Step(d.progress, op) == d.progress
  {
    StepNotifies(d.progress, op);
    if d.status != Pending { LockedStep(d.progress, op); }
  }

  lemma AttachKeepsInv<D>(d: Deferred<D>, which: Which, f: nat)
    requires DInv(d)
    ensures DInv(Attach(d, which, f)) && Attach(d, which, f).status == d.status
    ensures SettledWith(Attach(d, which, f)) == SettledWith(d)
  {
    AddKeepsInv(List(d, which), [User(f)]);
    if which == Progress { ProgressStep(d, Add([User(f)])); }
    hide Notified, ProgressLocked;
    match d.status
    case Pending =>
      if which != Progress { AttachUntouched(List(d, which), Ids(d, which), f); }
    case Resolved =>
      if which == Done { AttachRunning(d.done, d.attachedDone, f); }
    case Rejected =>
      if which == Fail { AttachRunning(d.fail, d.attachedFail, f); }
  }

  lemma ResumeKeepsInv<D>(d: Deferred<D>, which: Which, isFalse: bool)
    requires DInv(d)
    ensures DInv(Resume(d, which, isFalse)) && Resume(d, which, isFalse).status == d.status
    ensures SettledWith(Resume(d, which, isFalse)) == SettledWith(d)
    ensures Resume(d, which, isFalse).attachedDone == d.attachedDone
    ensures Resume(d, which, isFalse).attachedFail == d.attachedFail
    ensures Resume(d, which, isFalse).attachedProgress == d.attachedProgress
  {
    var l := List(d, which);
    if l.firing {
      ReturnKeepsInv(l, isFalse);
      if which != Progress {
        ResumeRunning(l, Ids(d, which), isFalse);
        hide Notified, ProgressLocked;
        assert Drain(WithList(d, which, Returned(l, isFalse)), which) == WithList(d, which, Returned(l, isFalse));
      } else {
        ProgressStep(d, Return(isFalse));
        hide Notified, ProgressLocked;
      }
    }
  }

  /** Every operation keeps the invariant, and the first settlement is final. */
  lemma StepKeepsDInv<D>(d: Deferred<D>, op: UserOp<D>)
    requires DInv(d)
    ensures DInv(StepD(d, op))
    ensures d.status != Pending ==> StepD(d, op).status == d.status && SettledWith(StepD(d, op)) == SettledWith(d)
    ensures d.status == Pending && op.SettleOp? && op.which != Progress ==>
              StepD(d, op).status == StatusOf(op.which) && SettledWith(StepD(d, op)) == Some(op.data)
    ensures d.status == Pending && op.SettleOp? && op.which != Progress ==>
              StepD(d, op).progress == Locked(d.progress) && ProgressLocked(StepD(d, op).progress)
    ensures d.status == Pending && !(op.SettleOp? && op.which != Progress) ==> StepD(d, op).status == Pending
  {
    match op
    case AttachOp(which, f) => AttachKeepsInv(d, which, f);
    case ResumeOp(which, isFalse) => ResumeKeepsInv(d, which, isFalse);
    case SettleOp(which, data) =>
      if which == Progress {
        FireWithKeepsInv(d.progress, data);
        ProgressStep(d, FireWith(data));
      } else if d.status == Pending {
        SettlePending(d, which, data);
      } else {
        SettleSettled(d, which, data);
      }
  }

  ghost function RunD<D>(d: Deferred<D>, ops: seq<UserOp<D>>): Deferred<D>
    requires DInv(d)
    ensures DInv(RunD(d, ops))
    decreases |ops|
  {
    if ops == [] then d
    else
      StepKeepsDInv(d, ops[0]);
      RunD(StepD(d, ops[0]), ops[1..])
  }

  /** The first settlement among the operations, if there is one. */
  function FirstSettlement<D>(ops: seq<UserOp<D>>): Option<UserOp<D>>
    decreases |ops|
  {
    if ops == [] then None
    else if ops[0].SettleOp? && ops[0].which != Progress then Some(ops[0])
    else FirstSettlement(ops[1..])
  }

  lemma {:induction false} SettledStays<D>(d: Deferred<D>, ops: seq<UserOp<D>>)
    requires DInv(d) && d.status != Pending
    ensures RunD(d, ops).status == d.status && SettledWith(RunD(d, ops)) == SettledWith(d)
    decreases |ops|
  {
    if ops != [] {
      StepKeepsDInv(d, ops[0]);
      SettledStays(StepD(d, ops[0]), ops[1..]);
    }
  }

  /** The first call of resolve or reject decides, with its arguments; all later ones are ignored. */
  lemma {:induction false} FirstSettlementDecides<D>(d: Deferred<D>, ops: seq<UserOp<D>>)
    requires DInv(d) && d.status == Pending
    ensures var end := RunD(d, ops);
            match FirstSettlement(ops)
            case None => end.status == Pending
            case Some(op) => op.SettleOp? && end.status == StatusOf(op.which) && SettledWith(end) == Some(op.data)
    decreases |ops|
  {
    if ops != [] {
      StepKeepsDInv(d, ops[0]);
      var next := StepD(d, ops[0]);
      if next.status == Pending {
        FirstSettlementDecides(next, ops[1..]);
      } else {
        SettledStays(next, ops[1..]);
      }
    }
  }

  lemma ResumedProgress<D>(d: Deferred<D>, which: Which, isFalse: bool)
    requires DInv(d)
    ensures var d' := Resume(d, which, isFalse);
      && d'.progress == (if which == Progress && d.progress.firing then Returned(d.progress, isFalse) else d.progress)
      && d'.status == d.status && d'.attachedProgress == d.attachedProgress
  {
    ResumeKeepsInv(d, which, isFalse);
    if which != Progress && List(d, which).firing {
      ResumeRunning(List(d, which), Ids(d, which), isFalse);
      assert Resume(d, which, isFalse) == WithList(d, which, Returned(List(d, which), isFalse));
    }
    hide Returned, DInv, Drain;
  }

  lemma SettledProgressIs<D>(d: Deferred<D>, which: Which, data: D)
    requires DInv(d)
    ensures var d' := Settle(d, which, data);
      && d'.progress == (if which == Progress then FiredWith(d.progress, data)
                         else if d.status == Pending then Locked(d.progress) else d.progress)
      && d'.status == (if which != Progress && d.status == Pending then StatusOf(which) else d.status)
      && d'.attachedProgress == d.attachedProgress
  {
    if which == Progress {
    } else if d.status == Pending {
      SettlePending(d, which, data);
      hide Settle;
    } else {
      SettleSettled(d, which, data);
      hide Settle;
    }
  }

  /** What user code does to a settled deferred is a step of its progress list, or nothing to it. */
  lemma SettledProgress<D>(d: Deferred<D>, op: UserOp<D>)
    requires DInv(d) && d.status != Pending
    ensures OnlyLast(d.progress, StepD(d, op).progress)
    ensures op.SettleOp? ==> StepD(d, op) == d
  {
    match op
    case AttachOp(which, f) =>
      ProgressStep(d, Add([User(f)]));
      OnlyLastRefl(d.progress);
      hide OnlyLast, Added;
    case ResumeOp(which, isFalse) =>
      ProgressStep(d, Return(isFalse));
      ResumedProgress(d, which, isFalse);
      OnlyLastRefl(d.progress);
      hide OnlyLast, Returned, Resume;
    case SettleOp(which, data) =>
      if which == Progress { ProgressStep(d, FireWith(data)); } else { SettleSettled(d, which, data); }
      OnlyLastRefl(d.progress);
      hide OnlyLast, FiredWith;
  }

  /** After a settlement `notify` does nothing, and whatever user code does, every progress callback that is still
      called gets the arguments of the last notification before it. */
  lemma {:induction false} ProgressAfterSettled<D>(d: Deferred<D>, ops: seq<UserOp<D>>)
    requires DInv(d) && d.status != Pending
    ensures ProgressLocked(d.progress) && (forall v :: Settle(d, Progress, v) == d)
    ensures ProgressLocked(RunD(d, ops).progress) && OnlyLast(d.progress, RunD(d, ops).progress)
    decreases |ops|
  {
    hide OnlyLast;
    forall v ensures Settle(d, Progress, v) == d {
      SettledProgress(d, SettleOp(Progress, v));
    }
    if ops == [] {
      OnlyLastRefl(d.progress);
    } else {
      var next := StepD(d, ops[0]);
      SettledProgress(d, ops[0]);
      StepKeepsDInv(d, ops[0]);
      hide StepD, Settle, Running, Off, Untouched;
      ProgressAfterSettled(next, ops[1..]);
      OnlyLastTransitive(d.progress, next.progress, RunD(d, ops).progress);
    }
  }

  function IdsAttached<D>(ops: seq<UserOp<D>>, which: Which): seq<nat>
    decreases |ops|
  {
    if ops == [] then []
    else (if ops[0].AttachOp? && ops[0].which == which then [ops[0].f] else []) + IdsAttached(ops[1..], which)
  }

  lemma {:induction false} AttachedInOrder<D>(d: Deferred<D>, ops: seq<UserOp<D>>)
    requires DInv(d)
    ensures RunD(d, ops).attachedDone == d.attachedDone + IdsAttached(ops, Done)
    ensures RunD(d, ops).attachedFail == d.attachedFail + IdsAttached(ops, Fail)
    ensures RunD(d, ops).attachedProgress == d.attachedProgress + IdsAttached(ops, Progress)
    decreases |ops|
  {
    hide StepD, ListsInv, Untouched, Running, Off;
    if ops != [] {
      StepKeepsDInv(d, ops[0]);
      StepAttached(d, ops[0]);
      var next := StepD(d, ops[0]);
      AttachedInOrder(next, ops[1..]);
    }
  }

  lemma StepAttached<D>(d: Deferred<D>, op: UserOp<D>)
    requires DInv(d)
    ensures StepD(d, op).attachedDone == d.attachedDone + (if op.AttachOp? && op.which == Done then [op.f] else [])
    ensures StepD(d, op).attachedFail == d.attachedFail + (if op.AttachOp? && op.which == Fail then [op.f] else [])
    ensures StepD(d, op).attachedProgress == d.attachedProgress + (if op.AttachOp? && op.which == Progress then [op.f]
        else [])
  {
    match op
    case AttachOp(which, f) =>
    case ResumeOp(which, isFalse) => ResumeKeepsInv(d, which, isFalse);
    case SettleOp(which, data) =>
      if which != Progress {
        if d.status == Pending { SettlePending(d, which, data); } else { SettleSettled(d, which, data); }
      }
  }

  /** The user callbacks that list `which` has called. */
  function UserCalls<D>(log: seq<Call<Entry, D>>): seq<Call<Entry, D>>
    decreases |log|
  {
    if log == [] then []
    else (if log[0].callback.User? then [log[0]] else []) + UserCalls(log[1..])
  }

  lemma {:induction false} UserCallsOfUsers<D>(ids: seq<nat>, v: D)
    ensures UserCalls(Calls(Users(ids), v)) == Calls(Users(ids), v)
    decreases |ids|
  {
    if ids != [] {
      assert Calls(Users(ids), v)[1..] == Calls(Users(ids[1..]), v);
      UserCallsOfUsers(ids[1..], v);
    }
  }

  lemma UserCallsOfRunning<D>(l: State<Entry, D>, ids: seq<nat>)
    requires Running(l, ids)
    ensures UserCalls(l.log) == Calls(Users(ids[..|l.log| - 3]), l.memory.value)
  {
    var v := l.memory.value;
    var rest := Calls(Users(ids[..|l.log| - 3]), v);
    UserCallsOfUsers(ids[..|l.log| - 3], v);
    assert l.log[1..][1..][1..] == rest;
    assert UserCalls(l.log) == UserCalls(l.log[1..]);
    assert UserCalls(l.log[1..]) == UserCalls(l.log[1..][1..]);
    assert UserCalls(l.log[1..][1..]) == UserCalls(rest);
  }

  /** The calls of one list: those of its callbacks so far if the deferred has settled its way, none otherwise. */
  lemma ListOutcome<D>(d: Deferred<D>, which: Which)
    requires DInv(d) && which != Progress
    ensures var l, ids := List(d, which), Ids(d, which);
      if d.status == StatusOf(which) then
        && l.memory.Some? && SettledWith(d) == l.memory && UserCalls(l.log) <= Calls(Users(ids), l.memory.value)
        && (!l.firing ==> UserCalls(l.log) == Calls(Users(ids), l.memory.value))
      else UserCalls(l.log) == []
  {
    hide Notified, ProgressLocked;
    var l, ids := List(d, which), Ids(d, which);
    if d.status == StatusOf(which) {
      UserCallsOfRunning(l, ids);
      var v := l.memory.value;
      assert Calls(Users(ids), v)[..|l.log| - 3] == Calls(Users(ids[..|l.log| - 3]), v);
      if !l.firing { assert ids[..|l.log| - 3] == ids; }
    }
  }

  /** After any run of a new deferred: if the first settlement was of kind `which`, then its list has called the
      attached callbacks in the order of attachment with the settling arguments, all of them unless one is still
      running; otherwise it has called none. */
  lemma CallbacksRunOnce<D>(ops: seq<UserOp<D>>, which: Which)
    requires which != Progress
    ensures DInv<D>(NewDeferred())
    ensures var l := List(RunD(NewDeferred(), ops), which);
            var ids := IdsAttached(ops, which);
            var first := FirstSettlement(ops);
            if first.Some? && first.value.SettleOp? && first.value.which == which then
              && UserCalls(l.log) <= Calls(Users(ids), first.value.data)
              && (!l.firing ==> UserCalls(l.log) == Calls(Users(ids), first.value.data))
            else UserCalls(l.log) == []
  {
    hide Notified, ProgressLocked, ListsInv, Untouched, Running, Off, RunD, UserCalls, Calls, Users, FirstSettlement,
         IdsAttached;
    NewDeferredInv<D>();
    var d: Deferred<D> := NewDeferred();
    FirstSettlementDecides(d, ops);
    AttachedInOrder(d, ops);
    ListOutcome(RunD(d, ops), which);
    assert [] + IdsAttached(ops, which) == IdsAttached(ops, which);
    assert Ids(RunD(d, ops), which) == IdsAttached(ops, which);
  }
}
