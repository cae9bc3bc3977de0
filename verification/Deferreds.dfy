/** A Deferred as an object: it owns three callback lists and changes them in place.  Each method is proved against
    its function in `DeferredState`. */
module Deferreds {
  import opened CallbackState
  import opened CallbackQueue
  import opened Callbacks
  import opened DeferredState

  class DeferredObject<D> {
    const done: CallbackList<Entry, D>
    const fail: CallbackList<Entry, D>
    const progress: CallbackList<Entry, D>
    var status: Status
    ghost var attachedDone: seq<nat>
    ghost var attachedFail: seq<nat>
    ghost var attachedProgress: seq<nat>

    ghost predicate Valid()
      reads this, done, fail, progress
    {
      done != fail && done != progress && fail != progress && ListsInv(View())
    }

    ghost function View(): Deferred<D>
      reads this, done, fail, progress
    {
      Deferred(done.View(), fail.View(), progress.View(), status, attachedDone, attachedFail, attachedProgress)
    }

    /** Builds the three lists and puts the deferred's own callbacks on the two that settle it. */
    constructor ()
      ensures Valid() && View() == NewDeferred() && fresh(done) && fresh(fail) && fresh(progress)
    {
      done := new CallbackList(ONCE_MEMORY);
      fail := new CallbackList(ONCE_MEMORY);
      progress := new CallbackList(MEMORY);
      status, attachedDone, attachedFail, attachedProgress := Pending, [], [], [];
      new;
      OwnPushed();
      done.Add(OWN);
      fail.Add(OWN);
    }

    method ReturnFrom(which: Which, isFalse: bool)
      requires Valid() && List(View(), which).firing
      modifies done, fail, progress
      ensures Valid() && View() == WithList(old(View()), which, Returned(List(old(View()), which), isFalse))
    {
      ReturnKeepsInv(List(View(), which), isFalse);
      match which
      case Done => done.Return(isFalse);
      case Fail => fail.Return(isFalse);
      case Progress => progress.Return(isFalse);
    }

    /** The body of one of the deferred's own callbacks. */
    method Perform(which: Which, entry: Entry)
      requires Valid() && which != Progress
      modifies this`status, done, fail, progress
      ensures Valid() && View() == Effect(old(View()), which, entry)
    {
      match entry
      case SetStatus => status := if which == Done then Resolved else Rejected;
      case DisableOther => if which == Done { fail.Disable(); } else { done.Disable(); }
      case LockProgress => progress.Lock();
      case User(_) =>
    }

    method RunOne(which: Which, entry: Entry)
      requires Valid() && which != Progress && AtOwn(List(View(), which))
      requires entry == List(View(), which).list.value[List(View(), which).firingIndex]
      modifies this`status, done, fail, progress
      ensures Valid() && Drain(View(), which) == Drain(old(View()), which)
      ensures List(View(), which) == Returned(List(old(View()), which), false)
    {
      ghost var before := View();
      Perform(which, entry);
      assert List(View(), which) == List(before, which);
      ReturnFrom(which, false);
    }

    /** Runs the deferred's own callbacks of a list, one after the other. */
    method RunOwn(which: Which)
      requires Valid() && which != Progress
      modifies this`status, done, fail, progress
      ensures Valid() && View() == Drain(old(View()), which)
    {
      var l := if which == Done then done else fail;
      while l.firing && l.list.Some? && 0 <= l.firingIndex < |l.list.value| && !l.list.value[l.firingIndex].User?
        invariant Valid() && Drain(View(), which) == Drain(old(View()), which)
        decreases if l.firing && l.list.Some? then |l.list.value| - l.firingIndex else 0
      {
        OwnReturned(l.View());
        RunOne(which, l.list.value[l.firingIndex]);
      }
    }

    // ---------- what user code calls ----------

    method AttachTo(which: Which, f: nat)
      requires Valid()
      modifies this`attachedDone, this`attachedFail, this`attachedProgress, done, fail, progress
      ensures Valid() && View() == Attach(old(View()), which, f)
    {
      AddKeepsInv(List(View(), which), [User(f)]);
      match which {
        case Done =>
          done.Add([User(f)]);
          attachedDone := attachedDone + [f];
        case Fail =>
          fail.Add([User(f)]);
          attachedFail := attachedFail + [f];
        case Progress =>
          progress.Add([User(f)]);
          attachedProgress := attachedProgress + [f];
      }
    }

    /** `resolveWith`, `rejectWith` or `notifyWith`. */
    method SettleWith(which: Which, data: D)
      requires Valid()
      modifies this`status, done, fail, progress
      ensures Valid() && View() == Settle(old(View()), which, data)
    {
      FireWithKeepsInv(List(View(), which), data);
      match which
      case Done =>
        done.FireWith(data);
        RunOwn(Done);
      case Fail =>
        fail.FireWith(data);
        RunOwn(Fail);
      case Progress =>
        progress.FireWith(data);
    }

    /** The user callback that a list is running returns. */
    method ResumeFrom(which: Which, isFalse: bool)
      requires Valid() && List(View(), which).firing
      modifies this`status, done, fail, progress
      ensures Valid() && View() == Resume(old(View()), which, isFalse)
    {
      ReturnFrom(which, isFalse);
      if which != Progress {
        RunOwn(which);
      }
    }
  }

  lemma OwnPushed()
    ensures Pushed([], OWN, false) == OWN
  {
    assert OWN[1..] == [DisableOther, LockProgress];
    assert OWN[1..][1..] == [LockProgress];
    assert OWN[1..][1..][1..] == [];
    assert Pushed([SetStatus, DisableOther], [LockProgress], false) == OWN;
    assert Pushed([SetStatus], [DisableOther, LockProgress], false) == OWN;
  }
}
