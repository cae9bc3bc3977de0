/** The callback list as an object: the variables of the closure, changed in place by the operations.  Each
    operation is proved against its function in `CallbackState`. */
module Callbacks {
  import opened Wrappers
  import opened CallbackState
  import opened CallbackQueue

  class CallbackList<C(==), D> {
    const options: Options
    var list: Option<seq<C>>
    var stack: Option<seq<D>>
    var memory: Option<D>
    var fired: bool
    var firing: bool
    var firingStart: nat
    var firingLength: int
    var firingIndex: int
    var data: Option<D>
    ghost var started: seq<D>
    ghost var log: seq<Call<C, D>>

    ghost function View(): State<C, D>
      reads this
    {
      State(options, list, stack, memory, fired, firing, firingStart, firingLength, firingIndex, data, started, log)
    }

    constructor (options: Options)
      ensures View() == CallbackState.New(options)
    {
      this.options := options;
      list, stack, memory := Some([]), if options.once then None else Some([]), None;
      fired, firing, firingStart, firingLength, firingIndex, data := false, false, 0, 0, 0, None;
      started, log := [], [];
    }

    // ---------- firing ----------

    method Fire(data: D)
      requires list.Some?
      modifies this
      ensures View() == CallbackState.Fire(old(View()), data)
      decreases StackLength(View()), 2
    {
      memory := if options.memory then Some(data) else None;
      fired := true;
      firingIndex := firingStart;
      firingStart := 0;
      firingLength := |list.value|;
      firing := true;
      this.data := Some(data);
      started := started + [data];
      Loop();
    }

    /** Enters the next callback, or leaves the loop. */
    method Loop()
      requires data.Some? && firingIndex >= 0 && (list.Some? ==> firingLength == |list.value|)
      modifies this
      ensures View() == CallbackState.Loop(old(View()))
      decreases StackLength(View()), 1
    {
      if list.Some? && firingIndex < firingLength {
        log := log + [Call(list.value[firingIndex], data.value)];
      } else {
        Finish();
      }
    }

    method Finish()
      modifies this
      ensures View() == CallbackState.Finish(old(View()))
      decreases StackLength(View()), 0
    {
      firing := false;
      if list.Some? {
        if stack.Some? {
          if stack.value != [] {
            var next := stack.value[0];
            stack := Some(stack.value[1..]);
            Fire(next);
          }
        } else if memory.Some? {
          list := Some([]);
        } else {
          Disable();
        }
      }
    }

    /** The callback that is running returns. */
    method Return(isFalse: bool)
      requires Inv(View()) && firing
      modifies this
      ensures Inv(View()) && View() == Returned(old(View()), isFalse)
    {
      ReturnKeepsInv(View(), isFalse);
      if isFalse && options.stopOnFalse {
        memory := None;
        Finish();
      } else {
        firingIndex := firingIndex + 1;
        Loop();
      }
    }

    // ---------- the operations ----------

    method Disable()
      modifies this
      ensures View() == Disabled(old(View()))
    {
      list, stack, memory := None, None, None;
    }

    method Lock()
      modifies this
      ensures View() == Locked(old(View()))
    {
      stack := None;
      if memory.None? {
        Disable();
      }
    }

    method Empty()
      modifies this
      ensures View() == Emptied(old(View()))
    {
      list := Some([]);
      firingLength := 0;
    }

    method FireWith(data: D)
      requires Inv(View())
      modifies this
      ensures Inv(View()) && View() == FiredWith(old(View()), data)
    {
      FireWithKeepsInv(View(), data);
      if list.Some? && (!fired || stack.Some?) {
        if firing {
          stack := Some(stack.value + [data]);
        } else {
          Fire(data);
        }
      }
    }

    method Add(fs: seq<C>)
      requires Inv(View())
      modifies this
      ensures Inv(View()) && View() == Added(old(View()), fs)
    {
      AddKeepsInv(View(), fs);
      if list.Some? {
        var start := |list.value|;
        PushAll(fs);
        if firing {
          firingLength := |list.value|;
        } else if memory.Some? {
          firingStart := start;
          Fire(memory.value);
        }
      }
    }

    method PushAll(fs: seq<C>)
      requires list.Some?
      modifies this`list
      ensures list == Some(Pushed(old(list).value, fs, options.unique))
    {
      for i := 0 to |fs|
        invariant list.Some?
        invariant Pushed(list.value, fs[i..], options.unique) == Pushed(old(list).value, fs, options.unique)
      {
        assert fs[i..][0] == fs[i] && fs[i..][1..] == fs[i + 1..];
        if !options.unique || fs[i] !in list.value {
          list := Some(list.value + [fs[i]]);
        }
      }
    }

    /** Where `f` stands at or after `from`, or -1. */
    method InArray(f: C, from: nat) returns (index: int)
      requires list.Some? && from <= |list.value|
      ensures index == -1 ==> f !in list.value[from..]
      ensures index != -1 ==> from <= index < |list.value| && list.value[index] == f && f !in list.value[from..index]
    {
      index := from;
      while index < |list.value|
        invariant from <= index <= |list.value| && f !in list.value[from..index]
      {
        if list.value[index] == f {
          return;
        }
        index := index + 1;
      }
      index := -1;
    }

    /** Takes out one entry, and moves the firing indexes that it stood before. */
    method Splice(index: nat)
      requires list.Some? && index < |list.value|
      modifies this`list, this`firingLength, this`firingIndex
      ensures list == Some(old(list).value[..index] + old(list).value[index + 1..])
      ensures firingLength == old(firingLength) - (if firing && index <= old(firingLength) then 1 else 0)
      ensures firingIndex == old(firingIndex) - (if firing && index <= old(firingIndex) then 1 else 0)
    {
      list := Some(list.value[..index] + list.value[index + 1..]);
      if firing {
        if index <= firingLength {
          firingLength := firingLength - 1;
        }
        if index <= firingIndex {
          firingIndex := firingIndex - 1;
        }
      }
    }

    /** Takes every occurrence of `f` out of the list. */
    method Remove(f: C)
      requires Inv(View())
      modifies this`list, this`firingLength, this`firingIndex
      ensures Inv(View()) && View() == Removed(old(View()), f)
    {
      RemoveKeepsInv(View(), f);
      if list.Some? {
        RemoveEach(f);
      }
    }

    method RemoveEach(f: C)
      requires list.Some? && (firing ==> firingIndex >= -1 && firingLength == |list.value|)
      modifies this`list, this`firingLength, this`firingIndex
      ensures list == Some(Without(old(list).value, f))
      ensures firing ==>
        firingLength == |list.value| && firingIndex == old(firingIndex) - CountUpTo(old(list).value, f,
          old(firingIndex))
      ensures !firing ==> firingIndex == old(firingIndex) && firingLength == old(firingLength)
    {
      ghost var l := list.value;
      ghost var limit := if firing then firingIndex else -1;
      ghost var k := 0;
      var index := InArray(f, 0);
      RemoveNothing(l, f, limit);
      while index > -1
        invariant list.Some? && RemoveState(l, list.value, f, k)
        invariant index != -1 ==> Found(l, list.value, f, k, index)
        invariant index == -1 ==> NoneLeft(l, list.value, f, k)
        invariant firing ==> firingLength == |list.value| && Repaired(l, f, k, limit, firingIndex)
        invariant !firing ==> firingIndex == old(firingIndex) && firingLength == old(firingLength)
        decreases |l| - k
      {
        hide RemoveState, Repaired;
        ghost var before := list.value;
        ghost var q := RemoveOne(l, list.value, f, k, index, limit, firingIndex);
        Splice(index);
        k := q;
        index := InArray(f, index);
      }
      RemoveRest(l, list.value, f, k, limit);
    }
  }

  // ---------- the loop of remove ----------

  lemma {:induction false} CountConcat<C>(a: seq<C>, b: seq<C>, f: C, limit: int)
    ensures CountUpTo(a + b, f, limit) == CountUpTo(a, f, limit) + CountUpTo(b, f, limit - |a|)
    decreases |a|
  {
    if a == [] {
      assert a + b == b;
    } else {
      assert (a + b)[1..] == a[1..] + b;
      if limit >= 0 { CountConcat(a[1..], b, f, limit - 1); }
    }
  }

  lemma {:induction false} AbsentStays<C>(list: seq<C>, f: C, limit: int)
    requires f !in list
    ensures Without(list, f) == list && CountUpTo(list, f, limit) == 0
    decreases |list|
  {
    if list != [] { AbsentStays(list[1..], f, limit - 1); }
  }

  lemma {:induction false} CountAll<C>(list: seq<C>, f: C, limit: int)
    requires limit >= |list| - 1
    ensures CountUpTo(list, f, limit) == |list| - |Without(list, f)|
    decreases |list|
  {
    if list != [] { CountAll(list[1..], f, limit - 1); }
  }

  /** The occurrence at `q` of the old list is at or below the repaired firing index exactly if it was at or below
      the old one. */
  lemma RemoveTest<C>(l: seq<C>, f: C, k: nat, q: nat, limit: int)
    requires k <= q < |l| && limit >= -1
    ensures |Without(l[..k], f)| + (q - k) <= limit - CountUpTo(l[..k], f, limit) <==> q <= limit
  {
    if limit >= k - 1 {
      CountAll(l[..k], f, limit);
    } else {
      var a, b := l[..limit + 1], l[limit + 1..k];
      assert l[..k] == a + b;
      CountConcat(a, b, f, limit);
      WithoutConcat(a, b, f);
      CountAll(a, f, limit);
    }
  }

  /** The next occurrence of `f` is at `q`: what has been looked at grows to `q + 1`. */
  lemma RemoveStep<C>(l: seq<C>, f: C, k: nat, q: nat, limit: int)
    requires k <= q < |l| && l[q] == f && f !in l[k..q]
    ensures Without(l[..q + 1], f) == Without(l[..k], f) + l[k..q]
    ensures CountUpTo(l[..q + 1], f, limit) == CountUpTo(l[..k], f, limit) + (if q <= limit then 1 else 0)
  {
    assert l[..q + 1] == l[..k] + (l[k..q] + [f]);
    AbsentStays(l[k..q], f, limit - k);
    WithoutConcat(l[..k], l[k..q] + [f], f);
    WithoutConcat(l[k..q], [f], f);
    CountConcat(l[..k], l[k..q] + [f], f, limit);
    CountConcat(l[k..q], [f], f, limit - k);
  }

  lemma RemoveEnd<C>(l: seq<C>, f: C, k: nat, limit: int)
    requires k <= |l| && f !in l[k..]
    ensures Without(l, f) == Without(l[..k], f) + l[k..]
    ensures CountUpTo(l, f, limit) == CountUpTo(l[..k], f, limit)
  {
    assert l == l[..k] + l[k..];
    AbsentStays(l[k..], f, limit - k);
    WithoutConcat(l[..k], l[k..], f);
    CountConcat(l[..k], l[k..], f, limit);
  }

  /** The list after every `f` among the first `k` entries of `l` has been taken out. */
  ghost predicate RemoveState<C>(l: seq<C>, now: seq<C>, f: C, k: nat) {
    k <= |l| && now == Without(l[..k], f) + l[k..]
  }

  /** The firing index, repaired for those entries. */
  ghost predicate Repaired<C>(l: seq<C>, f: C, k: nat, limit: int, firingIndex: int) {
    k <= |l| && firingIndex == limit - CountUpTo(l[..k], f, limit)
  }

  ghost predicate Found<C>(l: seq<C>, now: seq<C>, f: C, k: nat, index: int) {
    k <= |l| && |Without(l[..k], f)| <= index < |now| && now[index] == f && f !in now[|Without(l[..k], f)|..index]
  }

  ghost predicate NoneLeft<C>(l: seq<C>, now: seq<C>, f: C, k: nat) {
    k <= |l| && |Without(l[..k], f)| <= |now| && f !in now[|Without(l[..k], f)|..]
  }

  lemma WindowOfConcat<T>(a: seq<T>, b: seq<T>, n: nat)
    requires n <= |b|
    ensures (a + b)[|a|..|a| + n] == b[..n]
    ensures (a + b)[..|a| + n] == a + b[..n] && (a + b)[|a| + n..] == b[n..]
  {
  }

  /** One round of the loop. */
  lemma RemoveOne<C>(l: seq<C>, now: seq<C>, f: C, k: nat, index: nat, limit: int, firingIndex: int) returns (k': nat)
    requires RemoveState(l, now, f, k) && Found(l, now, f, k, index) && limit >= -1
    ensures index < |now|
    ensures var now' := now[..index] + now[index + 1..];
            && k < k' <= |l| && RemoveState(l, now', f, k') && |Without(l[..k'], f)| == index <= |now'|
    ensures Repaired(l, f, k, limit, firingIndex) ==>
              Repaired(l, f, k', limit, firingIndex - (if index <= firingIndex then 1 else 0))
  {
    var from := |Without(l[..k], f)|;
    var q := k + (index - from);
    k' := q + 1;
    WindowOfConcat(Without(l[..k], f), l[k..], q - k);
    assert l[k..q] == l[k..][..q - k];
    RemoveStep(l, f, k, q, limit);
    RemoveTest(l, f, k, q, limit);
    assert now[index + 1..] == now[index..][1..] == l[q..][1..] == l[q + 1..];
  }

  lemma RemoveRest<C>(l: seq<C>, now: seq<C>, f: C, k: nat, limit: int)
    requires RemoveState(l, now, f, k) && NoneLeft(l, now, f, k)
    ensures now == Without(l, f) && CountUpTo(l, f, limit) == CountUpTo(l[..k], f, limit)
  {
    assert now[|Without(l[..k], f)|..] == l[k..];
    RemoveEnd(l, f, k, limit);
  }

  lemma RemoveNothing<C>(l: seq<C>, f: C, limit: int)
    ensures RemoveState(l, l, f, 0) && Without(l[..0], f) == [] && Repaired(l, f, 0, limit, limit)
  {
  }
}
