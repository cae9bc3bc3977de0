/** What the options of a callback list mean: `unique`, `stopOnFalse`, `once` and `memory`. */
module CallbackOptions {
  import opened Wrappers
  import opened CallbackState
  import opened CallbackQueue

  // ---------- unique ----------

  /** The callbacks that the list does not have, each once and in the order given. */
  function Fresh<C(==)>(list: seq<C>, fs: seq<C>): seq<C> {
    if fs == [] then []
    else
      var n := |fs| - 1;
      Fresh(list, fs[..n]) + if fs[n] in list || fs[n] in fs[..n] then [] else [fs[n]]
  }

  lemma {:induction false} FreshFirst<C>(list: seq<C>, fs: seq<C>)
    requires fs != []
    ensures Fresh(list, fs) == if fs[0] in list then Fresh(list, fs[1..]) else [fs[0]] + Fresh(list + [fs[0]], fs[1..])
    decreases |fs|
  {
    var n := |fs| - 1;
    if n == 0 {
      assert fs[..0] == [] && fs[1..] == [];
    } else {
      FreshFirst(list, fs[..n]);
      assert fs[..n][1..] == fs[1..][..n - 1];
      assert fs[n] in fs[..n] <==> fs[n] == fs[0] || fs[n] in fs[1..][..n - 1];
    }
  }

  /** `add` puts all callbacks behind the list; in a `unique` list those that it does not have, each once. */
  lemma {:induction false} PushedExactly<C>(list: seq<C>, fs: seq<C>, unique: bool)
    ensures Pushed(list, fs, unique) == list + if unique then Fresh(list, fs) else fs
    decreases |fs|
  {
    if fs != [] {
      var next := if unique && fs[0] in list then list else list + [fs[0]];
      PushedExactly(next, fs[1..], unique);
      if unique {
        FreshFirst(list, fs);
      } else {
        assert fs == [fs[0]] + fs[1..];
      }
      hide Pushed, Fresh;
      if next != list {
        Regrouped(list, [fs[0]], if unique then Fresh(next, fs[1..]) else fs[1..]);
      }
    } else {
      assert list + [] == list;
    }
  }

  lemma Regrouped<C>(a: seq<C>, b: seq<C>, c: seq<C>)
    ensures a + b + c == a + (b + c)
  {
  }

  ghost predicate EachOnce<C>(list: seq<C>) {
    forall i, j :: 0 <= i < j < |list| ==> list[i] != list[j]
  }

  lemma {:induction false} PushedOnce<C>(list: seq<C>, fs: seq<C>)
    requires EachOnce(list)
    ensures EachOnce(Pushed(list, fs, true))
    decreases |fs|
  {
    if fs != [] {
      PushedOnce(if fs[0] in list then list else list + [fs[0]], fs[1..]);
    }
  }

  lemma {:induction false} WithoutHas<C>(list: seq<C>, f: C, x: C)
    ensures x in Without(list, f) <==> x in list && x != f
    decreases |list|
  {
    if list != [] {
      WithoutHas(list[1..], f, x);
      assert list == [list[0]] + list[1..];
    }
  }

  lemma {:induction false} WithoutOnce<C>(list: seq<C>, f: C)
    requires EachOnce(list)
    ensures EachOnce(Without(list, f))
    decreases |list|
  {
    if list != [] {
      WithoutOnce(list[1..], f);
      WithoutHas(list[1..], f, list[0]);
    }
  }

  /** A firing leaves the list, empties it or takes it away. */
  lemma {:induction false} FireList<C, D>(s: State<C, D>, data: D)
    requires s.list.Some?
    ensures Fire(s, data).list in {s.list, Some([]), None}
    decreases StackLength(s), 2
  {
    LoopList(s.(memory := if s.options.memory then Some(data) else None, fired := true, firingIndex := s.firingStart,
                firingStart := 0, firingLength := |s.list.value|, firing := true, data := Some(data),
                started := s.started + [data]));
  }

  lemma {:induction false} LoopList<C, D>(s: State<C, D>)
    requires s.data.Some? && s.firingIndex >= 0 && (s.list.Some? ==> s.firingLength == |s.list.value|)
    ensures Loop(s).list in {s.list, Some([]), None}
    decreases StackLength(s), 1
  {
    if !(s.list.Some? && s.firingIndex < s.firingLength) {
      FinishList(s);
    }
  }

  lemma {:induction false} FinishList<C, D>(s: State<C, D>)
    ensures Finish(s).list in {s.list, Some([]), None}
    decreases StackLength(s), 0
  {
    if s.list.Some? && s.stack.Some? && s.stack.value != [] {
      FireList(s.(firing := false, stack := Some(s.stack.value[1..])), s.stack.value[0]);
    }
  }

  lemma UniqueStep<C, D>(s: State<C, D>, op: ListOp<C, D>)
    requires Inv(s) && s.options.unique && (s.list.Some? ==> EachOnce(s.list.value))
    ensures var t := ListStep(s, op); t.list.Some? ==> EachOnce(t.list.value)
  {
    if op.Plain? {
      match op.op
      case Add(fs) =>
        if s.list.Some? {
          var list := Pushed(s.list.value, fs, true);
          PushedOnce(s.list.value, fs);
          if !s.firing && s.memory.Some? {
            FireList(s.(list := Some(list), firingStart := |s.list.value|), s.memory.value);
          }
        }
      case Remove(f) =>
        if s.list.Some? { WithoutOnce(s.list.value, f); }
      case FireWith(data) =>
        if s.list.Some? && (!s.fired || s.stack.Some?) && !s.firing { FireList(s, data); }
      case Return(isFalse) =>
        if s.firing {
          if isFalse && s.options.stopOnFalse { FinishList(s.(memory := None)); }
          else { LoopList(s.(firingIndex := s.firingIndex + 1)); }
        }
    }
  }

  /** A `unique` list never holds a callback twice, whatever is done to it and whenever. */
  lemma {:induction false} UniqueStays<C, D>(s: State<C, D>, ops: seq<ListOp<C, D>>)
    requires Inv(s) && s.options.unique && (s.list.Some? ==> EachOnce(s.list.value))
    ensures var end := ListRun(s, ops); end.list.Some? ==> EachOnce(end.list.value)
    decreases |ops|
  {
    if ops != [] {
      ListStepKeepsInv(s, ops[0]);
      UniqueStep(s, ops[0]);
      hide ListStep, EachOnce;
      UniqueStays(ListStep(s, ops[0]), ops[1..]);
    }
  }

  // ---------- stopOnFalse ----------

  /** A firing of a list that has entries from `firingStart` on enters the first of them. */
  lemma FireEnters<C, D>(s: State<C, D>, data: D)
    requires s.list.Some? && s.firingStart < |s.list.value|
    ensures Fire(s, data)
         == s.(memory := if s.options.memory then Some(data) else None, fired := true, firingIndex := s.firingStart,
               firingStart := 0, firingLength := |s.list.value|, firing := true, data := Some(data),
               started := s.started + [data], log := s.log + [Call(s.list.value[s.firingStart], data)])
  {
    var next := s.(memory := if s.options.memory then Some(data) else None, fired := true, firingIndex := s.firingStart,
                   firingStart := 0, firingLength := |s.list.value|, firing := true, data := Some(data),
                   started := s.started + [data]);
    assert Fire(s, data) == Loop(next);
  }

  /** The firing that waited longest begins with the first entry of the list. */
  lemma WaitingBegins<C, D>(s: State<C, D>)
    requires Inv(s) && s.list.Some? && s.list.value != [] && s.stack.Some? && s.stack.value != []
    ensures var r := Finish(s);
      && r.firing && r.firingIndex == 0 && r.data == Some(s.stack.value[0]) && r.list == s.list
      && r.stack == Some(s.stack.value[1..]) && r.started == s.started + [s.stack.value[0]]
      && r.log == s.log + [Call(s.list.value[0], s.stack.value[0])]
  {
    FireEnters(s.(firing := false, stack := Some(s.stack.value[1..])), s.stack.value[0]);
  }

  /** When a callback returns false and the list stops on that, nothing behind it is called in this firing and its
      arguments are forgotten, so that callbacks added later are not called with them; the firing that waited longest
      begins, or the list is idle. */
  lemma FalseStops<C, D>(s: State<C, D>)
    requires Inv(s) && s.firing && s.options.stopOnFalse && s.list.Some?
    ensures var r := Returned(s, true);
      if s.stack.Some? && s.stack.value != [] && s.list.value != [] then
        && r.firing && r.firingIndex == 0 && r.data == Some(s.stack.value[0]) && r.stack == Some(s.stack.value[1..])
        && r.log == s.log + [Call(s.list.value[0], s.stack.value[0])]
      else if s.stack.Some? && s.stack.value != [] then r.log == s.log
      else
        && !r.firing && r.log == s.log && r.started == s.started && r.memory.None?
        && (if s.stack.Some? then r.list == s.list else r.list.None?)
        && Inv(r) && forall fs :: Added(r, fs).log == s.log
  {
    var stopped := s.(memory := None);
    if s.stack.Some? && s.stack.value != [] {
      if s.list.value != [] {
        assert Inv(stopped);
        WaitingBegins(stopped);
      } else {
        EmptyFinish(stopped);
      }
    } else {
      ReturnKeepsInv(s, true);
    }
  }

  lemma {:induction false} EmptyFinish<C, D>(s: State<C, D>)
    requires s.list == Some([]) && s.firingStart == 0
    ensures Finish(s).log == s.log
    decreases StackLength(s)
  {
    if s.stack.Some? && s.stack.value != [] {
      var data := s.stack.value[0];
      var next := s.(firing := false, stack := Some(s.stack.value[1..]));
      var begun := next.(memory := if s.options.memory then Some(data) else None, fired := true, firingIndex := 0,
                         firingStart := 0, firingLength := 0, firing := true, data := Some(data),
                         started := s.started + [data]);
      assert Finish(s) == Fire(next, data) == Loop(begun) == Finish(begun);
      EmptyFinish(begun);
    }
  }

  /** Without that option what a callback returns makes no difference. */
  lemma FalseIgnored<C, D>(s: State<C, D>, isFalse: bool)
    requires Inv(s) && s.firing && !s.options.stopOnFalse
    ensures Returned(s, isFalse) == Returned(s, !isFalse)
  {
  }

  // ---------- once and memory ----------

  /** A list without `memory` that fires once has begun at most one firing, the first that was asked for. */
  ghost predicate FiredOnce<C, D>(s: State<C, D>) {
    s.options.once && !s.options.memory && (if s.fired then |s.started| == 1 else s.started == [] && !s.firing)
  }

  lemma OnceLoop<C, D>(s: State<C, D>)
    requires FiredOnce(s) && s.fired && s.stack.None? && s.data.Some? && s.firingIndex >= 0
    requires s.list.Some? ==> s.firingLength == |s.list.value|
    ensures FiredOnce(Loop(s)) && Loop(s).started == s.started && Loop(s).fired
  {
    if !(s.list.Some? && s.firingIndex < s.firingLength) {
      assert Loop(s) == Finish(s);
    }
  }

  lemma OnceStep<C, D>(s: State<C, D>, op: ListOp<C, D>)
    requires Inv(s) && FiredOnce(s)
    ensures FiredOnce(ListStep(s, op)) && s.started <= ListStep(s, op).started
    ensures op.Plain? && op.op.FireWith? && s.list.Some? && !s.fired ==> ListStep(s, op).started == [op.op.data]
  {
    if op.Plain? {
      match op.op
      case Add(fs) =>
      case Remove(f) =>
      case FireWith(data) =>
        if s.list.Some? && !s.fired {
          OnceLoop(s.(memory := None, fired := true, firingIndex := 0, firingStart := 0, firingLength := |s.list.value|,
                      firing := true, data := Some(data), started := s.started + [data]));
        }
      case Return(isFalse) =>
        if s.firing && !(isFalse && s.options.stopOnFalse) { OnceLoop(s.(firingIndex := s.firingIndex + 1)); }
    }
  }

  lemma {:induction false} OnceFiresOnce<C, D>(s: State<C, D>, ops: seq<ListOp<C, D>>)
    requires Inv(s) && FiredOnce(s)
    ensures FiredOnce(ListRun(s, ops)) && s.started <= ListRun(s, ops).started
    decreases |ops|
  {
    if ops != [] {
      ListStepKeepsInv(s, ops[0]);
      OnceStep(s, ops[0]);
      hide ListStep, FiredOnce;
      OnceFiresOnce(ListStep(s, ops[0]), ops[1..]);
    }
  }

  /** Firing an idle list calls its first entry, and a list with `memory` keeps the arguments; callbacks added to it
      then are called with them, from the first new one on. */
  lemma IdleList<C, D>(s: State<C, D>, data: D, fs: seq<C>)
    requires Inv(s) && s.list.Some? && !s.firing
    ensures (!s.fired || s.stack.Some?) && s.list.value != [] ==>
      var r := FiredWith(s, data);
      && r.firing && r.firingIndex == 0 && r.list == s.list && r.data == Some(data) && r.started == s.started + [data]
      && r.log == s.log + [Call(s.list.value[0], data)] && r.memory == if s.options.memory then Some(data) else None
    ensures s.fired && s.stack.None? ==> FiredWith(s, data) == s
    ensures var more := if s.options.unique then Fresh(s.list.value, fs) else fs;
      var r := Added(s, fs);
      if s.memory.Some? && more != [] then
        && r.firing && r.firingIndex == |s.list.value| && r.list == Some(s.list.value + more) && r.data == s.memory
        && r.log == s.log + [Call(more[0], s.memory.value)]
      else r.log == s.log
  {
    PushedExactly(s.list.value, fs, s.options.unique);
    if s.list.value != [] { FireEnters(s, data); }
    hide Pushed, Fresh;
    if s.memory.Some? {
      AddReplays(s, fs);
    }
  }

  lemma AddReplays<C, D>(s: State<C, D>, fs: seq<C>)
    requires Inv(s) && s.list.Some? && !s.firing && s.memory.Some?
    ensures var list, r := Pushed(s.list.value, fs, s.options.unique), Added(s, fs);
      if |list| > |s.list.value| then
        && r.firing && r.firingIndex == |s.list.value| && r.list == Some(list) && r.data == s.memory
        && r.log == s.log + [Call(list[|s.list.value|], s.memory.value)]
      else r.log == s.log
  {
    var list := Pushed(s.list.value, fs, s.options.unique);
    var start := s.(list := Some(list), firingStart := |s.list.value|);
    hide Pushed;
    if |list| > |s.list.value| {
      FireEnters(start, s.memory.value);
    } else {
      var next := start.(fired := true, firingIndex := |s.list.value|, firingStart := 0, firingLength := |list|,
                         firing := true, data := s.memory, started := s.started + [s.memory.value]);
      assert Fire(start, s.memory.value) == Loop(next);
      assert Loop(next) == Finish(next);
    }
  }
}
