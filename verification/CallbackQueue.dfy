/** The callback list refines a queue: the callbacks of a firing that were called, those that are still to be
    called, and the firings that wait. */
module CallbackQueue {
  import opened Wrappers
  import opened CallbackState

  // ---------- the invariant is kept ----------

  lemma {:induction false} FireKeepsInv<C, D>(s: State<C, D>, data: D)
    requires s.list.Some? && (s.options.once ==> s.stack.None?)
    ensures Inv(Fire(s, data)) && Fire(s, data).options == s.options
    decreases StackLength(s), 2
  {
    LoopKeepsInv(s.(memory := if s.options.memory then Some(data) else None, fired := true,
      firingIndex := s.firingStart,
                    firingStart := 0, firingLength := |s.list.value|, firing := true, data := Some(data),
                    started := s.started + [data]));
  }

  lemma {:induction false} LoopKeepsInv<C, D>(s: State<C, D>)
    requires s.data.Some? && s.firingIndex >= 0 && s.fired && s.firing && s.firingStart == 0
    requires s.list.Some? ==> s.firingLength == |s.list.value|
    requires s.options.once ==> s.stack.None?
    requires s.memory.Some? ==> s.options.memory
    requires s.list.None? ==> s.stack.None? && s.memory.None?
    ensures Inv(Loop(s)) && Loop(s).options == s.options
    decreases StackLength(s), 1
  {
    if !(s.list.Some? && s.firingIndex < s.firingLength) {
      FinishKeepsInv(s);
    }
  }

  lemma {:induction false} FinishKeepsInv<C, D>(s: State<C, D>)
    requires s.fired && s.firingStart == 0
    requires s.options.once ==> s.stack.None?
    requires s.memory.Some? ==> s.options.memory
    requires s.list.None? ==> s.stack.None? && s.memory.None?
    ensures Inv(Finish(s)) && Finish(s).options == s.options
    decreases StackLength(s), 0
  {
    if s.list.Some? && s.stack.Some? && s.stack.value != [] {
      FireKeepsInv(s.(firing := false, stack := Some(s.stack.value[1..])), s.stack.value[0]);
    }
  }

  lemma ReturnKeepsInv<C, D>(s: State<C, D>, isFalse: bool)
    requires Inv(s) && s.firing
    ensures Inv(Returned(s, isFalse)) && Returned(s, isFalse).options == s.options
  {
    if isFalse && s.options.stopOnFalse {
      FinishKeepsInv(s.(memory := None));
    } else {
      LoopKeepsInv(s.(firingIndex := s.firingIndex + 1));
    }
  }

  lemma FireWithKeepsInv<C, D>(s: State<C, D>, data: D)
    requires Inv(s)
    ensures Inv(FiredWith(s, data)) && FiredWith(s, data).options == s.options
  {
    if s.list.Some? && (!s.fired || s.stack.Some?) && !s.firing {
      FireKeepsInv(s, data);
    }
  }

  lemma AddKeepsInv<C, D>(s: State<C, D>, fs: seq<C>)
    requires Inv(s)
    ensures Inv(Added(s, fs)) && Added(s, fs).options == s.options
  {
    if s.list.Some? && !s.firing && s.memory.Some? {
      FireKeepsInv(s.(list := Some(Pushed(s.list.value, fs, s.options.unique)), firingStart := |s.list.value|),
        s.memory.value);
    }
  }

  lemma {:induction false} CountFacts<C>(list: seq<C>, f: C, limit: int)
    requires limit >= -1
    ensures CountUpTo(list, f, limit) <= limit + 1
    ensures CountUpTo(list, f, limit) <= |list| - |Without(list, f)|
    decreases |list|
  {
    if list != [] {
      if limit >= 0 { CountFacts(list[1..], f, limit - 1); } else { WithoutShorter(list, f); }
    }
  }

  lemma {:induction false} WithoutShorter<C>(list: seq<C>, f: C)
    ensures |Without(list, f)| <= |list| && f !in Without(list, f)
  {
    if list != [] { WithoutShorter(list[1..], f); }
  }

  lemma RemoveKeepsInv<C, D>(s: State<C, D>, f: C)
    requires Inv(s)
    ensures Inv(Removed(s, f))
  {
    if s.list.Some? && s.firing {
      CountFacts(s.list.value, f, s.firingIndex);
    }
  }

  // ---------- the queue ----------

  /** `called ++ pending` are the entries of the list.  While a firing is active, `pending` are those it has yet
      to call; between firings `pending` is empty. */
  datatype Queue<C, D> = Queue(
    options: Options, called: seq<C>, pending: seq<C>, active: bool, data: Option<D>, memory: Option<D>,
    waiting: seq<D>, started: seq<D>, log: seq<Call<C, D>>)

  /** Starts a firing that calls the entries of `pending`. */
  function QStart<C, D>(q: Queue<C, D>, data: D): Queue<C, D>
    decreases |q.waiting|, 1
  {
    QNext(q.(active := true, data := Some(data), memory := if q.options.memory then Some(data) else None,
             started := q.started + [data]))
  }

  /** Calls the head of the queue, or ends the firing and starts the one that has waited longest. */
  function QNext<C, D>(q: Queue<C, D>): Queue<C, D>
    requires q.data.Some?
    decreases |q.waiting|, 0
  {
    if q.pending != [] then
      q.(called := q.called + [q.pending[0]], pending := q.pending[1..],
        log := q.log + [Call(q.pending[0], q.data.value)])
    else if q.waiting != [] then
      QStart(q.(called := [], pending := q.called, active := false, waiting := q.waiting[1..]), q.waiting[0])
    else q.(active := false)
  }

  function QFireWith<C, D>(q: Queue<C, D>, data: D): Queue<C, D> {
    if q.active then q.(waiting := q.waiting + [data])
    else QStart(q.(called := [], pending := q.called + q.pending), data)
  }

  /** New entries join the active firing; in a list with memory they start one of their own. */
  function QAdd<C(==), D>(q: Queue<C, D>, fs: seq<C>): Queue<C, D> {
    var list := Pushed(q.called + q.pending, fs, q.options.unique);
    assert |list| >= |q.called| by { PushedPrefix(q.called + q.pending, fs, q.options.unique); }
    if q.active then q.(pending := list[|q.called|..])
    else if q.memory.Some? then QStart(q.(pending := list[|q.called|..]), q.memory.value)
    else q.(called := list)
  }

  function QRemove<C(==), D>(q: Queue<C, D>, f: C): Queue<C, D> {
    q.(called := Without(q.called, f), pending := Without(q.pending, f))
  }

  lemma {:induction false} PushedPrefix<C>(list: seq<C>, fs: seq<C>, unique: bool)
    ensures list <= Pushed(list, fs, unique)
    decreases |fs|
  {
    if fs != [] {
      PushedPrefix(if unique && fs[0] in list then list else list + [fs[0]], fs[1..], unique);
    }
  }

  // ---------- refinement ----------

  /** A repeatable list that is neither disabled nor locked nor stopped by a callback. */
  ghost predicate Repeatable<C, D>(s: State<C, D>) {
    && Inv(s) && !s.options.once && !s.options.stopOnFalse && s.list.Some? && s.stack.Some?
    && (s.firing ==> s.firingIndex < |s.list.value|)
  }

  /** The queue that a list stands for: everything up to the firing index has been called. */
  function Abs<C, D>(s: State<C, D>): Queue<C, D>
    requires s.list.Some? && s.stack.Some?
    requires s.firing ==> -1 <= s.firingIndex < |s.list.value|
  {
    var list := s.list.value;
    var k := if s.firing then s.firingIndex + 1 else |list|;
    Queue(s.options, list[..k], list[k..], s.firing, s.data, s.memory, s.stack.value, s.started, s.log)
  }

  lemma {:induction false} FireRefines<C, D>(s: State<C, D>, data: D, q: Queue<C, D>)
    requires !s.options.once && !s.options.stopOnFalse && s.list.Some? && s.stack.Some?
    requires s.firingStart <= |s.list.value|
    requires q.options == s.options && q.called == s.list.value[..s.firingStart]
    requires q.pending == s.list.value[s.firingStart..]
    requires q.waiting == s.stack.value && q.log == s.log && q.started == s.started
    ensures Repeatable(Fire(s, data)) && Abs(Fire(s, data)) == QStart(q, data)
    decreases StackLength(s), 2
  {
    FireKeepsInv(s, data);
    var memory := if s.options.memory then Some(data) else None;
    LoopRefines(s.(memory := memory, fired := true, firingIndex := s.firingStart, firingStart := 0,
                   firingLength := |s.list.value|, firing := true, data := Some(data), started := s.started + [data]),
                q.(active := true, data := Some(data), memory := memory, started := q.started + [data]));
  }

  /** `q` is the queue before the next call: its pending entries start at the firing index. */
  lemma {:induction false} LoopRefines<C, D>(s: State<C, D>, q: Queue<C, D>)
    requires !s.options.once && !s.options.stopOnFalse && s.list.Some? && s.stack.Some? && s.firingStart == 0
    requires s.fired && s.firing && s.data.Some? && s.firingLength == |s.list.value|
    requires s.memory.Some? ==> s.options.memory
    requires 0 <= s.firingIndex <= |s.list.value|
    requires q == Queue(s.options, s.list.value[..s.firingIndex], s.list.value[s.firingIndex..], true, s.data, s.memory,
                        s.stack.value, s.started, s.log)
    ensures Repeatable(Loop(s)) && Abs(Loop(s)) == QNext(q)
    decreases StackLength(s), 1
  {
    LoopKeepsInv(s);
    if s.firingIndex < s.firingLength {
      var i := s.firingIndex;
      assert s.list.value[..i + 1] == s.list.value[..i] + [s.list.value[i]];
    } else {
      var ended := s.(firing := false);
      assert s.list.value[..s.firingIndex] == s.list.value;
      if s.stack.value != [] {
        FireRefines(ended.(stack := Some(s.stack.value[1..])), s.stack.value[0],
                    q.(called := [], pending := q.called, active := false, waiting := q.waiting[1..]));
      }
    }
  }

  /** The return of a callback takes the next entry of the queue. */
  lemma ReturnRefines<C, D>(s: State<C, D>, isFalse: bool)
    requires Repeatable(s) && s.firing
    ensures Repeatable(Returned(s, isFalse)) && Abs(Returned(s, isFalse)) == QNext(Abs(s))
  {
    LoopRefines(s.(firingIndex := s.firingIndex + 1), Abs(s));
  }

  lemma FireWithRefines<C, D>(s: State<C, D>, data: D)
    requires Repeatable(s)
    ensures Repeatable(FiredWith(s, data)) && Abs(FiredWith(s, data)) == QFireWith(Abs(s), data)
  {
    if !s.firing {
      var q := Abs(s);
      assert q.called + q.pending == s.list.value;
      FireRefines(s, data, q.(called := [], pending := q.called + q.pending));
    }
  }

  lemma AddRefines<C, D>(s: State<C, D>, fs: seq<C>)
    requires Repeatable(s)
    ensures Repeatable(Added(s, fs)) && Abs(Added(s, fs)) == QAdd(Abs(s), fs)
  {
    var q := Abs(s);
    assert q.called + q.pending == s.list.value;
    var list := Pushed(s.list.value, fs, s.options.unique);
    PushedPrefix(s.list.value, fs, s.options.unique);
    assert list[..|q.called|] == q.called;
    if !s.firing && s.memory.Some? {
      FireRefines(s.(list := Some(list), firingStart := |s.list.value|), s.memory.value,
        q.(pending := list[|q.called|..]));
    }
  }

  lemma {:induction false} WithoutConcat<C>(a: seq<C>, b: seq<C>, f: C)
    ensures Without(a + b, f) == Without(a, f) + Without(b, f)
  {
    if a == [] {
      assert a + b == b;
    } else {
      assert (a + b)[1..] == a[1..] + b;
      WithoutConcat(a[1..], b, f);
    }
  }

  lemma {:induction false} CountIsMissing<C>(list: seq<C>, f: C, limit: int)
    requires -1 <= limit < |list|
    ensures |Without(list[..limit + 1], f)| == limit + 1 - CountUpTo(list, f, limit)
    decreases |list|
  {
    if limit >= 0 {
      CountIsMissing(list[1..], f, limit - 1);
      assert list[..limit + 1][1..] == list[1..][..limit];
    }
  }

  /** Taking out `f` splits at the firing index, once the index is repaired. */
  lemma WithoutSplits<C>(list: seq<C>, f: C, limit: int)
    requires -1 <= limit < |list|
    ensures var rest := Without(list, f);
            var k := limit - CountUpTo(list, f, limit);
            -1 <= k < |rest| && rest[..k + 1] == Without(list[..limit + 1], f)
              && rest[k + 1..] == Without(list[limit + 1..], f)
  {
    CountIsMissing(list, f, limit);
    assert list[..limit + 1] + list[limit + 1..] == list;
    WithoutConcat(list[..limit + 1], list[limit + 1..], f);
  }

  lemma RemoveRefines<C, D>(s: State<C, D>, f: C)
    requires Repeatable(s)
    ensures Repeatable(Removed(s, f)) && Abs(Removed(s, f)) == QRemove(Abs(s), f)
  {
    RemoveKeepsInv(s, f);
    if s.firing {
      WithoutSplits(s.list.value, f, s.firingIndex);
    } else {
      assert s.list.value[..|s.list.value|] == s.list.value;
      assert Without(s.list.value, f)[..|Without(s.list.value, f)|] == Without(s.list.value, f);
    }
  }

  // ---------- whole runs ----------

  /** What can happen to a list: an operation, from inside a callback or not, or the return of the callback. */
  datatype Op<C, D> = Add(fs: seq<C>) | Remove(f: C) | FireWith(data: D) | Return(isFalse: bool)

  function Step<C(==), D>(s: State<C, D>, op: Op<C, D>): State<C, D>
    requires Inv(s)
  {
    match op
    case Add(fs) => Added(s, fs)
    case Remove(f) => Removed(s, f)
    case FireWith(data) => FiredWith(s, data)
    case Return(isFalse) => if s.firing then Returned(s, isFalse) else s
  }

  function QStep<C(==), D>(q: Queue<C, D>, op: Op<C, D>): Queue<C, D>
    requires q.active ==> q.data.Some?
  {
    match op
    case Add(fs) => QAdd(q, fs)
    case Remove(f) => QRemove(q, f)
    case FireWith(data) => QFireWith(q, data)
    case Return(_) => if q.active then QNext(q) else q
  }

  lemma StepKeepsInv<C, D>(s: State<C, D>, op: Op<C, D>)
    requires Inv(s)
    ensures Inv(Step(s, op))
  {
    match op
    case Add(fs) => AddKeepsInv(s, fs);
    case Remove(f) => RemoveKeepsInv(s, f);
    case FireWith(data) => FireWithKeepsInv(s, data);
    case Return(isFalse) => if s.firing { ReturnKeepsInv(s, isFalse); }
  }

  ghost function Run<C, D>(s: State<C, D>, ops: seq<Op<C, D>>): State<C, D>
    requires Inv(s)
    ensures Inv(Run(s, ops))
    decreases |ops|
  {
    if ops == [] then s
    else
      StepKeepsInv(s, ops[0]);
      Run(Step(s, ops[0]), ops[1..])
  }

  lemma StepRefines<C, D>(s: State<C, D>, op: Op<C, D>)
    requires Repeatable(s)
    ensures Repeatable(Step(s, op)) && Abs(Step(s, op)) == QStep(Abs(s), op)
  {
    match op
    case Add(fs) => AddRefines(s, fs);
    case Remove(f) => RemoveRefines(s, f);
    case FireWith(data) => FireWithRefines(s, data);
    case Return(isFalse) => if s.firing { ReturnRefines(s, isFalse); }
  }

  /** A run of the queue in which every operation finds the queue in a proper state. */
  ghost predicate QRun<C, D>(q: Queue<C, D>, ops: seq<Op<C, D>>, end: Queue<C, D>)
    decreases |ops|
  {
    (q.active ==> q.data.Some?) && if ops == [] then end == q else QRun(QStep(q, ops[0]), ops[1..], end)
  }

  /** Whatever callbacks do to the list while it fires, the list calls what the queue calls. */
  lemma {:induction false} RunRefines<C, D>(s: State<C, D>, ops: seq<Op<C, D>>)
    requires Repeatable(s)
    ensures Repeatable(Run(s, ops)) && QRun(Abs(s), ops, Abs(Run(s, ops)))
    decreases |ops|
  {
    if ops != [] {
      StepRefines(s, ops[0]);
      RunRefines(Step(s, ops[0]), ops[1..]);
    }
  }

  // ---------- one firing ----------

  function Calls<C, D>(fs: seq<C>, data: D): seq<Call<C, D>> {
    seq(|fs|, i requires 0 <= i < |fs| => Call(fs[i], data))
  }

  /** The calls made so far, followed by those the active firing has still to make. */
  function Line<C, D>(q: Queue<C, D>): seq<Call<C, D>>
    requires q.data.Some?
  {
    q.log + Calls(q.pending, q.data.value)
  }

  /** `ops` happen while one firing of `q` is active. */
  ghost predicate InFiring<C, D>(q: Queue<C, D>, ops: seq<Op<C, D>>)
    decreases |ops|
  {
    && q.active && q.data.Some?
    && (ops != [] ==> (ops[0].Return? ==> q.pending != []) && InFiring(QStep(q, ops[0]), ops[1..]))
  }

  ghost function EndOf<C, D>(q: Queue<C, D>, ops: seq<Op<C, D>>): (end: Queue<C, D>)
    requires InFiring(q, ops)
    ensures end.active && end.data.Some?
    decreases |ops|
  {
    if ops == [] then q else EndOf(QStep(q, ops[0]), ops[1..])
  }

  /** The entries that an operation puts at the end of the list. */
  function Entered<C(==), D>(q: Queue<C, D>, op: Op<C, D>): seq<C>
    requires q.active && q.data.Some?
  {
    var list := q.called + q.pending;
    if op.Add? then
      PushedPrefix(list, op.fs, q.options.unique);
      Pushed(list, op.fs, q.options.unique)[|list|..]
    else []
  }

  /** The entries that the adds among `ops` put on the list, in order. */
  ghost function NewEntries<C, D>(q: Queue<C, D>, ops: seq<Op<C, D>>): seq<C>
    requires InFiring(q, ops)
    decreases |ops|
  {
    if ops == [] then [] else Entered(q, ops[0]) + NewEntries(QStep(q, ops[0]), ops[1..])
  }

  lemma AddGrowsPending<C, D>(q: Queue<C, D>, fs: seq<C>)
    requires q.active && q.data.Some?
    ensures QAdd(q, fs) == q.(pending := q.pending + Entered(q, Add(fs)))
  {
    var list := q.called + q.pending;
    var pushed := Pushed(list, fs, q.options.unique);
    PushedPrefix(list, fs, q.options.unique);
    assert pushed == list + pushed[|list|..];
    assert pushed[|q.called|..] == q.pending + pushed[|list|..];
  }

  lemma CallsConcat<C, D>(a: seq<C>, b: seq<C>, data: D)
    ensures Calls(a + b, data) == Calls(a, data) + Calls(b, data)
  {
  }

  lemma StepExtendsLine<C, D>(q: Queue<C, D>, op: Op<C, D>)
    requires q.active && q.data.Some? && (op.Return? ==> q.pending != []) && !op.Remove?
    ensures QStep(q, op).data == q.data
    ensures Line(QStep(q, op)) == Line(q) + Calls(Entered(q, op), q.data.value)
  {
    assert Calls<C, D>([], q.data.value) == [];
    if op.Add? {
      AddGrowsPending(q, op.fs);
      CallsConcat(q.pending, Entered(q, op), q.data.value);
    }
  }

  lemma NoCalls<C, D>(data: D)
    ensures Calls<C, D>([], data) == []
  {
  }

  /** In a firing from which nothing is removed, the calls are the entries of the list in list order, those added
      meanwhile last; nothing is skipped and nothing repeated. */
  lemma {:induction false} CallsInListOrder<C, D>(q: Queue<C, D>, ops: seq<Op<C, D>>)
    requires InFiring(q, ops) && forall op :: op in ops ==> !op.Remove?
    ensures EndOf(q, ops).data == q.data
    ensures Line(EndOf(q, ops)) == Line(q) + Calls(NewEntries(q, ops), q.data.value)
    decreases |ops|
  {
    hide Line, Calls, QStep, Entered;
    NoCalls<C, D>(q.data.value);
    if ops == [] {
      assert NewEntries(q, ops) == [];
    } else {
      var next := QStep(q, ops[0]);
      StepExtendsLine(q, ops[0]);
      CallsInListOrder(next, ops[1..]);
      CallsConcat(Entered(q, ops[0]), NewEntries(next, ops[1..]), q.data.value);
    }
  }

  /** How often `c` is called in a line of calls. */
  function Times<C(==), D>(line: seq<Call<C, D>>, c: C): nat {
    if line == [] then 0 else (if line[|line| - 1].callback == c then 1 else 0) + Times(line[..|line| - 1], c)
  }

  lemma {:induction false} TimesConcat<C, D>(a: seq<Call<C, D>>, b: seq<Call<C, D>>, c: C)
    ensures Times(a + b, c) == Times(a, c) + Times(b, c)
    decreases |b|
  {
    if b == [] {
      assert a + b == a;
    } else {
      assert (a + b)[..|a + b| - 1] == a + b[..|b| - 1];
      TimesConcat(a, b[..|b| - 1], c);
    }
  }

  lemma {:induction false} TimesWithout<C, D>(fs: seq<C>, f: C, c: C, data: D)
    requires f != c
    ensures Times(Calls(Without(fs, f), data), c) == Times(Calls(fs, data), c)
  {
    if fs != [] {
      var rest := Without(fs[1..], f);
      TimesWithout(fs[1..], f, c, data);
      assert Calls(fs, data) == [Call(fs[0], data)] + Calls(fs[1..], data);
      TimesConcat([Call(fs[0], data)], Calls(fs[1..], data), c);
      if fs[0] != f {
        assert Calls([fs[0]] + rest, data) == [Call(fs[0], data)] + Calls(rest, data);
        TimesConcat([Call(fs[0], data)], Calls(rest, data), c);
      } else {
        assert Times([Call(fs[0], data)], c) == 0 by {
          assert [Call(fs[0], data)][..0] == [];
        }
      }
    }
  }

  lemma {:induction false} PushedWithout<C>(list: seq<C>, fs: seq<C>, unique: bool, c: C)
    requires c !in fs
    ensures |Pushed(list, fs, unique)| >= |list|
    ensures c !in Pushed(list, fs, unique)[|list|..]
    decreases |fs|
  {
    PushedPrefix(list, fs, unique);
    if fs != [] {
      var next := if unique && fs[0] in list then list else list + [fs[0]];
      PushedWithout(next, fs[1..], unique, c);
      PushedPrefix(next, fs[1..], unique);
      forall k | |list| <= k < |Pushed(list, fs, unique)| ensures Pushed(list, fs, unique)[k] != c {
        if k >= |next| {
          assert Pushed(next, fs[1..], unique)[|next|..][k - |next|] != c;
        } else {
          assert Pushed(next, fs[1..], unique)[..|next|] == next;
        }
      }
    }
  }

  lemma {:induction false} TimesAbsent<C, D>(fs: seq<C>, c: C, data: D)
    requires c !in fs
    ensures Times(Calls(fs, data), c) == 0
    decreases |fs|
  {
    if fs != [] {
      assert Calls(fs, data)[..|fs| - 1] == Calls(fs[..|fs| - 1], data);
      TimesAbsent(fs[..|fs| - 1], c, data);
    }
  }

  /** Whatever else is added and removed during a firing, a callback that is neither is called exactly as often as
      the firing owed it; so when the firing has nothing pending, no removal has made it skip or repeat `c`. */
  lemma {:induction false} RemovalsSkipNobody<C, D>(q: Queue<C, D>, ops: seq<Op<C, D>>, c: C)
    requires InFiring(q, ops)
    requires forall op :: op in ops ==> (op.Remove? ==> op.f != c) && (op.Add? ==> c !in op.fs)
    ensures EndOf(q, ops).data == q.data
    ensures Times(Line(EndOf(q, ops)), c) == Times(Line(q), c)
    ensures EndOf(q, ops).pending == [] ==>
          Times(EndOf(q, ops).log, c) == Times(q.log, c) + Times(Calls(q.pending, q.data.value), c)
    decreases |ops|
  {
    TimesConcat(q.log, Calls(q.pending, q.data.value), c);
    if ops != [] {
      var next := QStep(q, ops[0]);
      StepKeepsTimes(q, ops[0], c);
      RemovalsSkipNobody(next, ops[1..], c);
    }
    var end := EndOf(q, ops);
    if end.pending == [] {
      assert Line(end) == end.log;
    }
  }

  lemma StepKeepsTimes<C, D>(q: Queue<C, D>, op: Op<C, D>, c: C)
    requires q.active && q.data.Some? && (op.Return? ==> q.pending != [])
    requires (op.Remove? ==> op.f != c) && (op.Add? ==> c !in op.fs)
    ensures QStep(q, op).data == q.data && Times(Line(QStep(q, op)), c) == Times(Line(q), c)
  {
    var d := q.data.value;
    if op.Remove? {
      TimesWithout(q.pending, op.f, c, d);
      TimesConcat(q.log, Calls(q.pending, d), c);
      TimesConcat(q.log, Calls(Without(q.pending, op.f), d), c);
    } else {
      StepExtendsLine(q, op);
      TimesConcat(Line(q), Calls(Entered(q, op), d), c);
      if op.Add? { PushedWithout(q.called + q.pending, op.fs, q.options.unique, c); }
      TimesAbsent(Entered(q, op), c, d);
    }
  }

  // ---------- the order of firings ----------

  /** Firings begin in the order in which they were asked for. */
  function Asked<C, D>(q: Queue<C, D>): seq<D> {
    q.started + q.waiting
  }

  lemma {:induction false} StartAsked<C, D>(q: Queue<C, D>, data: D)
    ensures Asked(QStart(q, data)) == q.started + [data] + q.waiting
    decreases |q.waiting|, 1
  {
    NextAsked(q.(active := true, data := Some(data), memory := if q.options.memory then Some(data) else None,
                 started := q.started + [data]));
  }

  lemma {:induction false} NextAsked<C, D>(q: Queue<C, D>)
    requires q.data.Some?
    ensures Asked(QNext(q)) == Asked(q)
    decreases |q.waiting|, 0
  {
    if q.pending == [] && q.waiting != [] {
      StartAsked(q.(called := [], pending := q.called, active := false, waiting := q.waiting[1..]), q.waiting[0]);
      assert q.started + [q.waiting[0]] + q.waiting[1..] == q.started + q.waiting;
    }
  }

  /** What an operation appends to the order of firings: a request, or the replay of a list with memory. */
  function Request<C, D>(q: Queue<C, D>, op: Op<C, D>): seq<D> {
    if op.FireWith? then [op.data]
    else if op.Add? && !q.active && q.memory.Some? then [q.memory.value]
    else []
  }

  lemma RequestQueued<C, D>(q: Queue<C, D>, op: Op<C, D>)
    requires (q.active ==> q.data.Some?) && (!q.active ==> q.waiting == [])
    ensures Asked(QStep(q, op)) == Asked(q) + Request(q, op)
  {
    match op
    case Add(fs) =>
      if !q.active && q.memory.Some? {
        var list := Pushed(q.called + q.pending, fs, q.options.unique);
        PushedPrefix(q.called + q.pending, fs, q.options.unique);
        StartAsked(q.(pending := list[|q.called|..]), q.memory.value);
      }
    case Remove(_) =>
    case FireWith(data) =>
      if !q.active { StartAsked(q.(called := [], pending := q.called + q.pending), data); }
    case Return(_) =>
      if q.active { NextAsked(q); }
  }

  /** Everything that asks for a firing in the course of `ops`, in order. */
  ghost function Requests<C, D>(s: State<C, D>, ops: seq<Op<C, D>>): seq<D>
    requires Repeatable(s)
    decreases |ops|
  {
    if ops == [] then []
    else
      StepRefines(s, ops[0]);
      Request(Abs(s), ops[0]) + Requests(Step(s, ops[0]), ops[1..])
  }

  lemma FirstStep<C, D>(s: State<C, D>, op: Op<C, D>)
    requires Repeatable(s)
    ensures var next := Step(s, op);
            && Inv(next) && Repeatable(next) && next.stack.Some? && s.stack.Some?
            && next.started + next.stack.value == s.started + s.stack.value + Request(Abs(s), op)
  {
    StepRefines(s, op);
    RequestQueued(Abs(s), op);
    hide Step, QStep, Request;
  }

  /** Over any run the firings begun and the firings waiting are together what was asked for, first in, first out;
      when the list is not firing, none waits. */
  lemma {:induction false} FirstInFirstOut<C, D>(s: State<C, D>, ops: seq<Op<C, D>>)
    requires Repeatable(s)
    ensures var end := Run(s, ops);
            && Repeatable(end) && end.started + end.stack.value == s.started + s.stack.value + Requests(s, ops)
            && (!end.firing ==> end.started == s.started + s.stack.value + Requests(s, ops))
    decreases |ops|
  {
    if ops != [] {
      FirstStep(s, ops[0]);
      hide Step, Abs, Request;
      FirstInFirstOut(Step(s, ops[0]), ops[1..]);
    }
  }

  // ---------- what this says about the list ----------

  lemma {:induction false} EndOfRun<C, D>(s: State<C, D>, ops: seq<Op<C, D>>)
    requires Repeatable(s) && InFiring(Abs(s), ops)
    ensures Repeatable(Run(s, ops)) && Abs(Run(s, ops)) == EndOf(Abs(s), ops)
    decreases |ops|
  {
    if ops != [] {
      StepRefines(s, ops[0]);
      EndOfRun(Step(s, ops[0]), ops[1..]);
    }
  }

  lemma LineOfList<C, D>(s: State<C, D>)
    requires Repeatable(s) && s.firing
    ensures Abs(s).data == s.data && s.data.Some?
    ensures Line(Abs(s)) == s.log + Calls(s.list.value[s.firingIndex + 1..], s.data.value)
  {
  }

  lemma FiringLine<C, D>(s: State<C, D>, ops: seq<Op<C, D>>)
    requires Repeatable(s) && s.firing && InFiring(Abs(s), ops) && forall op :: op in ops ==> !op.Remove?
    ensures var end := Run(s, ops);
            && Repeatable(end) && end.firing && s.data.Some? && end.data == s.data
            && Line(Abs(end)) == Line(Abs(s)) + Calls(NewEntries(Abs(s), ops), s.data.value)
  {
    EndOfRun(s, ops);
    CallsInListOrder(Abs(s), ops);
    assert Abs(Run(s, ops)).active == Run(s, ops).firing;
    assert Abs(s).data == s.data && Abs(Run(s, ops)).data == Run(s, ops).data;
    hide Line, Calls, Run, NewEntries, InFiring;
  }

  /** The list itself: when a firing from which nothing was removed has nothing left to call, it has called the
      entries behind the firing index and the ones added meanwhile, once each and in order. */
  lemma FiringCallsEveryEntry<C, D>(s: State<C, D>, ops: seq<Op<C, D>>)
    requires Repeatable(s) && s.firing && InFiring(Abs(s), ops) && forall op :: op in ops ==> !op.Remove?
    ensures var end := Run(s, ops);
            end.list.Some? && (end.firingIndex == |end.list.value| - 1 ==>
              end.log == s.log + Calls(s.list.value[s.firingIndex + 1..] + NewEntries(Abs(s), ops), s.data.value))
  {
    var end := Run(s, ops);
    FiringLine(s, ops);
    LineOfList(s);
    LineOfList(end);
    var rest, more := s.list.value[s.firingIndex + 1..], NewEntries(Abs(s), ops);
    hide Line, Abs, Run, InFiring, EndOf, NewEntries, Calls;
    CallsConcat(rest, more, s.data.value);
    if end.firingIndex == |end.list.value| - 1 {
      NothingLeft(s, end, rest, more);
    }
  }

  /** The list itself: when a firing has nothing left to call, it has called a callback that was neither added nor
      removed meanwhile as often as it stood behind the firing index, whatever else was. */
  lemma FiringSkipsNobody<C, D>(s: State<C, D>, ops: seq<Op<C, D>>, c: C)
    requires Repeatable(s) && s.firing && InFiring(Abs(s), ops)
    requires forall op :: op in ops ==> (op.Remove? ==> op.f != c) && (op.Add? ==> c !in op.fs)
    ensures var end := Run(s, ops);
            end.list.Some? && (end.firingIndex == |end.list.value| - 1 ==>
              Times(end.log, c) == Times(s.log, c) + Times(Calls(s.list.value[s.firingIndex + 1..], s.data.value), c))
  {
    EndOfRun(s, ops);
    RemovalsSkipNobody(Abs(s), ops, c);
    var end := Run(s, ops);
    assert EndOf(Abs(s), ops) == Abs(end);
    AbsFields(s);
    AbsFields(end);
    hide Abs, Run, InFiring, EndOf, Times, Calls;
    if end.firingIndex == |end.list.value| - 1 {
      assert end.list.value[end.firingIndex + 1..] == [];
    }
  }

  lemma AbsFields<C, D>(s: State<C, D>)
    requires Repeatable(s)
    ensures var q := Abs(s); q.active == s.firing && q.log == s.log && q.data == s.data
    ensures s.firing ==> Abs(s).pending == s.list.value[s.firingIndex + 1..]
  {
  }

  lemma NothingLeft<C, D>(s: State<C, D>, end: State<C, D>, rest: seq<C>, more: seq<C>)
    requires s.data.Some? && end.data == s.data && end.list.Some? && 0 <= end.firingIndex + 1 == |end.list.value|
    requires var d := s.data.value;
             end.log + Calls(end.list.value[end.firingIndex + 1..], d) == s.log + Calls(rest, d) + Calls(more, d)
    ensures end.log == s.log + Calls(rest + more, s.data.value)
  {
    var d := s.data.value;
    CallsConcat(rest, more, d);
    NoCalls<C, D>(d);
    assert end.list.value[end.firingIndex + 1..] == [];
    assert end.log + Calls([], d) == end.log;
    assert (s.log + Calls(rest, d)) + Calls(more, d) == s.log + (Calls(rest, d) + Calls(more, d));
  }

  // ---------- empty, disable and lock ----------

  /** Everything that can be called on a list, and the return of a callback. */
  datatype ListOp<C, D> = Plain(op: Op<C, D>) | Empty | Disable | Lock

  function ListStep<C(==), D>(s: State<C, D>, op: ListOp<C, D>): State<C, D>
    requires Inv(s)
  {
    match op
    case Plain(op) => Step(s, op)
    case Empty => Emptied(s)
    case Disable => Disabled(s)
    case Lock => Locked(s)
  }

  lemma ListStepKeepsInv<C, D>(s: State<C, D>, op: ListOp<C, D>)
    requires Inv(s)
    ensures Inv(ListStep(s, op)) && ListStep(s, op).options == s.options
  {
    match op
    case Plain(op) =>
      StepKeepsInv(s, op);
      match op {
        case Add(fs) => AddKeepsInv(s, fs);
        case Remove(f) =>
        case FireWith(data) => FireWithKeepsInv(s, data);
        case Return(isFalse) => if s.firing { ReturnKeepsInv(s, isFalse); }
      }
    case _ =>
  }

  ghost function ListRun<C, D>(s: State<C, D>, ops: seq<ListOp<C, D>>): State<C, D>
    requires Inv(s)
    ensures Inv(ListRun(s, ops))
    decreases |ops|
  {
    if ops == [] then s
    else
      ListStepKeepsInv(s, ops[0]);
      ListRun(ListStep(s, ops[0]), ops[1..])
  }

  lemma DisabledStep<C, D>(s: State<C, D>, op: ListOp<C, D>)
    requires Inv(s) && s.list.None? && !op.Empty?
    ensures var t := ListStep(s, op); t.list.None? && t.log == s.log && t.started == s.started
  {
    if op.Plain? && op.op.Return? && s.firing {
      var next := s.(firingIndex := s.firingIndex + 1);
      assert Loop(next) == Finish(next);
    }
  }

  /** A disabled list begins no firing and makes no call, unless `empty` gives it a list again. */
  lemma {:induction false} DisabledStays<C, D>(s: State<C, D>, ops: seq<ListOp<C, D>>)
    requires Inv(s) && s.list.None? && forall op :: op in ops ==> !op.Empty?
    ensures var end := ListRun(s, ops); end.list.None? && end.log == s.log && end.started == s.started
    decreases |ops|
  {
    if ops != [] {
      ListStepKeepsInv(s, ops[0]);
      assert ops[0] in ops;
      DisabledStep(s, ops[0]);
      DisabledStays(ListStep(s, ops[0]), ops[1..]);
    }
  }

  /** The list can begin no other firings than replays of `v`: it has fired, and it is locked, disabled or one that
      fires once. */
  ghost predicate FixedOn<C, D>(s: State<C, D>, v: D) {
    s.fired && s.stack.None? && (s.memory.Some? ==> s.memory.value == v) && (s.firing ==> s.data == Some(v))
  }

  /** `t` continues `s` with calls that get `v`. */
  ghost predicate OnlyWith<C, D>(s: State<C, D>, t: State<C, D>, v: D) {
    s.log <= t.log && forall k :: |s.log| <= k < |t.log| ==> t.log[k].data == v
  }

  lemma FixedStep<C, D>(s: State<C, D>, op: ListOp<C, D>, v: D)
    requires Inv(s) && FixedOn(s, v)
    ensures FixedOn(ListStep(s, op), v) && OnlyWith(s, ListStep(s, op), v)
    ensures ListStep(s, op).started == s.started || ListStep(s, op).started == s.started + [v]
  {
    if op.Plain? {
      match op.op
      case Add(fs) =>
        if s.list.Some? && !s.firing && s.memory.Some? {
          var pushed := Pushed(s.list.value, fs, s.options.unique);
          FixedFire(s.(list := Some(pushed), firingStart := |s.list.value|), s.memory.value);
        }
      case Remove(f) =>
      case FireWith(data) =>
      case Return(isFalse) =>
        if s.firing {
          FixedLoop(s.(firingIndex := s.firingIndex + 1), v);
        }
    }
  }

  lemma FixedFire<C, D>(s: State<C, D>, v: D)
    requires s.list.Some? && s.stack.None?
    ensures FixedOn(Fire(s, v), v) && OnlyWith(s, Fire(s, v), v) && Fire(s, v).started == s.started + [v]
  {
    FixedLoop(s.(memory := if s.options.memory then Some(v) else None, fired := true, firingIndex := s.firingStart,
                 firingStart := 0, firingLength := |s.list.value|, firing := true, data := Some(v),
                 started := s.started + [v]), v);
  }

  lemma FixedLoop<C, D>(s: State<C, D>, v: D)
    requires s.fired && s.stack.None? && (s.memory.Some? ==>
          s.memory.value == v) && s.data == Some(v) && s.firingIndex >= 0
    requires s.list.Some? ==> s.firingLength == |s.list.value|
    ensures FixedOn(Loop(s), v) && OnlyWith(s, Loop(s), v) && Loop(s).started == s.started
  {
    if !(s.list.Some? && s.firingIndex < s.firingLength) {
      assert Loop(s) == Finish(s);
    }
  }

  /** Every later call of a locked list, or of a list that fires once, gets the arguments of its last firing. */
  lemma {:induction false} FixedRun<C, D>(s: State<C, D>, ops: seq<ListOp<C, D>>, v: D)
    requires Inv(s) && FixedOn(s, v)
    ensures FixedOn(ListRun(s, ops), v) && OnlyWith(s, ListRun(s, ops), v)
    decreases |ops|
  {
    if ops != [] {
      ListStepKeepsInv(s, ops[0]);
      FixedStep(s, ops[0], v);
      hide ListStep, FixedOn;
      FixedRun(ListStep(s, ops[0]), ops[1..], v);
    }
  }

  ghost predicate OneArgument<C, D>(log: seq<Call<C, D>>) {
    forall j, k :: 0 <= j < |log| && 0 <= k < |log| ==> log[j].data == log[k].data
  }

  lemma OnlyWithOne<C, D>(s: State<C, D>, t: State<C, D>, v: D)
    requires OnlyWith(s, t, v) && s.log == []
    ensures OneArgument(t.log)
  {
  }

  lemma OnlyWithTransitive<C, D>(s: State<C, D>, t: State<C, D>, u: State<C, D>, v: D)
    requires OnlyWith(s, t, v) && OnlyWith(t, u, v)
    ensures OnlyWith(s, u, v)
  {
  }

  lemma NotFiredStep<C, D>(s: State<C, D>, op: ListOp<C, D>)
    requires Inv(s) && !s.fired && s.options.once && !(op.Plain? && op.op.FireWith? && s.list.Some?)
    ensures !ListStep(s, op).fired && ListStep(s, op).log == s.log
  {
  }

  /** All calls that a list with the `once` option ever makes get the same arguments. */
  lemma {:induction false} OnceOneArgument<C, D>(s: State<C, D>, ops: seq<ListOp<C, D>>)
    requires Inv(s) && s.options.once && !s.fired && s.log == []
    ensures OneArgument(ListRun(s, ops).log)
    decreases |ops|
  {
    if ops != [] {
      ListStepKeepsInv(s, ops[0]);
      var next := ListStep(s, ops[0]);
      if ops[0].Plain? && ops[0].op.FireWith? && s.list.Some? {
        var v := ops[0].op.data;
        FixedFire(s, v);
        FixedRun(next, ops[1..], v);
        OnlyWithTransitive(s, next, ListRun(next, ops[1..]), v);
        OnlyWithOne(s, ListRun(s, ops), v);
      } else {
        NotFiredStep(s, ops[0]);
        OnceOneArgument(next, ops[1..]);
      }
    }
  }

  /** A callback that runs empties the list, adds `fs` and returns. */
  ghost function AfterEmpty<C, D>(s: State<C, D>, fs: seq<C>): State<C, D>
    requires Inv(s) && s.firing
  {
    AddKeepsInv(Emptied(s), fs);
    Returned(Added(Emptied(s), fs), false)
  }

  /** The same on the queue. */
  function QAfterEmpty<C(==), D>(q: Queue<C, D>, fs: seq<C>): Queue<C, D>
    requires q.active && q.data.Some?
  {
    QNext(QAdd(q.(called := [], pending := []), fs))
  }

  /** `empty` does not move the firing index: the firing passes over as many of the entries added as there were
      entries up to the running callback, and calls the one after them; if there is none, the firing is over. */
  lemma EmptyPassesOver<C, D>(s: State<C, D>, fs: seq<C>)
    requires Repeatable(s) && s.firing && s.firingIndex >= 0
    ensures var end, pushed, k := AfterEmpty(s, fs), Pushed([], fs, s.options.unique), s.firingIndex + 1;
      if k < |pushed| then end.firing && end.started == s.started && end.log == s.log + [Call(pushed[k], s.data.value)]
      else if s.stack.value == [] then !end.firing && end.started == s.started && end.log == s.log
      else s.started + [s.stack.value[0]] <= end.started
  {
    AddKeepsInv(Emptied(s), fs);
    var added := Added(Emptied(s), fs);
    var next := added.(firingIndex := added.firingIndex + 1);
    if next.firingIndex >= |Pushed([], fs, s.options.unique)| {
      assert Loop(next) == Finish(next);
      if s.stack.value != [] {
        FireStarts(next.(firing := false, stack := Some(s.stack.value[1..])), s.stack.value[0]);
      }
    }
  }

  /** A firing is recorded as begun before anything else begins. */
  lemma {:induction false} FireStarts<C, D>(s: State<C, D>, data: D)
    requires s.list.Some?
    ensures s.started + [data] <= Fire(s, data).started
    decreases StackLength(s)
  {
    var next := s.(memory := if s.options.memory then Some(data) else None, fired := true, firingIndex := s.firingStart,
                   firingStart := 0, firingLength := |s.list.value|, firing := true, data := Some(data),
                   started := s.started + [data]);
    if next.firingIndex >= next.firingLength {
      assert Loop(next) == Finish(next);
      if s.stack.Some? && s.stack.value != [] {
        FireStarts(next.(firing := false, stack := Some(s.stack.value[1..])), s.stack.value[0]);
      }
    }
  }

  /** With one entry added the list and the queue differ, in the call or in the firing. */
  lemma EmptyDiffers<C, D>(s: State<C, D>, f: C)
    requires Repeatable(s) && s.firing && s.firingIndex >= 0
    ensures var end, q := AfterEmpty(s, [f]), QAfterEmpty(Abs(s), [f]); end.log != q.log || end.started != q.started
  {
    EmptyPassesOver(s, [f]);
    assert [f][1..] == [];
    assert Pushed([], [f], s.options.unique) == [f];
    var q := Abs(s).(called := [], pending := []);
    assert q.called + q.pending == [] && [f][0..] == [f];
    assert QAdd(q, [f]).pending == [f];
    assert QAfterEmpty(Abs(s), [f]).log == s.log + [Call(f, s.data.value)];
    assert QAfterEmpty(Abs(s), [f]).started == s.started;
  }

  /** When the running callback and all entries before it have been removed, the list does what the queue does. */
  lemma EmptyRefines<C, D>(s: State<C, D>, fs: seq<C>)
    requires Repeatable(s) && s.firing && s.firingIndex == -1
    ensures var end := AfterEmpty(s, fs); Repeatable(end) && Abs(end) == QAfterEmpty(Abs(s), fs)
  {
    assert Abs(Emptied(s)) == Abs(s).(called := [], pending := []);
    AddRefines(Emptied(s), fs);
    ReturnRefines(Added(Emptied(s), fs), false);
  }

  /** After an `empty` inside a firing the list goes on as the queue does, whatever is added, with waiting firings or
      without, if and only if the running callback and all entries before it had been removed. */
  lemma EmptyExactly<C, D>(s: State<C, D>)
    requires Repeatable(s) && s.firing
    ensures (forall fs {:trigger AfterEmpty(s, fs)} ::
               AfterEmpty(s, fs).log == QAfterEmpty(Abs(s), fs).log
               && AfterEmpty(s, fs).started == QAfterEmpty(Abs(s), fs).started)
            <==> s.firingIndex == -1
  {
    hide AfterEmpty, QAfterEmpty;
    if s.firingIndex == -1 {
      forall fs
        ensures AfterEmpty(s, fs).log == QAfterEmpty(Abs(s), fs).log
                && AfterEmpty(s, fs).started == QAfterEmpty(Abs(s), fs).started
      {
        EmptyRefines(s, fs);
      }
    } else {
      EmptyDiffers(s, s.list.value[s.firingIndex]);
    }
  }
}
