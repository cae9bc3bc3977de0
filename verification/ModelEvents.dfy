/** Which events `Model.set` fires: each change once, in its order, and a "change" event at the end. */
module ModelEvents {
  import opened ModelState
  import opened ModelTheorems
  import opened Wrappers

  // ---------- without listeners that set ----------

  function AttrChanges(names: seq<string>): seq<Event> {
    seq(|names|, k requires 0 <= k < |names| => AttrChange(names[k]))
  }

  lemma {:induction false} TellLog(m: Model, changes: seq<string>, reactions: seq<Reaction>, k: nat)
    requires Unheard(reactions) && k <= |changes|
    ensures Tell(m, changes, reactions, k) == m.(log := m.log + AttrChanges(changes[k..]))
    decreases |changes| - k
  {
    if k < |changes| {
      var e := AttrChange(changes[k]);
      ReactUnheard(Fired(m, e), reactions, k);
      TellLog(Fired(m, e), changes, reactions, k + 1);
      assert AttrChanges(changes[k..]) == [e] + AttrChanges(changes[k + 1..]);
    }
  }

  lemma SettleLog(m: Model, reactions: seq<Reaction>, k: nat)
    requires Unheard(reactions)
    ensures Settle(m, reactions, k) == if m.pending then m.(pending := false, log := m.log + [Change]) else m
  {
    if m.pending {
      ReactUnheard(Fired(m.(pending := false), Change), reactions, k);
    }
  }

  /** Without listeners that call `set`, a loud call fires one event for each entry that gives an attribute another
      value, in the order of the entries, and then one "change" event if there is such an entry; a silent call fires
      none. */
  lemma EventsExactly(m: Model, call: Call)
    requires !m.changing && !m.pending && call.valid && Distinct(call.attrs)
    requires call.silent || Unheard(call.reactions)
    ensures var names := Differing(m.attributes, call.attrs);
      Set(m, call).log
      == m.log + [Assigned(call.attrs, call.unset, call.silent, names)]
         + if call.silent || names == [] then [] else AttrChanges(names) + [Change]
  {
    var names, a := Differing(m.attributes, call.attrs), AssignedBy(m, call);
    ChangesDiffer(m.attributes, call.attrs, call.unset);
    AssignAllAttributes(WithId(Begun(m), call.attrs), call.attrs, call.unset);
    AssignedFollows(m, call);
    assert a.pending == (!call.silent && names != []);
    hide AssignedBy, Changes, Differing, Tell, Settle, Follows;
    if !call.silent {
      TellLog(a, names, call.reactions, 0);
      SettleLog(Tell(a, names, call.reactions, 0), call.reactions, |names|);
      assert names[0..] == names;
    }
  }

  /** Without listeners that call `set`, the attributes named have the values given, or are gone if the call unsets
      them, and no other attribute has changed; the id is the value given for the attribute it copies. */
  lemma ValuesExactly(m: Model, call: Call, name: string)
    requires !m.changing && call.valid && Distinct(call.attrs) && (call.silent || Unheard(call.reactions))
    ensures var r := Set(m, call);
      && (forall i {:trigger call.attrs[i]} :: 0 <= i < |call.attrs| && call.attrs[i].name == name ==>
            && (call.unset ==> name !in r.attributes)
            && (!call.unset ==> name in r.attributes && r.attributes[name] == call.attrs[i].val)
            && (name == m.idAttribute ==> r.id == call.attrs[i].val))
      && ((forall i {:trigger call.attrs[i]} :: 0 <= i < |call.attrs| ==> call.attrs[i].name != name) ==>
            && (name in r.attributes <==> name in m.attributes)
            && (name in m.attributes ==> r.attributes[name] == m.attributes[name])
            && (name == m.idAttribute ==> r.id == m.id))
  {
    SetUnheard(m, call);
    AssignAllAttributes(WithId(Begun(m), call.attrs), call.attrs, call.unset);
    assert Core(Set(m, call)).attributes == AttributesAfter(m.attributes, call.attrs, call.unset);
    assert Core(Set(m, call)).id == WithId(m, call.attrs).id;
    hide Set, AssignedBy, AssignAll;
    Values(m.attributes, call.attrs, call.unset, name);
    forall i | 0 <= i < |call.attrs| ensures LastOf(call.attrs, call.attrs[i].name) == Some(call.attrs[i].val) {
      LastOfDistinct(call.attrs, i);
    }
    if LastOf(call.attrs, name).Some? { var i := LastOfSome(call.attrs, name); }
    hide LastOf, AttributesAfter;
  }

  lemma {:induction false} Values(attributes: Attributes, attrs: seq<Entry>, unset: bool, name: string)
    ensures var r := AttributesAfter(attributes, attrs, unset);
      match LastOf(attrs, name)
      case None => (name in r <==> name in attributes) && (name in attributes ==> r[name] == attributes[name])
      case Some(v) => if unset then name !in r else name in r && r[name] == v
  {
    if attrs != [] {
      Values(attributes, attrs[..|attrs| - 1], unset, name);
    }
  }

  // ---------- with listeners ----------

  /** What is still to be told: the changed attributes, the innermost set's first, and whether a "change" event has to
      follow. */
  datatype Book = Book(owed: seq<string>, pending: bool)

  /** What an event does to the book; an event that is not due has no place in it. */
  function Post(b: Book, e: Event): Option<Book> {
    match e
    case Assigned(_, _, silent, changes) =>
      Some(if silent then b else Book(changes + b.owed, b.pending || changes != []))
    case AttrChange(name) => if b.owed != [] && b.owed[0] == name then Some(b.(owed := b.owed[1..])) else None
    case Change => if b.owed == [] && b.pending then Some(b.(pending := false)) else None
  }

  function PostAll(b: Book, log: seq<Event>): Option<Book> {
    if log == [] then Some(b)
    else
      var before := PostAll(b, log[..|log| - 1]);
      if before.Some? then Post(before.value, log[|log| - 1]) else None
  }

  lemma {:induction false} PostConcat(b: Book, s: seq<Event>, t: seq<Event>)
    requires PostAll(b, s).Some?
    ensures PostAll(b, s + t) == PostAll(PostAll(b, s).value, t)
    decreases |t|
  {
    if t == [] {
      assert s + t == s;
    } else {
      var n := |t| - 1;
      assert (s + t)[..|s + t| - 1] == s + t[..n];
      PostConcat(b, s, t[..n]);
    }
  }

  /** From `m` to `r` everything is told when it is due. */
  ghost predicate Tells(m: Model, r: Model, owed: seq<string>, owed': seq<string>) {
    m.log <= r.log && PostAll(Book(owed, m.pending), r.log[|m.log|..]) == Some(Book(owed', r.pending))
  }

  lemma TellsTransitive(a: Model, b: Model, c: Model, x: seq<string>, y: seq<string>, z: seq<string>)
    requires Tells(a, b, x, y) && Tells(b, c, y, z)
    ensures Tells(a, c, x, z)
  {
    hide PostAll;
    assert c.log[|a.log|..] == b.log[|a.log|..] + c.log[|b.log|..];
    PostConcat(Book(x, a.pending), b.log[|a.log|..], c.log[|b.log|..]);
  }

  lemma SameTells(m: Model, r: Model, owed: seq<string>)
    requires r.log == m.log && r.pending == m.pending
    ensures Tells(m, r, owed, owed)
  {
    assert r.log[|m.log|..] == [];
  }

  lemma OneTells(m: Model, r: Model, e: Event, owed: seq<string>, owed': seq<string>)
    requires r.log == m.log + [e] && Post(Book(owed, m.pending), e) == Some(Book(owed', r.pending))
    ensures Tells(m, r, owed, owed')
  {
    assert r.log[|m.log|..] == [e];
    assert [e][..0] == [];
  }

  /** A nested set tells its own changes before it returns. */
  lemma {:induction false} SetTells(m: Model, call: Call, owed: seq<string>)
    requires m.changing
    ensures Tells(m, Set(m, call), owed, owed) && Set(m, call).changing && (m.pending ==> Set(m, call).pending)
    decreases call
  {
    hide Tells, AssignedBy, Changes;
    if !call.valid {
      SameTells(m, m, owed);
    } else {
      var changes, a := Changes(m.attributes, call.attrs, call.unset), AssignedBy(m, call);
      AssignedTells(m, call, owed);
      if !call.silent {
        TellTells(a, changes, call.reactions, 0, owed);
        assert changes[0..] == changes;
        TellsTransitive(m, a, Tell(a, changes, call.reactions, 0), owed, changes + owed, owed);
      }
    }
  }

  lemma AssignedTells(m: Model, call: Call, owed: seq<string>)
    ensures var changes, a := Changes(m.attributes, call.attrs, call.unset), AssignedBy(m, call);
      && Tells(m, a, owed, if call.silent then owed else changes + owed) && a.changing
      && a.pending == (m.pending || (!call.silent && changes != []))
  {
    AssignedFollows(m, call);
    AssignAllAttributes(WithId(Begun(m), call.attrs), call.attrs, call.unset);
    var changes, a := Changes(m.attributes, call.attrs, call.unset), AssignedBy(m, call);
    assert a.pending == (m.pending || (!call.silent && changes != []));
    hide AssignedBy, Changes, Follows, Tells;
    OneTells(m, a, Assigned(call.attrs, call.unset, call.silent, changes), owed, if call.silent then owed
      else changes + owed);
  }

  lemma {:induction false} TellTells(m: Model, changes: seq<string>, reactions: seq<Reaction>, k: nat,
    owed: seq<string>)
    requires k <= |changes| && m.changing
    ensures var r := Tell(m, changes, reactions, k);
      Tells(m, r, changes[k..] + owed, owed) && r.changing && (m.pending ==> r.pending)
    decreases reactions, 1, |changes| - k
  {
    hide Tells;
    if k == |changes| {
      SameTells(m, m, owed);
      assert changes[k..] + owed == owed;
    } else {
      var fired := Fired(m, AttrChange(changes[k]));
      var rest := changes[k + 1..] + owed;
      assert (changes[k..] + owed)[1..] == rest;
      OneTells(m, fired, AttrChange(changes[k]), changes[k..] + owed, rest);
      ReactTells(fired, reactions, k, rest);
      TellTells(React(fired, reactions, k), changes, reactions, k + 1, owed);
      TellsTransitive(m, fired, React(fired, reactions, k), changes[k..] + owed, rest, rest);
      TellsTransitive(m, React(fired, reactions, k), Tell(m, changes, reactions, k), changes[k..] + owed, rest, owed);
    }
  }

  lemma {:induction false} ReactTells(m: Model, reactions: seq<Reaction>, k: nat, owed: seq<string>)
    requires m.changing
    ensures Tells(m, React(m, reactions, k), owed, owed) && React(m, reactions, k).changing
    ensures m.pending ==> React(m, reactions, k).pending
    decreases reactions, 0
  {
    hide Tells;
    if k < |reactions| {
      AllTell(m, reactions[k].calls, owed);
    } else {
      SameTells(m, m, owed);
    }
  }

  lemma {:induction false} AllTell(m: Model, calls: seq<Call>, owed: seq<string>)
    requires m.changing
    ensures Tells(m, SetAll(m, calls), owed, owed) && SetAll(m, calls).changing
        && (m.pending ==> SetAll(m, calls).pending)
    decreases calls
  {
    hide Tells;
    if calls == [] {
      SameTells(m, m, owed);
    } else {
      SetTells(m, calls[0], owed);
      AllTell(Set(m, calls[0]), calls[1..], owed);
      TellsTransitive(m, Set(m, calls[0]), SetAll(m, calls), owed, owed, owed);
    }
  }

  lemma {:induction false} SettleTells(m: Model, reactions: seq<Reaction>, k: nat)
    requires m.changing
    ensures Tells(m, Settle(m, reactions, k), [], []) && !Settle(m, reactions, k).pending
    decreases reactions, 1, if k <= |reactions| then |reactions| - k else 0
  {
    hide Tells;
    if !m.pending {
      SameTells(m, m, []);
    } else {
      var fired := Fired(m.(pending := false), Change);
      OneTells(m, fired, Change, [], []);
      ReactTells(fired, reactions, k, []);
      TellsTransitive(m, fired, React(fired, reactions, k), [], [], []);
      if k < |reactions| {
        SettleTells(React(fired, reactions, k), reactions, k + 1);
        TellsTransitive(m, React(fired, reactions, k), Settle(m, reactions, k), [], [], []);
      }
    }
  }

  /** Whatever sets the listeners nest, in the history of an outermost set each change that was not silent is told by
      one event of its own, in the order of the changes and those of a nested set first; a "change" event is fired only
      when nothing is left to tell and something has changed since the last one, and at the end nothing is owed. */
  lemma EventsBalance(m: Model, call: Call)
    requires !m.changing && !m.pending && call.valid
    ensures var r := Set(m, call);
      && m.log <= r.log && !r.pending && !r.changing
      && PostAll(Book([], false), r.log[|m.log|..]) == Some(Book([], false))
  {
    var changes, a := Changes(m.attributes, call.attrs, call.unset), AssignedBy(m, call);
    AssignedTells(m, call, []);
    if !call.silent {
      TellTells(a, changes, call.reactions, 0, []);
      assert changes[0..] + [] == changes + [];
      var told := Tell(a, changes, call.reactions, 0);
      SettleTells(told, call.reactions, |changes|);
      hide Tells, AssignedBy, Changes, Tell, Settle;
      TellsTransitive(m, a, told, [], changes + [], []);
      TellsTransitive(m, told, Settle(told, call.reactions, |changes|), [], [], []);
    }
  }

  /** Every assignment in the history of an outermost set, nested or not, has recorded exactly the attributes that had
      another value just before it, in the order given. */
  lemma ChangesRecorded(m: Model, call: Call, i: nat)
    requires !m.changing && call.valid
    requires |m.log| <= i < |Set(m, call).log| && Set(m, call).log[i].Assigned? && Distinct(Set(m, call).log[i].attrs)
    ensures var log := Set(m, call).log;
      log[i].changes == Differing(Replay(Core(Begun(m)), log[|m.log|..i]).attributes, log[i].attrs)
  {
    var log := Set(m, call).log;
    SetFollows(m, call);
    TruthfulAt(Core(Begun(m)), log[|m.log|..], i - |m.log|);
    assert log[|m.log|..][..i - |m.log|] == log[|m.log|..i];
  }

  lemma {:induction false} TruthfulAt(m: Model, log: seq<Event>, i: nat)
    requires Truthful(m, log) && i < |log| && log[i].Assigned? && Distinct(log[i].attrs)
    ensures log[i].changes == Differing(Replay(m, log[..i]).attributes, log[i].attrs)
  {
    var n := |log| - 1;
    if i < n {
      TruthfulAt(m, log[..n], i);
      assert log[..n][..i] == log[..i];
    }
  }

  // ---------- the listeners' own sets ----------

  /** The history holds what call number `j` of a reaction assigned, behind the event at `at`, and for the first call
      right behind it. */
  ghost predicate Heard(log: seq<Event>, at: nat, calls: seq<Call>, j: nat)
    requires j < |calls|
  {
    exists i {:trigger log[i]} :: at < i < |log| && log[i].Assigned? && (j == 0 ==> i == at + 1)
      && log[i].attrs == calls[j].attrs && log[i].unset == calls[j].unset && log[i].silent == calls[j].silent
  }

  lemma HeardLater(log: seq<Event>, more: seq<Event>, at: nat, calls: seq<Call>, j: nat)
    requires j < |calls| && Heard(log, at, calls, j) && log <= more
    ensures Heard(more, at, calls, j)
  {
    var i :| at < i < |log| && log[i].Assigned? && (j == 0 ==> i == at + 1)
             && log[i].attrs == calls[j].attrs && log[i].unset == calls[j].unset && log[i].silent == calls[j].silent;
    assert more[i] == log[i];
  }

  lemma {:induction false} CallHeard(m: Model, at: nat, calls: seq<Call>, from: nat, j: nat)
    requires m.changing && from <= j < |calls| && calls[j].valid && at < |m.log| && (from == 0 ==> at == |m.log| - 1)
    ensures Heard(SetAll(m, calls[from..]).log, at, calls, j)
    decreases j - from
  {
    var next := Set(m, calls[from]);
    assert calls[from..][0] == calls[from] && calls[from..][1..] == calls[from + 1..];
    SetFollows(m, calls[from]);
    AllFollow(next, calls[from + 1..]);
    if from < j {
      CallHeard(next, at, calls, from + 1, j);
    } else {
      var e := Assigned(calls[j].attrs, calls[j].unset, calls[j].silent,
          Changes(m.attributes, calls[j].attrs, calls[j].unset));
      assert next.log[|m.log|] == e;
      assert Heard(next.log, at, calls, j);
      HeardLater(next.log, SetAll(m, calls[from..]).log, at, calls, j);
    }
  }

  lemma ReactionHeard(m: Model, e: Event, reactions: seq<Reaction>, k: nat, j: nat)
    requires m.changing && k < |reactions| && j < |reactions[k].calls| && reactions[k].calls[j].valid && !e.Assigned?
    ensures var r := React(Fired(m, e), reactions, k);
      r.changing && m.log + [e] <= r.log && Heard(r.log, |m.log|, reactions[k].calls, j)
  {
    assert reactions[k].calls[0..] == reactions[k].calls;
    CallHeard(Fired(m, e), |m.log|, reactions[k].calls, 0, j);
    ReactFollows(Fired(m, e), reactions, k);
  }

  lemma {:induction false} TellHeard(m: Model, changes: seq<string>, reactions: seq<Reaction>, from: nat, k: nat,
    j: nat)
    returns (at: nat)
    requires m.changing && from <= k < |changes|
    requires k < |reactions| && j < |reactions[k].calls| && reactions[k].calls[j].valid
    ensures var log := Tell(m, changes, reactions, from).log;
      |m.log| <= at < |log| && log[at] == AttrChange(changes[k]) && Heard(log, at, reactions[k].calls, j)
    decreases k - from
  {
    var e := AttrChange(changes[from]);
    var next := React(Fired(m, e), reactions, from);
    ReactFollows(Fired(m, e), reactions, from);
    TellFollows(next, changes, reactions, from + 1);
    if from < k {
      at := TellHeard(next, changes, reactions, from + 1, k, j);
    } else {
      at := |m.log|;
      ReactionHeard(m, e, reactions, k, j);
      assert next.log[at] == e;
      HeardLater(next.log, Tell(m, changes, reactions, from).log, at, reactions[k].calls, j);
    }
  }

  lemma SettleHeard(m: Model, reactions: seq<Reaction>, k: nat, j: nat)
    requires m.changing && m.pending && k < |reactions| && j < |reactions[k].calls| && reactions[k].calls[j].valid
    ensures var log := Settle(m, reactions, k).log;
      |m.log| < |log| && log[|m.log|] == Change && Heard(log, |m.log|, reactions[k].calls, j)
  {
    var quiet := m.(pending := false);
    var next := React(Fired(quiet, Change), reactions, k);
    ReactionHeard(quiet, Change, reactions, k, j);
    SettleFollows(next, reactions, k + 1);
    hide Heard, Follows;
    LogGrows(next, Settle(m, reactions, k));
    assert next.log[|m.log|] == Change;
    HeardLater(next.log, Settle(m, reactions, k).log, |m.log|, reactions[k].calls, j);
  }

  /** The parts of an outermost loud set. */
  lemma SetParts(m: Model, call: Call)
    requires !m.changing && !m.pending && call.valid && !call.silent && Distinct(call.attrs)
    requires Differing(m.attributes, call.attrs) != []
    ensures var a, names := AssignedBy(m, call), Differing(m.attributes, call.attrs);
      && a.changing && a.pending && |a.log| == |m.log| + 1
      && Set(m, call).log == Settle(Tell(a, names, call.reactions, 0), call.reactions, |names|).log
  {
    ChangesDiffer(m.attributes, call.attrs, call.unset);
    AssignAllAttributes(WithId(Begun(m), call.attrs), call.attrs, call.unset);
    hide Changes, Differing, Tell, Settle, AssignAll;
  }

  /** Listeners run with their event: what they set, in answer to the event for a changed attribute or to the first
      "change" event, stands in the history behind that event. */
  lemma ListenersRun(m: Model, call: Call, k: nat, j: nat) returns (at: nat)
    requires !m.changing && !m.pending && call.valid && !call.silent && Distinct(call.attrs)
    requires k <= |Differing(m.attributes, call.attrs)| && Differing(m.attributes, call.attrs) != []
    requires k < |call.reactions| && j < |call.reactions[k].calls| && call.reactions[k].calls[j].valid
    ensures var log, names := Set(m, call).log, Differing(m.attributes, call.attrs);
      && |m.log| < at < |log| && log[at] == (if k < |names| then AttrChange(names[k]) else Change)
      && Heard(log, at, call.reactions[k].calls, j)
  {
    var names, a := Differing(m.attributes, call.attrs), AssignedBy(m, call);
    SetParts(m, call);
    hide AssignedBy, Differing, Heard, Follows, Tells, Tell, Settle, Set, React;
    TellFollows(a, names, call.reactions, 0);
    var told := Tell(a, names, call.reactions, 0);
    LogGrows(a, told);
    SettleFollows(told, call.reactions, |names|);
    var end := Settle(told, call.reactions, |names|);
    LogGrows(told, end);
    if k < |names| {
      at := TellHeard(a, names, call.reactions, 0, k, j);
      HeardLater(told.log, end.log, at, call.reactions[k].calls, j);
    } else {
      at := |told.log|;
      TellTells(a, names, call.reactions, 0, []);
      SettleHeard(told, call.reactions, k, j);
    }
  }
}
