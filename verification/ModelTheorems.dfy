/** What `Model.set` keeps, however deep its listeners nest further sets. */
module ModelTheorems {
  import opened ModelState
  import opened Wrappers

  // ---------- the difference ----------

  /** Assigning one attribute keeps `changed` the difference exactly if an attribute is only unset with an undefined
      value. */
  lemma AssignOneDiff(m: Model, e: Entry, unset: bool)
    requires m.changed == Diff(m.previous, m.attributes)
    ensures var r := AssignOne(m, e, unset);
      r.changed == Diff(r.previous, r.attributes) <==> (unset ==> e.val == Undefined)
  {
    var r := AssignOne(m, e, unset);
    if unset ==> e.val == Undefined {
      DiffMore(m.previous, m.attributes, r.attributes, e.name);
      assert Get(r.attributes, e.name) == e.val;
    } else {
      assert Get(r.attributes, e.name) == Undefined;
      assert e.name in r.changed <==> Get(m.previous, e.name) != e.val;
      assert e.name in Diff(r.previous, r.attributes) <==> Get(m.previous, e.name) != Undefined;
    }
  }

  /** The difference when one attribute changes. */
  lemma DiffMore(before: Attributes, now: Attributes, now': Attributes, name: string)
    requires forall x {:trigger Get(now', x)} :: x != name ==> Get(now', x) == Get(now, x)
    ensures Diff(before, now')
         == if Get(before, name) != Get(now', name) then Diff(before, now)[name := Get(now', name)]
           else Diff(before, now) - {name}
  {
    var d, d' := Diff(before, now), Diff(before, now');
    forall x ensures x in d' <==> Get(before, x) != Get(now', x) {}
    forall x ensures x in d <==> Get(before, x) != Get(now, x) {}
  }

  lemma {:induction false} AssignAllDiff(m: Model, attrs: seq<Entry>, unset: bool)
    requires m.changed == Diff(m.previous, m.attributes)
    requires unset ==> forall i {:trigger attrs[i]} :: 0 <= i < |attrs| ==> attrs[i].val == Undefined
    ensures var r := AssignAll(m, attrs, unset);
      r.changed == Diff(r.previous, r.attributes) && r == m.(changed := r.changed, attributes := r.attributes)
    ensures AssignAll(m, attrs, unset).attributes == AttributesAfter(m.attributes, attrs, unset)
  {
    if attrs != [] {
      var n := |attrs| - 1;
      AssignAllDiff(m, attrs[..n], unset);
      AssignOneDiff(AssignAll(m, attrs[..n], unset), attrs[n], unset);
    }
  }

  lemma AnnouncedMore(log: seq<Event>, e: Event)
    ensures e.Change? ==> Announced(log + [e])
    ensures e.AttrChange? ==> (Announced(log + [e]) <==> Announced(log))
    ensures e.Assigned? ==> (Announced(log + [e]) <==> (e.silent || e.changes == []) && Announced(log))
  {
    assert (log + [e])[..|log|] == log;
  }

  /** The assigning part of a set. */
  lemma AssignedInside(m: Model, call: Call)
    requires Proper(call) && (m.changing ==> Inside(m)) && (!m.changing ==> Announced(m.log))
    ensures var r := AssignedBy(m, call);
      Inside(r) && r.previous == if m.changing then m.previous else m.attributes
    ensures call.silent ==> AssignedBy(m, call).pending == m.pending
    ensures call.silent && Announced(m.log) ==> Announced(AssignedBy(m, call).log)
  {
    var b := WithId(Begun(m), call.attrs);
    AssignAllDiff(b, call.attrs, call.unset);
    AnnouncedMore(m.log, Assigned(call.attrs, call.unset, call.silent, Changes(m.attributes, call.attrs, call.unset)));
  }

  lemma FiredInside(m: Model, e: Event)
    requires Inside(m) && !e.Assigned?
    ensures Inside(Fired(m, e))
  {
    AnnouncedMore(m.log, e);
  }

  // ---------- nested sets ----------

  lemma {:induction false} NestedSet(m: Model, call: Call)
    requires Inside(m) && Proper(call)
    ensures Inside(Set(m, call)) && Set(m, call).previous == m.previous
    decreases call
  {
    hide Inside, AllProper;
    if call.valid {
      MustBeChanging(m);
      AssignedInside(m, call);
      if !call.silent {
        Told(AssignedBy(m, call), Changes(m.attributes, call.attrs, call.unset), call.reactions, 0);
      }
    }
  }

  lemma MustBeChanging(m: Model)
    requires Inside(m)
    ensures m.changing
  {
  }

  lemma {:induction false} Told(m: Model, changes: seq<string>, reactions: seq<Reaction>, k: nat)
    requires Inside(m) && AllProper(reactions) && k <= |changes|
    ensures var r := Tell(m, changes, reactions, k); Inside(r) && r.previous == m.previous
    decreases reactions, 1, |changes| - k
  {
    hide Inside, AllProper;
    if k < |changes| {
      FiredInside(m, AttrChange(changes[k]));
      Reacted(Fired(m, AttrChange(changes[k])), reactions, k);
      Told(React(Fired(m, AttrChange(changes[k])), reactions, k), changes, reactions, k + 1);
    }
  }

  lemma {:induction false} Reacted(m: Model, reactions: seq<Reaction>, k: nat)
    requires Inside(m) && AllProper(reactions)
    ensures var r := React(m, reactions, k); Inside(r) && r.previous == m.previous
    decreases reactions, 0
  {
    hide Inside, CallsProper;
    if k < |reactions| {
      AllSet(m, reactions[k].calls);
    }
  }

  lemma {:induction false} AllSet(m: Model, calls: seq<Call>)
    requires Inside(m) && CallsProper(calls)
    ensures var r := SetAll(m, calls); Inside(r) && r.previous == m.previous
    decreases calls
  {
    hide Inside, Proper;
    if calls != [] {
      assert Proper(calls[0]);
      NestedSet(m, calls[0]);
      AllSet(Set(m, calls[0]), calls[1..]);
    }
  }

  /** The loop of the outermost set ends with nothing pending and everything announced. */
  lemma {:induction false} Settled(m: Model, reactions: seq<Reaction>, k: nat)
    requires Inside(m) && AllProper(reactions)
    ensures var r := Settle(m, reactions, k);
      Inside(r) && r.previous == m.previous && !r.pending && Announced(r.log)
    decreases reactions, 1, if k <= |reactions| then |reactions| - k else 0
  {
    hide AllProper, Announced;
    if m.pending {
      AnnouncedMore(m.log, Change);
      var fired := Fired(m.(pending := false), Change);
      Reacted(fired, reactions, k);
      if k < |reactions| {
        Settled(React(fired, reactions, k), reactions, k + 1);
      }
    }
  }

  /** Between the outermost sets. */
  ghost predicate Idle(m: Model) {
    !m.changing && !m.pending && Announced(m.log)
  }

  /** When an outermost set returns, `changed` is the difference between the attributes at its start and now, and
      every change that was not silent was followed by a "change" event, whatever the listeners did. */
  lemma OutermostSet(m: Model, call: Call)
    requires Idle(m) && Proper(call)
    ensures Idle(Set(m, call))
    ensures call.valid ==> Set(m, call).changed == Diff(m.attributes, Set(m, call).attributes)
    ensures call.valid ==> Set(m, call).previous == m.attributes
    ensures !call.valid ==> Set(m, call) == m
  {
    hide AllProper, Announced, Tell, Settle, AssignedBy, Changes;
    if call.valid {
      var changes := Changes(m.attributes, call.attrs, call.unset);
      AssignedInside(m, call);
      if !call.silent {
        Told(AssignedBy(m, call), changes, call.reactions, 0);
        Settled(Tell(AssignedBy(m, call), changes, call.reactions, 0), call.reactions, |changes|);
      }
    }
  }

  // ---------- the history ----------

  /** An object has each of its attributes once. */
  ghost predicate Distinct(attrs: seq<Entry>) {
    forall i, j :: 0 <= i < j < |attrs| ==> attrs[i].name != attrs[j].name
  }

  /** The names of the entries that give an attribute another value than it has. */
  function Differing(attributes: Attributes, attrs: seq<Entry>): seq<string> {
    if attrs == [] then []
    else
      var n := |attrs| - 1;
      Differing(attributes, attrs[..n]) + if Get(attributes, attrs[n].name) != attrs[n].val then [attrs[n].name] else []
  }

  lemma {:induction false} ChangesDiffer(attributes: Attributes, attrs: seq<Entry>, unset: bool)
    requires Distinct(attrs)
    ensures Changes(attributes, attrs, unset) == Differing(attributes, attrs)
  {
    if attrs != [] {
      var n := |attrs| - 1;
      ChangesDiffer(attributes, attrs[..n], unset);
      AssignedLast(attributes, attrs[..n], unset, attrs[n].name);
      if LastOf(attrs[..n], attrs[n].name).Some? {
        var i := LastOfSome(attrs[..n], attrs[n].name);
      }
    }
  }

  /** Every assignment of the history has recorded the attributes that it changed. */
  ghost predicate Truthful(m: Model, log: seq<Event>) {
    log == []
    || var n := |log| - 1;
       && Truthful(m, log[..n])
       && (log[n].Assigned? && Distinct(log[n].attrs) ==>
             log[n].changes == Differing(Replay(m, log[..n]).attributes, log[n].attrs))
  }

  /** The history only grows, and the attributes, the id and `changed` are what its assignments make of them. */
  ghost predicate Follows(m: Model, r: Model) {
    && m.log <= r.log
    && var log := r.log[|m.log|..];
       Core(r) == Replay(Core(m), log) && Truthful(Core(m), log)
  }

  lemma {:induction false} TruthfulConcat(m: Model, s: seq<Event>, t: seq<Event>)
    requires Truthful(m, s) && Truthful(Replay(m, s), t)
    ensures Truthful(m, s + t)
    decreases |t|
  {
    if t == [] {
      assert s + t == s;
    } else {
      var n := |t| - 1;
      assert (s + t)[..|s + t| - 1] == s + t[..n];
      TruthfulConcat(m, s, t[..n]);
      ReplayConcat(m, s, t[..n]);
    }
  }

  lemma {:induction false} ReplayConcat(m: Model, s: seq<Event>, t: seq<Event>)
    ensures Replay(m, s + t) == Replay(Replay(m, s), t)
    decreases |t|
  {
    if t == [] {
      assert s + t == s;
    } else {
      var n := |t| - 1;
      assert (s + t)[..|s + t| - 1] == s + t[..n];
      ReplayConcat(m, s, t[..n]);
    }
  }

  lemma FollowsTransitive(a: Model, b: Model, c: Model)
    requires Follows(a, b) && Follows(b, c)
    ensures Follows(a, c)
  {
    hide Core, Truthful, Replay;
    assert c.log[|a.log|..] == b.log[|a.log|..] + c.log[|b.log|..];
    ReplayConcat(Core(a), b.log[|a.log|..], c.log[|b.log|..]);
    TruthfulConcat(Core(a), b.log[|a.log|..], c.log[|b.log|..]);
  }

  lemma SameHistory(m: Model, r: Model)
    requires r.log == m.log && Core(r) == Core(m)
    ensures Follows(m, r)
  {
    assert r.log[|m.log|..] == [];
  }

  lemma {:induction false} AssignAllAttributes(m: Model, attrs: seq<Entry>, unset: bool)
    ensures var r := AssignAll(m, attrs, unset);
      r.attributes == AttributesAfter(m.attributes, attrs, unset)
        && r == m.(changed := r.changed, attributes := r.attributes)
    ensures AssignAll(Core(m), attrs, unset) == Core(AssignAll(m, attrs, unset))
  {
    if attrs != [] {
      AssignAllAttributes(m, attrs[..|attrs| - 1], unset);
    }
  }

  lemma ReplayOne(m: Model, e: Event)
    ensures Replay(m, [e]) == if e.Assigned? then AssignAll(WithId(m, e.attrs), e.attrs, e.unset) else m
  {
    assert [e][..0] == [];
    hide AssignAll, WithId;
  }

  lemma WithIdCore(m: Model, attrs: seq<Entry>)
    ensures Core(WithId(m, attrs)) == WithId(Core(m), attrs)
    ensures WithId(m, attrs).log == m.log && WithId(m, attrs).changing == m.changing
  {
  }

  lemma AssignedFollows(m: Model, call: Call)
    ensures Follows(Begun(m), AssignedBy(m, call)) && AssignedBy(m, call).changing
    ensures AssignedBy(m, call).log
         == m.log + [Assigned(call.attrs, call.unset, call.silent, Changes(m.attributes, call.attrs, call.unset))]
  {
    var b, e := Begun(m), Assigned(call.attrs, call.unset, call.silent, Changes(m.attributes, call.attrs, call.unset));
    AssignAllAttributes(WithId(b, call.attrs), call.attrs, call.unset);
    WithIdCore(b, call.attrs);
    ReplayOne(Core(b), e);
    if Distinct(call.attrs) { ChangesDiffer(m.attributes, call.attrs, call.unset); }
    hide AssignAll, WithId, Changes, Differing;
    assert [e][..0] == [];
    assert Truthful(Core(b), [e]);
    hide Truthful, Replay;
    assert AssignedBy(m, call).log[|b.log|..] == [e];
  }

  lemma FiredFollows(m: Model, e: Event)
    requires !e.Assigned?
    ensures Follows(m, Fired(m, e)) && Fired(m, e).changing == m.changing
  {
    assert Fired(m, e).log[|m.log|..] == [e];
    assert [e][..0] == [];
  }

  /** Every set, nested or not, only assigns what its history says, its own attributes first. */
  lemma {:induction false} SetFollows(m: Model, call: Call)
    requires call.valid || m.changing
    ensures Follows(Begun(m), Set(m, call)) && Set(m, call).changing == m.changing
    ensures call.valid ==>
      m.log + [Assigned(call.attrs, call.unset, call.silent, Changes(m.attributes, call.attrs, call.unset))] <= Set(m,
        call).log
    decreases call
  {
    hide AssignedBy, Follows, Replay, Truthful;
    if !call.valid {
      SameHistory(m, m);
    } else {
      var b, changes, a := Begun(m), Changes(m.attributes, call.attrs, call.unset), AssignedBy(m, call);
      AssignedFollows(m, call);
      TellFollows(a, changes, call.reactions, 0);
      var told := if call.silent then a else Tell(a, changes, call.reactions, 0);
      SameHistory(a, a);
      FollowsTransitive(b, a, told);
      SettleFollows(told, call.reactions, |changes|);
      var done := if call.silent || m.changing then told else Settle(told, call.reactions, |changes|);
      SameHistory(told, told);
      FollowsTransitive(b, told, done);
      LogGrows(a, told);
      LogGrows(told, done);
      SameHistory(done, Set(m, call));
      FollowsTransitive(b, done, Set(m, call));
    }
  }

  lemma LogGrows(m: Model, r: Model)
    requires Follows(m, r)
    ensures m.log <= r.log
  {
  }

  lemma {:induction false} TellFollows(m: Model, changes: seq<string>, reactions: seq<Reaction>, k: nat)
    requires k <= |changes| && m.changing
    ensures Follows(m, Tell(m, changes, reactions, k)) && Tell(m, changes, reactions, k).changing
    decreases reactions, 1, |changes| - k
  {
    hide Follows;
    if k == |changes| {
      SameHistory(m, m);
    } else {
      var fired := Fired(m, AttrChange(changes[k]));
      FiredFollows(m, AttrChange(changes[k]));
      ReactFollows(fired, reactions, k);
      FollowsTransitive(m, fired, React(fired, reactions, k));
      TellFollows(React(fired, reactions, k), changes, reactions, k + 1);
      FollowsTransitive(m, React(fired, reactions, k), Tell(m, changes, reactions, k));
    }
  }

  lemma {:induction false} SettleFollows(m: Model, reactions: seq<Reaction>, k: nat)
    requires m.changing
    ensures Follows(m, Settle(m, reactions, k)) && Settle(m, reactions, k).changing
    decreases reactions, 1, if k <= |reactions| then |reactions| - k else 0
  {
    hide Follows;
    if !m.pending {
      SameHistory(m, m);
    } else {
      var quiet := m.(pending := false);
      var fired := Fired(quiet, Change);
      SameHistory(m, quiet);
      FiredFollows(quiet, Change);
      FollowsTransitive(m, quiet, fired);
      ReactFollows(fired, reactions, k);
      FollowsTransitive(m, fired, React(fired, reactions, k));
      if k < |reactions| {
        SettleFollows(React(fired, reactions, k), reactions, k + 1);
        FollowsTransitive(m, React(fired, reactions, k), Settle(m, reactions, k));
      }
    }
  }

  lemma {:induction false} ReactFollows(m: Model, reactions: seq<Reaction>, k: nat)
    requires m.changing
    ensures Follows(m, React(m, reactions, k)) && React(m, reactions, k).changing
    decreases reactions, 0
  {
    hide Follows;
    if k < |reactions| {
      AllFollow(m, reactions[k].calls);
    } else {
      SameHistory(m, m);
    }
  }

  lemma {:induction false} AllFollow(m: Model, calls: seq<Call>)
    requires m.changing
    ensures Follows(m, SetAll(m, calls)) && SetAll(m, calls).changing
    decreases calls
  {
    hide Follows;
    if calls == [] {
      SameHistory(m, m);
    } else {
      SetFollows(m, calls[0]);
      AllFollow(Set(m, calls[0]), calls[1..]);
      FollowsTransitive(m, Set(m, calls[0]), SetAll(m, calls));
    }
  }

  // ---------- exactly when `changed` is the difference ----------

  /** `changed` is right about one attribute. */
  ghost predicate RightAt(m: Model, name: string) {
    && (name in m.changed <==> Get(m.previous, name) != Get(m.attributes, name))
    && (name in m.changed ==> m.changed[name] == Get(m.attributes, name))
  }

  lemma DiffIsRight(m: Model)
    ensures m.changed == Diff(m.previous, m.attributes) <==> forall name :: RightAt(m, name)
  {
    var d := Diff(m.previous, m.attributes);
    assert forall name :: name in d <==> Get(m.previous, name) != Get(m.attributes, name);
    if forall name :: RightAt(m, name) {
      forall name ensures name in m.changed <==> name in d {
        assert RightAt(m, name);
      }
      forall name | name in d ensures m.changed[name] == d[name] {
        assert RightAt(m, name);
      }
      assert m.changed == d;
    }
  }

  lemma {:induction false} AssignAllAt(m: Model, attrs: seq<Entry>, unset: bool, name: string)
    ensures var r := AssignAll(m, attrs, unset);
      RightAt(r, name) <==> match LastOf(attrs, name) case None => RightAt(m, name) case Some(v) => unset ==>
            v == Undefined
  {
    if attrs != [] {
      var n := |attrs| - 1;
      AssignAllAt(m, attrs[..n], unset, name);
    }
  }

  lemma WithIdAt(m: Model, attrs: seq<Entry>, name: string)
    ensures RightAt(WithId(m, attrs), name) <==> RightAt(m, name)
  {
  }

  /** After a history `changed` is right about an attribute unless the last that was done to it was to unset it with
      a value. */
  lemma {:induction false} ReplayAt(m: Model, log: seq<Event>, name: string)
    requires RightAt(m, name)
    ensures RightAt(Replay(m, log), name) <==> !Spoiled(log, name)
  {
    hide RightAt;
    if log != [] {
      var n := |log| - 1;
      ReplayAt(m, log[..n], name);
      match log[n] {
        case Assigned(attrs, unset, _, _) =>
          WithIdAt(Replay(m, log[..n]), attrs, name);
          AssignAllAt(WithId(Replay(m, log[..n]), attrs), attrs, unset, name);
        case _ =>
      }
    }
  }

  lemma BegunRight(m: Model)
    requires !m.changing
    ensures forall name :: RightAt(Core(Begun(m)), name)
    ensures Begun(m).log == m.log && Core(Begun(m)).previous == m.attributes
  {
  }

  /** After an outermost set, and whatever its listeners do, `changed` is the difference between the attributes at its
      start and now if and only if no attribute was last unset with a value. */
  lemma ChangedExactly(m: Model, call: Call)
    requires !m.changing && call.valid
    ensures var r := Set(m, call);
      m.log <= r.log &&
      (r.changed == Diff(m.attributes, r.attributes) <==> forall name :: !Spoiled(r.log[|m.log|..], name))
  {
    var r := Set(m, call);
    SetFollows(m, call);
    BegunRight(m);
    var log := r.log[|m.log|..];
    var start := Core(Begun(m));
    ReplayKeeps(start, log);
    forall name ensures RightAt(Core(r), name) <==> !Spoiled(log, name) {
      ReplayAt(start, log, name);
    }
    hide Set, RightAt, Replay, Begun, Spoiled;
    DiffIsRight(Core(r));
  }

  lemma {:induction false} ReplayKeeps(m: Model, log: seq<Event>)
    ensures Replay(m, log).previous == m.previous && Replay(m, log).idAttribute == m.idAttribute
  {
    if log != [] {
      var n := |log| - 1;
      ReplayKeeps(m, log[..n]);
      if log[n].Assigned? {
        AssignAllAttributes(WithId(Replay(m, log[..n]), log[n].attrs), log[n].attrs, log[n].unset);
      }
    }
  }

  /** The id is the attribute it copies. */
  ghost predicate IdRight(m: Model) {
    m.id == Get(m.attributes, m.idAttribute)
  }

  lemma {:induction false} AssignedLast(attributes: Attributes, attrs: seq<Entry>, unset: bool, name: string)
    ensures Get(AttributesAfter(attributes, attrs, unset), name)
         == match LastOf(attrs, name) case None => Get(attributes, name) case Some(v) => if unset then Undefined else v
  {
    if attrs != [] {
      AssignedLast(attributes, attrs[..|attrs| - 1], unset, name);
    }
  }

  lemma {:induction false} ReplayId(m: Model, log: seq<Event>)
    requires IdRight(m)
    ensures IdRight(Replay(m, log)) <==> !Spoiled(log, m.idAttribute)
  {
    if log != [] {
      var n := |log| - 1;
      var before := Replay(m, log[..n]);
      ReplayId(m, log[..n]);
      ReplayKeeps(m, log[..n]);
      match log[n] {
        case Assigned(attrs, unset, _, _) =>
          AssignAllAttributes(WithId(before, attrs), attrs, unset);
          AssignedLast(before.attributes, attrs, unset, m.idAttribute);
        case _ =>
      }
    }
  }

  /** After an outermost set the id is still the attribute it copies if and only if that attribute was not last unset
      with a value. */
  lemma IdExactly(m: Model, call: Call)
    requires !m.changing && call.valid && IdRight(m)
    ensures var r := Set(m, call);
      m.log <= r.log && r.idAttribute == m.idAttribute && (IdRight(r) <==> !Spoiled(r.log[|m.log|..], m.idAttribute))
  {
    var r := Set(m, call);
    SetFollows(m, call);
    ReplayKeeps(Core(Begun(m)), r.log[|m.log|..]);
    ReplayId(Core(Begun(m)), r.log[|m.log|..]);
    hide Set, Replay, Spoiled;
  }

  // ---------- without listeners ----------

  /** No listener calls `set`. */
  ghost predicate Unheard(reactions: seq<Reaction>) {
    forall k {:trigger reactions[k]} :: 0 <= k < |reactions| ==> reactions[k].calls == []
  }

  lemma ReactUnheard(m: Model, reactions: seq<Reaction>, k: nat)
    requires Unheard(reactions)
    ensures React(m, reactions, k) == m
  {
    if k < |reactions| {
      assert reactions[k].calls == [];
    }
  }

  lemma {:induction false} TellUnheard(m: Model, changes: seq<string>, reactions: seq<Reaction>, k: nat)
    requires Unheard(reactions) && k <= |changes|
    ensures Core(Tell(m, changes, reactions, k)) == Core(m)
    decreases |changes| - k
  {
    if k < |changes| {
      ReactUnheard(Fired(m, AttrChange(changes[k])), reactions, k);
      TellUnheard(Fired(m, AttrChange(changes[k])), changes, reactions, k + 1);
    }
  }

  lemma {:induction false} SettleUnheard(m: Model, reactions: seq<Reaction>, k: nat)
    requires Unheard(reactions)
    ensures Core(Settle(m, reactions, k)) == Core(m)
    decreases if k <= |reactions| then |reactions| - k else 0
  {
    if m.pending {
      var fired := Fired(m.(pending := false), Change);
      ReactUnheard(fired, reactions, k);
      if k < |reactions| {
        SettleUnheard(fired, reactions, k + 1);
      }
    }
  }

  lemma {:induction false} LastOfDistinct(attrs: seq<Entry>, i: nat)
    requires Distinct(attrs) && i < |attrs|
    ensures LastOf(attrs, attrs[i].name) == Some(attrs[i].val)
  {
    if i < |attrs| - 1 {
      LastOfDistinct(attrs[..|attrs| - 1], i);
    }
  }

  lemma {:induction false} LastOfSome(attrs: seq<Entry>, name: string) returns (i: nat)
    requires LastOf(attrs, name).Some?
    ensures i < |attrs| && attrs[i].name == name && LastOf(attrs, name) == Some(attrs[i].val)
  {
    i := |attrs| - 1;
    if attrs[i].name != name {
      i := LastOfSome(attrs[..i], name);
    }
  }

  lemma SetUnheard(m: Model, call: Call)
    requires !m.changing && call.valid && (call.silent || Unheard(call.reactions))
    ensures Core(Set(m, call)) == Core(AssignedBy(m, call))
  {
    var a, changes := AssignedBy(m, call), Changes(m.attributes, call.attrs, call.unset);
    hide AssignedBy, Changes, Tell, Settle;
    if !call.silent {
      TellUnheard(a, changes, call.reactions, 0);
      SettleUnheard(Tell(a, changes, call.reactions, 0), call.reactions, |changes|);
    }
  }

  /** What one call assigns leaves `changed` right about an attribute unless it unsets it with a value. */
  lemma AssignedAt(m: Model, call: Call, name: string)
    requires !m.changing
    ensures RightAt(AssignedBy(m, call), name) <==>
              match LastOf(call.attrs, name) case None => true case Some(v) => call.unset ==> v == Undefined
    ensures AssignedBy(m, call).previous == m.attributes
  {
    var b := WithId(Begun(m), call.attrs);
    AssignAllAttributes(b, call.attrs, call.unset);
    AssignAllAt(b, call.attrs, call.unset, name);
    BegunRight(m);
    hide AssignAll, Changes, LastOf;
    assert RightAt(Core(Begun(m)), name);
  }

  /** `changed` is right about everything that was set unless something was unset with a value. */
  lemma AllRight(r: Model, call: Call)
    requires Distinct(call.attrs)
    requires forall name :: RightAt(r, name) <==>
               match LastOf(call.attrs, name) case None => true case Some(v) => call.unset ==> v == Undefined
    ensures (forall name :: RightAt(r, name)) <==>
              (call.unset ==> forall i {:trigger call.attrs[i]} :: 0 <= i < |call.attrs| ==>
                    call.attrs[i].val == Undefined)
  {
    hide RightAt, LastOf;
    forall i | 0 <= i < |call.attrs|
      ensures RightAt(r, call.attrs[i].name) <==> (call.unset ==> call.attrs[i].val == Undefined)
    {
      LastOfDistinct(call.attrs, i);
    }
    if call.unset && exists name :: !RightAt(r, name) {
      var name :| !RightAt(r, name);
      var i := LastOfSome(call.attrs, name);
    }
  }

  /** Without listeners that call `set`, `changed` is the difference after a call of `set` if and only if the call does
      not unset an attribute with a value. */
  lemma CallExactly(m: Model, call: Call)
    requires !m.changing && call.valid && Distinct(call.attrs) && (call.silent || Unheard(call.reactions))
    ensures var r := Set(m, call);
      r.changed == Diff(m.attributes, r.attributes) <==>
        (call.unset ==> forall i {:trigger call.attrs[i]} :: 0 <= i < |call.attrs| ==> call.attrs[i].val == Undefined)
  {
    var a := AssignedBy(m, call);
    SetUnheard(m, call);
    forall name
      ensures RightAt(a, name) <==>
                match LastOf(call.attrs, name) case None => true case Some(v) => call.unset ==> v == Undefined
    {
      AssignedAt(m, call, name);
    }
    AssignedAt(m, call, m.idAttribute);
    AllRight(a, call);
    hide Set, AssignedBy, RightAt, LastOf;
    DiffIsRight(a);
  }

  /** Without listeners that call `set`, the id is the attribute it copies after a call of `set` if and only if the call
      does not unset that attribute with a value. */
  lemma IdCallExactly(m: Model, call: Call)
    requires !m.changing && call.valid && IdRight(m) && (call.silent || Unheard(call.reactions))
    ensures IdRight(Set(m, call)) <==>
              match LastOf(call.attrs, m.idAttribute) case None => true case Some(v) => call.unset ==> v == Undefined
  {
    var b := WithId(Begun(m), call.attrs);
    SetUnheard(m, call);
    AssignAllAttributes(b, call.attrs, call.unset);
    AssignedLast(b.attributes, call.attrs, call.unset, m.idAttribute);
    hide AssignAll, AttributesAfter, Changes, Set;
    assert IdRight(Set(m, call)) <==> IdRight(AssignedBy(m, call));
  }
}
