/** How the state develops over a cascade of "defined" events and over an `enable`, and what that
    leaves as it was. */
module LoaderCascade {
  import opened LoaderState

  /** What a cascade of "defined" events may change, forced slots included.  Every module it defines has
      announced itself when it is over. */
  ghost predicate Cascade(c: Ctx, c': Ctx) {
    && c' == c.(fetched := c'.fetched, defined := c'.defined, emitComplete := c'.emitComplete,
                depCount := c'.depCount, depMatched := c'.depMatched, depExports := c'.depExports,
                exports := c'.exports, registry := c'.registry, enabledRegistry := c'.enabledRegistry,
                exported := c'.exported, order := c'.order, forced := c'.forced)
    && c.depMatched <= c'.depMatched && c.defined <= c'.defined && c.fetched <= c'.fetched
    && c.forced <= c'.forced && c.order <= c'.order
    && InProgress(c') == InProgress(c)
    && ExportsKept(c, c')
  }

  /** Modules whose "defined" event is under way. */
  ghost function InProgress(c: Ctx): set<Id> {
    c.defined - c.emitComplete
  }

  ghost predicate ExportsKept(c: Ctx, c': Ctx) {
    forall m {:trigger c'.exports[m]} {:trigger m in c'.exports} :: m in c.defined && m in c.exports ==>
          m in c'.exports && c'.exports[m] == c.exports[m]
  }

  lemma CascadeTransitive(a: Ctx, b: Ctx, c: Ctx)
    requires Cascade(a, b) && Cascade(b, c)
    ensures Cascade(a, c)
  {
    assert forall m :: m in a.defined && m in a.exports ==> b.exports[m] == a.exports[m];
  }

  lemma FilledCascades(c: Ctx, s: Slot, v: Value, byForce: bool)
    requires s.parent in c.depCount
    ensures Cascade(c, Filled(c, s, v, byForce))
  {
  }

  lemma FetchedCascades(c: Ctx, id: Id)
    ensures Cascade(c, Fetched(c, id))
  {
  }

  /** Defining a module, the cascade that its event causes, and the end of the event. */
  lemma AnnouncedCascades(c: Ctx, id: Id, d: Ctx)
    requires TablesOk(c) && id in c.deps && id !in c.defined
    requires Cascade(Ran(c, id), d)
    ensures Cascade(c, Announced(d, id))
  {
    var r := Ran(c, id);
    assert c.order <= r.order;
    assert InProgress(r) == InProgress(c) + {id};
    assert InProgress(Announced(d, id)) == InProgress(d) - {id};
    assert forall m :: m in c.defined && m in c.exports ==> m in r.exports && r.exports[m] == c.exports[m];
  }

  lemma CascadeShrinks(c: Ctx, c': Ctx)
    requires Cascade(c, c') && TablesOk(c) && TablesOk(c')
    ensures c'.registry <= c.registry && |c'.registry| <= |c.registry|
  {
    SubsetSize(c'.registry, c.registry);
  }

  lemma SubsetSize<T>(a: set<T>, b: set<T>)
    requires a <= b
    ensures |a| <= |b|
    ensures a < b ==> |a| < |b|
  {
    assert b == a + (b - a);
    if a < b {
      var x :| x in b - a;
      assert x in b - a;
    }
  }

  lemma CascadeLinks(c: Ctx, c': Ctx, x: set<Id>)
    requires Cascade(c, c') && LinksEnabled(c, x)
    ensures LinksEnabled(c', x)
  {
    assert forall p, i, e :: Wired(c', p, i, e) <==> Wired(c, p, i, e);
  }

  lemma CascadeForced(c: Ctx, c': Ctx, stack: set<Id>)
    requires Cascade(c, c') && ForcedUpTo(c, stack) && c'.forced == c.forced
    ensures ForcedUpTo(c', stack)
  {
  }

  lemma FilledSettled(c: Ctx, s: Slot, v: Value, byForce: bool)
    requires TablesOk(c) && SettledExcept(c, {}) && s.parent in c.deps
    ensures TablesOk(Filled(c, s, v, byForce)) && SettledExcept(Filled(c, s, v, byForce), {s.parent})
  {
    FilledTablesOnly(c, s, v, byForce);
    var c' := Filled(c, s, v, byForce);
    forall m | m in c'.deps && m != s.parent ensures Settled(c', m) {
      assert Settled(c, m);
    }
  }

  lemma FilledTablesOnly(c: Ctx, s: Slot, v: Value, byForce: bool)
    requires TablesOk(c) && s.parent in c.deps
    ensures TablesOk(Filled(c, s, v, byForce))
  {
  }

  lemma RanSettled(c: Ctx, id: Id)
    requires TablesOk(c) && SettledExcept(c, {id}) && id in c.deps && TablesOk(Ran(c, id))
    requires c.mapped[id] == |c.deps[id]| && id in c.inited
    ensures SettledExcept(Ran(c, id), {})
  {
    var c' := Ran(c, id);
    forall m | m in c'.deps ensures Settled(c', m) {
      if m != id { assert Settled(c, m); }
    }
  }

  lemma AnnouncedSettled(c: Ctx, id: Id, x: set<Id>)
    requires TablesOk(c) && SettledExcept(c, x) && TablesOk(Announced(c, id))
    ensures SettledExcept(Announced(c, id), x)
  {
    var c' := Announced(c, id);
    forall m | m in c'.deps && m !in x ensures Settled(c', m) {
      assert Settled(c, m);
    }
  }

  lemma FetchedSettled(c: Ctx, id: Id)
    requires TablesOk(c) && SettledExcept(c, {id}) && TablesOk(Fetched(c, id)) && id in c.deps && id !in c.inited
    requires c.mapped[id] == |c.deps[id]|
    ensures SettledExcept(Fetched(c, id), {})
  {
    var c' := Fetched(c, id);
    forall m | m in c'.deps ensures Settled(c', m) {
      if m != id { assert Settled(c, m); }
    }
  }

  // ---------- enable ----------

  /** Enabling `x` declares nothing, and only wires `x` and modules that were not enabled before. */
  ghost predicate DeclsKept(c: Ctx, c': Ctx, x: Id) {
    && (forall m {:trigger c'.deps[m]} {:trigger m in c'.deps} :: m in c'.deps && m !in c.deps ==>
            c'.deps[m] == [] && m.Named?)
    && (forall m {:trigger c'.deps[m]} {:trigger m in c'.deps} :: m in c.deps ==>
            m in c'.deps && c'.deps[m] == c.deps[m])
    && (forall m {:trigger c'.mapped[m]} {:trigger m in c'.mapped} :: m in c.enabled && m != x && m in c.mapped ==>
            m in c'.mapped && c'.mapped[m] == c.mapped[m])
  }

  ghost predicate FactoriesKept(c: Ctx, c': Ctx) {
    forall m {:trigger c'.factory[m]} {:trigger m in c'.factory} :: m in c.factory ==>
          m in c'.factory && c'.factory[m] == c.factory[m]
  }

  /** What enabling `x` may change: it also forces nothing and leaves no event open. */
  ghost predicate Grown(c: Ctx, c': Ctx, x: Id) {
    && DeclsKept(c, c', x) && FactoriesKept(c, c') && ExportsKept(c, c')
    && c'.inited == c.inited && c'.enabling == c.enabling && c'.forced == c.forced
    && c.enabled <= c'.enabled && c.defined <= c'.defined && c.depMatched <= c'.depMatched
    && c.order <= c'.order
    && InProgress(c') == InProgress(c)
  }

  lemma DeclsTransitive(a: Ctx, b: Ctx, c: Ctx, x: Id)
    requires DeclsKept(a, b, x) && DeclsKept(b, c, x) && a.enabled <= b.enabled
    ensures DeclsKept(a, c, x)
  {
    forall m | m in c.deps && m !in a.deps ensures c.deps[m] == [] && m.Named? {
      if m in b.deps { assert b.deps[m] == []; }
    }
    forall m | m in a.deps ensures m in c.deps && c.deps[m] == a.deps[m] {
      assert b.deps[m] == a.deps[m];
    }
    assert forall m :: m in a.enabled && m != x && m in a.mapped ==> m in b.mapped && b.mapped[m] == a.mapped[m];
  }

  lemma ValuesTransitive(a: Ctx, b: Ctx, c: Ctx)
    requires FactoriesKept(a, b) && FactoriesKept(b, c)
    requires ExportsKept(a, b) && ExportsKept(b, c) && a.defined <= b.defined
    ensures FactoriesKept(a, c) && ExportsKept(a, c)
  {
    assert forall m :: m in a.factory ==> m in b.factory && b.factory[m] == a.factory[m];
    assert forall m :: m in a.defined && m in a.exports ==> m in b.exports && b.exports[m] == a.exports[m];
  }

  lemma GrownTransitive(a: Ctx, b: Ctx, c: Ctx, x: Id)
    requires Grown(a, b, x) && Grown(b, c, x)
    ensures Grown(a, c, x)
  {
    DeclsTransitive(a, b, c, x);
    ValuesTransitive(a, b, c);
    hide DeclsKept, FactoriesKept, ExportsKept;
  }

  lemma CascadeGrows(c: Ctx, c': Ctx, x: Id)
    requires Cascade(c, c') && c'.forced == c.forced
    ensures Grown(c, c', x)
  {
  }

  // ---------- facts the loader's methods use ----------

  lemma CascadeRefl(c: Ctx)
    ensures Cascade(c, c)
  {
  }

  lemma SettledAll(c: Ctx, id: Id)
    requires TablesOk(c) && SettledExcept(c, {id})
    requires id in c.deps ==> Settled(c, id)
    ensures SettledExcept(c, {})
  {
  }

  lemma RanShrinks(c: Ctx, id: Id)
    requires TablesOk(c) && id in c.registry && id in c.deps
    ensures |Ran(c, id).registry| < |c.registry|
  {
    SubsetSize(Ran(c, id).registry, c.registry);
  }

  lemma RowOf(c: Ctx, id: Id)
    requires TablesOk(c) && id in c.deps
    ensures id in c.listeners && id in c.exports && id in c.depCount && id in c.mapped && id in c.factory
  {
  }

  /** A listener of a named module waits on a slot that names it. */
  lemma ListenerWired(c: Ctx, slot: Slot, id: Id)
    requires TablesOk(c) && ListenersOk(c) && id in c.deps && slot in c.listeners[id]
    ensures id.Named? && Wired(c, slot.parent, slot.index, id.name)
    ensures slot.parent in c.deps && slot.parent in c.depCount
  {
  }

  lemma SettledWeaker(c: Ctx, id: Id)
    requires TablesOk(c) && SettledExcept(c, {})
    ensures SettledExcept(c, {id})
  {
  }

  lemma ReadyToCheck(c: Ctx, c': Ctx, id: Id)
    requires TablesOk(c) && SettledExcept(c, {}) && id in c.deps && Cascade(c, c')
    ensures id in c'.mapped && id in c'.deps
    ensures id in c'.enabled && id !in c'.enabling ==> c'.mapped[id] == |c'.deps[id]|
  {
    assert Settled(c, id);
  }
}
