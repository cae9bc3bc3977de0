/** Each single update of the loader keeps the invariant. */
module LoaderSteps {
  import opened LoaderState

  // ---------- paths ----------

  /** Declarations are never withdrawn. */
  ghost predicate Declares(deps: map<Id, seq<Dep>>, deps': map<Id, seq<Dep>>) {
    forall m :: m in deps ==> m in deps' && (deps[m] == [] || deps'[m] == deps[m])
  }

  lemma ReachesMono(deps: map<Id, seq<Dep>>, deps': map<Id, seq<Dep>>, a: Id, b: Id)
    requires Declares(deps, deps') && Reaches(deps, a, b)
    ensures Reaches(deps', a, b)
  {
    var p :| Path(deps, p) && p[0] == a && p[|p| - 1] == b;
    forall k | 0 <= k < |p| - 1 ensures Edge(deps', p[k], p[k + 1]) {
      assert Edge(deps, p[k], p[k + 1]);
    }
    assert Path(deps', p);
  }

  lemma ReachesRefl(deps: map<Id, seq<Dep>>, a: Id)
    ensures Reaches(deps, a, a)
  {
    assert Path(deps, [a]);
  }

  lemma ReachesStep(deps: map<Id, seq<Dep>>, a: Id, b: Id, d: Id)
    requires Reaches(deps, a, b) && Edge(deps, b, d)
    ensures Reaches(deps, a, d)
  {
    var p :| Path(deps, p) && p[0] == a && p[|p| - 1] == b;
    var q := p + [d];
    forall k | 0 <= k < |q| - 1 ensures Edge(deps, q[k], q[k + 1]) {
      if k < |p| - 1 { assert Edge(deps, p[k], p[k + 1]); }
    }
    assert Path(deps, q) && q[0] == a && q[|q| - 1] == d;
  }

  lemma GraphMono(c: Ctx, c': Ctx)
    requires Declares(c.deps, c'.deps) && c.enabled <= c'.enabled
    ensures forall s :: s in c.forced && OnCycle(c.deps, s) ==> OnCycle(c'.deps, s)
    ensures forall m :: Rooted(c, m) ==> Rooted(c', m)
  {
    forall s | s in c.forced && OnCycle(c.deps, s) ensures OnCycle(c'.deps, s) {
      ReachesMono(c.deps, c'.deps, Named(c.deps[s.parent][s.index].name), s.parent);
    }
    forall m | Rooted(c, m) ensures Rooted(c', m) {
      var r :| r in c.enabled && r.Internal? && Reaches(c.deps, r, m);
      ReachesMono(c.deps, c'.deps, r, m);
    }
  }

  lemma GraphSame(c: Ctx, c': Ctx)
    requires ForcedOk(c) && RootsOk(c) && c'.deps == c.deps && c'.enabled == c.enabled && c'.forced == c.forced
    ensures ForcedOk(c') && RootsOk(c')
  {
    GraphMono(c, c');
  }

  /** Nothing that a forced slot depends on has changed. */
  lemma HandedSame(c: Ctx, c': Ctx)
    requires HandedOk(c) && c'.deps == c.deps && c'.inited == c.inited && c'.forced == c.forced
    requires c'.depMatched == c.depMatched && c'.depExports == c.depExports
    ensures HandedOk(c')
  {
    forall t | t in c'.forced ensures Handed(c', t) {
      assert Handed(c, t);
    }
  }

  // ---------- filling a slot ----------

  lemma FilledTables(c: Ctx, s: Slot, v: Value, byForce: bool)
    requires TablesOk(c) && DepsOk(c) && s.parent in c.deps
    ensures TablesOk(Filled(c, s, v, byForce)) && DepsOk(Filled(c, s, v, byForce))
  {
  }

  lemma FilledPending(c: Ctx, s: Slot, v: Value, byForce: bool, m: Id)
    requires m in c.deps && m in c.mapped && c.mapped[m] <= |c.deps[m]| && s.parent in c.depCount
    ensures Pending(Filled(c, s, v, byForce), m) == if m == s.parent then Pending(c, m) - {s.index} else Pending(c, m)
  {
  }

  lemma FilledCount(c: Ctx, s: Slot, d: string, v: Value, byForce: bool, m: Id)
    requires TablesOk(c) && DepsOk(c) && CountsOk(c) && Wired(c, s.parent, s.index, d) && s !in c.depMatched
    requires m in c.deps
    requires TablesOk(Filled(c, s, v, byForce)) && DepsOk(Filled(c, s, v, byForce))
    ensures var c' := Filled(c, s, v, byForce);
      c'.depCount[m] == |Pending(c', m)| && (m in c'.defined ==> Pending(c', m) == {})
  {
    assert s.index in Pending(c, s.parent);
    hide Pending;
    FilledPending(c, s, v, byForce, m);
  }

  lemma FilledCounts(c: Ctx, s: Slot, d: string, v: Value, byForce: bool)
    requires TablesOk(c) && DepsOk(c) && CountsOk(c) && Wired(c, s.parent, s.index, d) && s !in c.depMatched
    ensures s.parent !in c.defined
    ensures var c' := Filled(c, s, v, byForce); TablesOk(c') && DepsOk(c') ==> CountsOk(c')
  {
    var c' := Filled(c, s, v, byForce);
    assert s.index in Pending(c, s.parent);
    assert c'.deps == c.deps;
    hide TablesOk, DepsOk, Pending;
    if TablesOk(c') && DepsOk(c') {
      forall m | m in c.deps { FilledCount(c, s, d, v, byForce, m); }
    }
  }

  lemma FilledLinks(c: Ctx, s: Slot, d: string, v: Value, byForce: bool)
    requires TablesOk(c) && LinksOk(c) && ListenersOk(c) && MatchedOk(c) && Wired(c, s.parent, s.index, d)
    requires !byForce ==> Named(d) in c.defined && v == c.exports[Named(d)]
    ensures var c' := Filled(c, s, v, byForce);
            TablesOk(c') ==> LinksOk(c') && ListenersOk(c') && MatchedOk(c')
  {
    var c' := Filled(c, s, v, byForce);
    assert forall p, i, e :: Wired(c', p, i, e) <==> Wired(c, p, i, e);
  }

  lemma HasCount(c: Ctx, m: Id)
    requires TablesOk(c) && m in c.deps
    ensures m in c.depCount && m in c.mapped && m in c.exports
  {
  }

  lemma FilledExports(c: Ctx, s: Slot, d: string, v: Value, byForce: bool)
    requires TablesOk(c) && DepsOk(c) && ExportsOk(c) && s.parent in c.deps && s.parent !in c.defined
    ensures var c' := Filled(c, s, v, byForce); TablesOk(c') && DepsOk(c') ==> ExportsOk(c')
  {
    hide TablesOk, DepsOk, Args, Outcome;
    HasCount(c, s.parent);
    forall m | m in c.deps && m != s.parent ensures Args(Filled(c, s, v, byForce), m) == Args(c, m) {
      FilledArgs(c, s, v, byForce, m);
    }
  }

  lemma FilledArgs(c: Ctx, s: Slot, v: Value, byForce: bool, m: Id)
    requires m in c.deps && m != s.parent && s.parent in c.depCount
    ensures Args(Filled(c, s, v, byForce), m) == Args(c, m)
  {
  }

  lemma FilledHandlers(c: Ctx, s: Slot, d: string, v: Value, byForce: bool)
    requires TablesOk(c) && DepsOk(c) && HandlersOk(c) && UsesOk(c) && Wired(c, s.parent, s.index, d)
    ensures var c' := Filled(c, s, v, byForce); TablesOk(c') && DepsOk(c') ==> HandlersOk(c') && UsesOk(c')
  {
  }

  lemma FilledOrder(c: Ctx, s: Slot, v: Value, byForce: bool)
    requires OrderOk(c) && s.parent in c.depCount
    ensures OrderOk(Filled(c, s, v, byForce))
  {
    var c' := Filled(c, s, v, byForce);
    assert forall p, i, e :: Wired(c', p, i, e) <==> Wired(c, p, i, e);
  }

  lemma FilledExported(c: Ctx, s: Slot, v: Value, byForce: bool)
    requires TablesOk(c) && ExportedOk(c) && s.parent in c.depCount
    ensures TablesOk(Filled(c, s, v, byForce)) ==> ExportedOk(Filled(c, s, v, byForce))
  {
  }

  lemma FilledGraph(c: Ctx, s: Slot, d: string, v: Value, byForce: bool)
    requires ForcedOk(c) && RootsOk(c) && Wired(c, s.parent, s.index, d) && s.parent in c.depCount
    requires byForce ==> Reaches(c.deps, Named(d), s.parent)
    ensures ForcedOk(Filled(c, s, v, byForce)) && RootsOk(Filled(c, s, v, byForce))
  {
    GraphMono(c, Filled(c, s, v, byForce));
  }

  lemma FilledHanded(c: Ctx, s: Slot, d: string, v: Value, byForce: bool)
    requires HandedOk(c) && Wired(c, s.parent, s.index, d) && s !in c.depMatched && s.parent in c.depCount
    requires byForce ==> Named(d) in c.inited && Named(d) in c.deps && v == SoFar(Named(d), c.deps[Named(d)])
    ensures HandedOk(Filled(c, s, v, byForce))
  {
    var c' := Filled(c, s, v, byForce);
    forall t | t in c'.forced ensures Handed(c', t) {
      if t in c.forced { assert Handed(c, t); }
    }
  }

  lemma FilledKeepsInv(c: Ctx, s: Slot, d: string, v: Value, byForce: bool)
    requires Inv(c) && Wired(c, s.parent, s.index, d) && s !in c.depMatched
    requires !byForce ==> Named(d) in c.defined && v == c.exports[Named(d)]
    requires byForce ==> Reaches(c.deps, Named(d), s.parent)
    requires byForce ==> Named(d) in c.inited && Named(d) in c.deps && v == SoFar(Named(d), c.deps[Named(d)])
    ensures Inv(Filled(c, s, v, byForce))
  {
    hide DepsOk, MatchedOk, CountsOk, LinksOk, ListenersOk, HandlersOk, UsesOk, ExportsOk, ExportedOk, OrderOk,
         ForcedOk, HandedOk, RootsOk;
    FilledTables(c, s, v, byForce);
    hide TablesOk, Wired, Filled;
    FilledCounts(c, s, d, v, byForce);
    FilledLinks(c, s, d, v, byForce);
    FilledExports(c, s, d, v, byForce);
    FilledHandlers(c, s, d, v, byForce);
    FilledExported(c, s, v, byForce);
    FilledOrder(c, s, v, byForce);
    FilledGraph(c, s, d, v, byForce);
    FilledHanded(c, s, d, v, byForce);
  }

  // ---------- running the factory ----------

  lemma RanTables(c: Ctx, id: Id)
    requires TablesOk(c) && DepsOk(c) && id in c.enabled && id in c.inited && id !in c.enabling
    requires c.mapped[id] == |c.deps[id]|
    ensures TablesOk(Ran(c, id)) && DepsOk(Ran(c, id))
  {
  }

  lemma RanCounts(c: Ctx, id: Id)
    requires TablesOk(c) && DepsOk(c) && CountsOk(c) && id in c.deps && c.depCount[id] < 1
    requires TablesOk(Ran(c, id)) && DepsOk(Ran(c, id))
    ensures Pending(c, id) == {} && CountsOk(Ran(c, id))
  {
    var c' := Ran(c, id);
    forall m | m in c.deps ensures Pending(c', m) == Pending(c, m) {}
  }

  lemma RanLinks(c: Ctx, id: Id)
    requires TablesOk(c) && LinksOk(c) && ListenersOk(c) && MatchedOk(c) && id in c.deps && id !in c.defined
    requires TablesOk(Ran(c, id))
    ensures LinksOk(Ran(c, id)) && ListenersOk(Ran(c, id)) && MatchedOk(Ran(c, id))
  {
    var c' := Ran(c, id);
    assert forall p, i, e :: Wired(c', p, i, e) <==> Wired(c, p, i, e);
  }

  lemma RanExports(c: Ctx, id: Id)
    requires TablesOk(c) && DepsOk(c) && ExportsOk(c) && HandlersOk(c) && id in c.deps
    requires TablesOk(Ran(c, id)) && DepsOk(Ran(c, id))
    ensures ExportsOk(Ran(c, id)) && HandlersOk(Ran(c, id))
  {
    var c' := Ran(c, id);
    forall m | m in c.deps ensures Args(c', m) == Args(c, m) {}
  }

  lemma RanExported(c: Ctx, id: Id)
    requires TablesOk(c) && DepsOk(c) && ExportedOk(c) && UsesOk(c) && id in c.deps
    requires TablesOk(Ran(c, id)) && DepsOk(Ran(c, id))
    ensures ExportedOk(Ran(c, id)) && UsesOk(Ran(c, id))
  {
    hide TablesOk, DepsOk, UsesOk, ExportedOk;
    RanExportedOk(c, id);
    RanUses(c, id);
  }

  lemma RanExportedOk(c: Ctx, id: Id)
    requires TablesOk(c) && ExportedOk(c) && id in c.deps && TablesOk(Ran(c, id))
    ensures ExportedOk(Ran(c, id))
  {
    hide Args, Outcome;
  }

  lemma RanUses(c: Ctx, id: Id)
    requires TablesOk(c) && DepsOk(c) && UsesOk(c) && id in c.deps
    requires TablesOk(Ran(c, id)) && DepsOk(Ran(c, id))
    ensures UsesOk(Ran(c, id))
  {
    hide TablesOk, DepsOk, Args, Outcome;
  }

  lemma RanOrder(c: Ctx, id: Id)
    requires TablesOk(c) && DepsOk(c) && OrderOk(c) && LinksOk(c) && id in c.deps && id !in c.defined
    requires Pending(c, id) == {}
    ensures OrderOk(Ran(c, id))
  {
    var c' := Ran(c, id);
    forall k, i, d | 0 <= k < |c'.order| && Wired(c', c'.order[k], i, d) && Slot(c'.order[k], i) !in c'.forced
      ensures Named(d) in c'.order[..k]
    {
      assert Wired(c, c'.order[k], i, d);
      if k == |c.order| {
        assert i !in Pending(c, id);
        assert c'.order[..k] == c.order;
      } else {
        assert c'.order[..k] == c.order[..k];
      }
    }
  }

  lemma RanGraph(c: Ctx, id: Id)
    requires ForcedOk(c) && RootsOk(c) && id in c.deps && id in c.factory
    ensures ForcedOk(Ran(c, id)) && RootsOk(Ran(c, id))
  {
    hide ForcedOk, HandedOk, RootsOk;
    GraphSame(c, Ran(c, id));
  }

  lemma RanHanded(c: Ctx, id: Id)
    requires HandedOk(c) && id in c.deps && id in c.factory
    ensures HandedOk(Ran(c, id))
  {
    hide HandedOk, Args, Outcome;
    HandedSame(c, Ran(c, id));
  }

  lemma RanKeepsInv(c: Ctx, id: Id)
    requires Inv(c) && id in c.enabled && id in c.inited && id !in c.enabling && id !in c.defined
    requires c.mapped[id] == |c.deps[id]| && c.depCount[id] < 1
    ensures Inv(Ran(c, id))
  {
    hide DepsOk, MatchedOk, CountsOk, LinksOk, ListenersOk, HandlersOk, UsesOk, ExportsOk, ExportedOk, OrderOk,
         ForcedOk, HandedOk, RootsOk;
    RanTables(c, id);
    hide TablesOk, Ran;
    RanCounts(c, id);
    RanLinks(c, id);
    RanExports(c, id);
    RanExported(c, id);
    RanOrder(c, id);
    RanGraph(c, id);
    RanHanded(c, id);
  }

  // ---------- flags ----------

  /** `c'` differs from `c` in flags that no slot, count or value depends on. */
  ghost predicate OnlyFlags(c: Ctx, c': Ctx) {
    c' == c.(enabled := c'.enabled, enabling := c'.enabling, fetched := c'.fetched,
             emitComplete := c'.emitComplete, enabledRegistry := c'.enabledRegistry)
  }

  lemma FlagsCounts(c: Ctx, c': Ctx)
    requires OnlyFlags(c, c') && c.enabled <= c'.enabled && TablesOk(c) && DepsOk(c) && CountsOk(c) && TablesOk(c')
    ensures DepsOk(c') && CountsOk(c')
  {
    forall m | m in c.deps ensures Pending(c', m) == Pending(c, m) {}
  }

  lemma FlagsWiring(c: Ctx, c': Ctx)
    requires OnlyFlags(c, c') && MatchedOk(c) && OrderOk(c) && ForcedOk(c)
    ensures MatchedOk(c') && OrderOk(c') && ForcedOk(c')
  {
    assert forall p, i, e :: Wired(c', p, i, e) <==> Wired(c, p, i, e);
  }

  lemma FlagsExports(c: Ctx, c': Ctx)
    requires OnlyFlags(c, c') && TablesOk(c) && DepsOk(c) && TablesOk(c') && DepsOk(c')
    requires HandlersOk(c) && UsesOk(c) && ExportsOk(c)
    ensures HandlersOk(c') && UsesOk(c') && ExportsOk(c')
  {
    forall m | m in c.deps ensures Args(c', m) == Args(c, m) {}
  }

  lemma FlagsTables(c: Ctx, c': Ctx)
    requires OnlyFlags(c, c') && TablesOk(c) && TablesOk(c') && ListenersOk(c) && ExportedOk(c)
    ensures ListenersOk(c') && ExportedOk(c')
  {
    assert forall p, i, e :: Wired(c', p, i, e) <==> Wired(c, p, i, e);
  }

  lemma FlagsLinks(c: Ctx, c': Ctx)
    requires OnlyFlags(c, c') && TablesOk(c) && TablesOk(c') && LinksOk(c) && c'.emitComplete == c.emitComplete
    ensures LinksOk(c')
  {
    assert forall p, i, e :: Wired(c', p, i, e) <==> Wired(c, p, i, e);
  }

  lemma FlagsKeepInv(c: Ctx, c': Ctx)
    requires OnlyFlags(c, c') && Inv(c) && c.enabled <= c'.enabled && TablesOk(c') && LinksOk(c') && RootsOk(c')
    ensures Inv(c')
  {
    hide TablesOk, DepsOk, MatchedOk, CountsOk, LinksOk, ListenersOk, HandlersOk, UsesOk, ExportsOk, ExportedOk,
         OrderOk, ForcedOk, HandedOk, RootsOk;
    FlagsCounts(c, c');
    FlagsWiring(c, c');
    FlagsExports(c, c');
    FlagsTables(c, c');
    HandedSame(c, c');
  }

  lemma RootsKept(c: Ctx, c': Ctx)
    requires OnlyFlags(c, c') && RootsOk(c) && c'.enabled == c.enabled
    ensures RootsOk(c')
  {
    GraphMono(c, c');
  }

  lemma AnnouncedLinks(c: Ctx, id: Id)
    requires TablesOk(c) && LinksOk(c) && TablesOk(Announced(c, id)) && id in c.defined
    requires forall s :: s in c.listeners[id] ==> s in c.depMatched
    ensures LinksOk(Announced(c, id))
  {
    var c' := Announced(c, id);
    assert forall p, i, e :: Wired(c', p, i, e) <==> Wired(c, p, i, e);
  }

  lemma AnnouncedKeepsInv(c: Ctx, id: Id)
    requires Inv(c) && id in c.defined
    requires forall s :: s in c.listeners[id] ==> s in c.depMatched
    ensures Inv(Announced(c, id))
  {
    hide DepsOk, MatchedOk, CountsOk, LinksOk, ListenersOk, HandlersOk, UsesOk, ExportsOk, ExportedOk, OrderOk,
         ForcedOk, HandedOk, RootsOk;
    AnnouncedLinks(c, id);
    RootsKept(c, Announced(c, id));
    FlagsKeepInv(c, Announced(c, id));
  }

  lemma FetchedKeepsInv(c: Ctx, id: Id)
    requires Inv(c) && id in c.deps
    ensures Inv(Fetched(c, id))
  {
    hide DepsOk, MatchedOk, CountsOk, LinksOk, ListenersOk, HandlersOk, UsesOk, ExportsOk, ExportedOk, OrderOk,
         ForcedOk, HandedOk, RootsOk;
    FlagsLinks(c, Fetched(c, id));
    RootsKept(c, Fetched(c, id));
    FlagsKeepInv(c, Fetched(c, id));
  }

  lemma EnablingDoneKeepsInv(c: Ctx, id: Id)
    requires Inv(c)
    ensures Inv(EnablingDone(c, id))
  {
    hide DepsOk, MatchedOk, CountsOk, LinksOk, ListenersOk, HandlersOk, UsesOk, ExportsOk, ExportedOk, OrderOk,
         ForcedOk, HandedOk, RootsOk;
    FlagsLinks(c, EnablingDone(c, id));
    RootsKept(c, EnablingDone(c, id));
    FlagsKeepInv(c, EnablingDone(c, id));
  }

  lemma EnabledRoots(c: Ctx, id: Id)
    requires RootsOk(c) && (id.Internal? || Rooted(c, id))
    ensures RootsOk(Enabled(c, id))
  {
    GraphMono(c, Enabled(c, id));
    ReachesRefl(c.deps, id);
    if id.Internal? {
      assert Reaches(Enabled(c, id).deps, id, id);
    }
  }

  lemma EnabledKeepsInv(c: Ctx, id: Id)
    requires Inv(c) && id in c.deps && id !in c.defined && (id.Internal? || Rooted(c, id))
    ensures Inv(Enabled(c, id))
  {
    hide DepsOk, MatchedOk, CountsOk, LinksOk, ListenersOk, HandlersOk, UsesOk, ExportsOk, ExportedOk, OrderOk,
         ForcedOk, HandedOk, RootsOk;
    FlagsLinks(c, Enabled(c, id));
    EnabledRoots(c, id);
    FlagsKeepInv(c, Enabled(c, id));
  }

  // ---------- new modules and declarations ----------

  lemma CreatedDeps(c: Ctx, id: Id)
    requires TablesOk(c) && DepsOk(c) && id !in c.deps && TablesOk(Created(c, id))
    ensures DepsOk(Created(c, id))
  {
  }

  lemma CreatedPending(c: Ctx, id: Id, m: Id)
    requires TablesOk(c) && DepsOk(c) && id !in c.deps && m in Created(c, id).deps
    ensures m in Created(c, id).mapped && Created(c, id).mapped[m] <= |Created(c, id).deps[m]|
    ensures m != id ==> m in c.deps && c.mapped[m] <= |c.deps[m]|
    ensures Pending(Created(c, id), m) == if m == id then {} else Pending(c, m)
  {
  }

  lemma CreatedCount(c: Ctx, id: Id, m: Id)
    requires TablesOk(c) && DepsOk(c) && CountsOk(c) && id !in c.deps && m in Created(c, id).deps
    requires TablesOk(Created(c, id)) && DepsOk(Created(c, id))
    ensures var c' := Created(c, id);
      c'.depCount[m] == |Pending(c', m)| && (m in c'.defined ==> Pending(c', m) == {})
  {
    hide DepsOk, Pending;
    CreatedPending(c, id, m);
  }

  lemma CreatedCounts(c: Ctx, id: Id)
    requires TablesOk(c) && DepsOk(c) && CountsOk(c) && id !in c.deps
    requires TablesOk(Created(c, id)) && DepsOk(Created(c, id))
    ensures CountsOk(Created(c, id))
  {
    hide TablesOk, DepsOk, Pending, Created;
    forall m | m in Created(c, id).deps { CreatedCount(c, id, m); }
  }

  lemma CreatedWired(c: Ctx, id: Id)
    requires id !in c.deps
    ensures forall p, i, e {:trigger Wired(Created(c, id), p, i, e)} ::
          Wired(Created(c, id), p, i, e) <==> Wired(c, p, i, e)
  {
  }

  lemma CreatedLinks(c: Ctx, id: Id)
    requires TablesOk(c) && LinksOk(c) && id !in c.deps && TablesOk(Created(c, id))
    ensures LinksOk(Created(c, id))
  {
    hide Wired;
    CreatedWired(c, id);
  }

  lemma CreatedListeners(c: Ctx, id: Id)
    requires TablesOk(c) && ListenersOk(c) && id !in c.deps && TablesOk(Created(c, id))
    ensures ListenersOk(Created(c, id))
  {
    hide Wired;
    CreatedWired(c, id);
  }

  lemma CreatedMatched(c: Ctx, id: Id)
    requires MatchedOk(c) && OrderOk(c) && id !in c.deps
    ensures MatchedOk(Created(c, id)) && OrderOk(Created(c, id))
  {
    hide Wired;
    CreatedWired(c, id);
  }

  lemma CreatedExport(c: Ctx, id: Id, m: Id)
    requires TablesOk(c) && DepsOk(c) && ExportsOk(c) && id !in c.deps && m in c.deps
    ensures var c' := Created(c, id);
      && m in c'.deps && m in c'.factory && m in c'.exports && m != id && c'.defined == c.defined
      && c'.deps[m] == c.deps[m] && c'.exports[m] == c.exports[m] && c'.usingExports == c.usingExports
      && (m !in c.defined ==>
            c.exports[m] == if m in c.usingExports && m.Named? then ExportsOf(m) else Undefined)
      && (m in c.defined ==> c'.exports[m] == Outcome(m, c'.deps[m], c'.factory[m], Args(c', m)))
  {
    hide DepsOk, Args, Outcome;
    CreatedArgs(c, id, m);
    assert m in c.factory && m in c.exports;
    hide TablesOk;
  }

  lemma CreatedFresh(c: Ctx, id: Id)
    requires TablesOk(c) && id !in c.deps
    ensures id !in c.defined && id !in c.usingExports
    ensures var c' := Created(c, id);
      c'.deps.Keys == c.deps.Keys + {id} && id in c'.exports && c'.exports[id] == Undefined
    ensures Created(c, id).defined == c.defined && Created(c, id).usingExports == c.usingExports
  {
  }

  lemma CreatedExports(c: Ctx, id: Id)
    requires TablesOk(c) && DepsOk(c) && ExportsOk(c) && id !in c.deps
    requires TablesOk(Created(c, id)) && DepsOk(Created(c, id))
    ensures ExportsOk(Created(c, id))
  {
    CreatedFresh(c, id);
    var c' := Created(c, id);
    forall m | m in c'.deps
      ensures m !in c'.defined ==>
                c'.exports[m] == if m in c'.usingExports && m.Named? then ExportsOf(m) else Undefined
      ensures m in c'.defined ==> c'.exports[m] == Outcome(m, c'.deps[m], c'.factory[m], Args(c', m))
    {
      if m != id { CreatedExport(c, id, m); }
    }
  }

  lemma CreatedArgs(c: Ctx, id: Id, m: Id)
    requires m in c.deps && id !in c.deps
    ensures Args(Created(c, id), m) == Args(c, m)
  {
  }

  lemma CreatedHandlers(c: Ctx, id: Id)
    requires TablesOk(c) && DepsOk(c) && HandlersOk(c) && id !in c.deps
    requires TablesOk(Created(c, id)) && DepsOk(Created(c, id))
    ensures HandlersOk(Created(c, id))
  {
  }

  lemma CreatedUses(c: Ctx, id: Id)
    requires TablesOk(c) && DepsOk(c) && UsesOk(c) && ExportedOk(c) && id !in c.deps
    requires TablesOk(Created(c, id)) && DepsOk(Created(c, id))
    ensures UsesOk(Created(c, id)) && ExportedOk(Created(c, id))
  {
  }

  lemma CreatedGraph(c: Ctx, id: Id)
    requires ForcedOk(c) && RootsOk(c) && id !in c.deps
    ensures ForcedOk(Created(c, id)) && RootsOk(Created(c, id))
  {
    GraphMono(c, Created(c, id));
  }

  lemma CreatedHanded(c: Ctx, id: Id)
    requires HandedOk(c) && id !in c.deps
    ensures HandedOk(Created(c, id))
  {
    forall t | t in c.forced ensures Handed(Created(c, id), t) {
      assert Handed(c, t);
    }
  }

  lemma CreatedKeepsInv(c: Ctx, id: Id)
    requires Inv(c) && id !in c.deps
    ensures Inv(Created(c, id))
  {
    hide DepsOk, MatchedOk, CountsOk, LinksOk, ListenersOk, HandlersOk, UsesOk, ExportsOk, ExportedOk, OrderOk,
         ForcedOk, HandedOk, RootsOk;
    CreatedDeps(c, id);
    hide TablesOk, Created;
    CreatedCounts(c, id);
    CreatedLinks(c, id);
    CreatedListeners(c, id);
    CreatedMatched(c, id);
    CreatedExports(c, id);
    CreatedHandlers(c, id);
    CreatedUses(c, id);
    CreatedGraph(c, id);
    CreatedHanded(c, id);
  }

  lemma DeclaredCounts(c: Ctx, id: Id, ds: seq<Dep>, f: Factory)
    requires TablesOk(c) && DepsOk(c) && CountsOk(c) && id in c.deps && id !in c.inited
    requires TablesOk(Declared(c, id, ds, f)) && DepsOk(Declared(c, id, ds, f))
    ensures CountsOk(Declared(c, id, ds, f))
  {
    var c' := Declared(c, id, ds, f);
    forall m | m in c'.deps ensures Pending(c', m) == Pending(c, m) {}
  }

  lemma DeclaredLinks(c: Ctx, id: Id, ds: seq<Dep>, f: Factory)
    requires TablesOk(c) && LinksOk(c) && ListenersOk(c) && MatchedOk(c) && OrderOk(c)
    requires id in c.deps && c.mapped[id] == 0 && TablesOk(Declared(c, id, ds, f))
    ensures LinksOk(Declared(c, id, ds, f)) && ListenersOk(Declared(c, id, ds, f))
    ensures MatchedOk(Declared(c, id, ds, f)) && OrderOk(Declared(c, id, ds, f))
  {
    var c' := Declared(c, id, ds, f);
    assert forall p, i, e :: Wired(c', p, i, e) <==> Wired(c, p, i, e);
  }

  lemma DeclaredExports(c: Ctx, id: Id, ds: seq<Dep>, f: Factory)
    requires TablesOk(c) && DepsOk(c) && ExportsOk(c) && id in c.deps && id !in c.defined
    requires TablesOk(Declared(c, id, ds, f)) && DepsOk(Declared(c, id, ds, f))
    ensures ExportsOk(Declared(c, id, ds, f))
  {
    var c' := Declared(c, id, ds, f);
    hide TablesOk, DepsOk;
    forall m | m in c.deps && m != id ensures Args(c', m) == Args(c, m) {}
  }

  lemma DeclaredHandlers(c: Ctx, id: Id, ds: seq<Dep>, f: Factory)
    requires TablesOk(c) && DepsOk(c) && HandlersOk(c) && UsesOk(c) && ExportedOk(c) && id in c.deps
    requires c.mapped[id] == 0
    requires TablesOk(Declared(c, id, ds, f)) && DepsOk(Declared(c, id, ds, f))
    ensures HandlersOk(Declared(c, id, ds, f)) && UsesOk(Declared(c, id, ds, f)) && ExportedOk(Declared(c, id, ds, f))
  {
  }

  lemma DeclaredGraph(c: Ctx, id: Id, ds: seq<Dep>, f: Factory)
    requires ForcedOk(c) && RootsOk(c) && id in c.deps && c.deps[id] == []
    ensures ForcedOk(Declared(c, id, ds, f)) && RootsOk(Declared(c, id, ds, f))
  {
    GraphMono(c, Declared(c, id, ds, f));
  }

  lemma DeclaredHanded(c: Ctx, id: Id, ds: seq<Dep>, f: Factory)
    requires HandedOk(c) && id in c.deps && c.deps[id] == [] && id !in c.inited
    ensures HandedOk(Declared(c, id, ds, f))
  {
    forall t | t in c.forced ensures Handed(Declared(c, id, ds, f), t) {
      assert Handed(c, t);
    }
  }

  lemma DeclaredKeepsInv(c: Ctx, id: Id, ds: seq<Dep>, f: Factory)
    requires Inv(c) && id in c.deps && id !in c.inited
    ensures Inv(Declared(c, id, ds, f))
  {
    hide MatchedOk, CountsOk, LinksOk, ListenersOk, HandlersOk, UsesOk, ExportsOk, ExportedOk, OrderOk, ForcedOk,
         HandedOk, RootsOk;
    assert c.deps[id] == [];
    hide TablesOk, DepsOk, Declared;
    DeclaredCounts(c, id, ds, f);
    DeclaredLinks(c, id, ds, f);
    DeclaredExports(c, id, ds, f);
    DeclaredHandlers(c, id, ds, f);
    DeclaredGraph(c, id, ds, f);
    DeclaredHanded(c, id, ds, f);
  }

  // ---------- wiring a slot ----------

  /** Slot `c.mapped[id]` of `id` is the next to be wired, and is a handler name. */
  ghost predicate NextHandler(c: Ctx, id: Id) {
    && id in c.deps && id in c.mapped && id in c.exports && id in c.enabled && id !in c.defined
    && c.mapped[id] < |c.deps[id]| && !c.deps[id][c.mapped[id]].OnModule?
  }

  lemma HandlerTables(c: Ctx, id: Id)
    requires TablesOk(c) && DepsOk(c)
    requires NextHandler(c, id)
    ensures TablesOk(HandlerFilled(c, id)) && DepsOk(HandlerFilled(c, id))
  {
    HandlerTablesOk(c, id);
    hide TablesOk, Handled;
  }

  lemma HandlerTablesOk(c: Ctx, id: Id)
    requires TablesOk(c) && NextHandler(c, id)
    ensures TablesOk(HandlerFilled(c, id))
  {
    hide Handled;
  }

  lemma HandlerCounts(c: Ctx, id: Id)
    requires TablesOk(c) && DepsOk(c) && CountsOk(c)
    requires NextHandler(c, id)
    requires TablesOk(HandlerFilled(c, id)) && DepsOk(HandlerFilled(c, id))
    ensures CountsOk(HandlerFilled(c, id))
  {
    var c' := HandlerFilled(c, id);
    forall m | m in c.deps ensures Pending(c', m) == Pending(c, m) {}
  }

  lemma HandlerWired(c: Ctx, id: Id)
    requires NextHandler(c, id)
    ensures forall p, i, e {:trigger Wired(HandlerFilled(c, id), p, i, e)} ::
              Wired(HandlerFilled(c, id), p, i, e) <==> Wired(c, p, i, e)
  {
  }

  lemma HandlerLinks(c: Ctx, id: Id)
    requires TablesOk(c) && LinksOk(c) && NextHandler(c, id) && TablesOk(HandlerFilled(c, id))
    ensures LinksOk(HandlerFilled(c, id))
  {
    HandlerWired(c, id);
    assert forall p, i, e :: Wired(c, p, i, e) ==> Slot(p, i) != Slot(id, c.mapped[id]);
    hide Wired, Handled;
  }

  lemma HandlerListeners(c: Ctx, id: Id)
    requires TablesOk(c) && ListenersOk(c) && MatchedOk(c) && NextHandler(c, id) && TablesOk(HandlerFilled(c, id))
    ensures ListenersOk(HandlerFilled(c, id)) && MatchedOk(HandlerFilled(c, id))
  {
    hide Wired, Handled;
    HandlerWired(c, id);
  }

  lemma HandlerOrder(c: Ctx, id: Id)
    requires OrderOk(c) && NextHandler(c, id)
    ensures OrderOk(HandlerFilled(c, id))
  {
    HandlerWired(c, id);
  }

  lemma HandlerHandlers(c: Ctx, id: Id)
    requires TablesOk(c) && DepsOk(c) && HandlersOk(c)
    requires NextHandler(c, id)
    requires TablesOk(HandlerFilled(c, id)) && DepsOk(HandlerFilled(c, id))
    ensures HandlersOk(HandlerFilled(c, id))
  {
    hide TablesOk, DepsOk, Handled;
  }

  lemma HandlerUse(c: Ctx, id: Id, m: Id)
    requires TablesOk(c) && DepsOk(c) && UsesOk(c) && m in c.deps
    requires NextHandler(c, id)
    requires TablesOk(HandlerFilled(c, id)) && DepsOk(HandlerFilled(c, id))
    ensures var c' := HandlerFilled(c, id);
      m in c'.usingExports <==> ExportsObject in c'.deps[m][..c'.mapped[m]]
  {
    assert c.mapped[m] <= |c.deps[m]|;
    assert m in c.usingExports <==> ExportsObject in c.deps[m][..c.mapped[m]];
    hide TablesOk, DepsOk, UsesOk, Handled;
    if m == id {
      var i := c.mapped[id];
      assert c.deps[id][..i + 1] == c.deps[id][..i] + [c.deps[id][i]];
    }
  }

  lemma HandlerUses(c: Ctx, id: Id)
    requires TablesOk(c) && DepsOk(c) && UsesOk(c)
    requires NextHandler(c, id)
    requires TablesOk(HandlerFilled(c, id)) && DepsOk(HandlerFilled(c, id))
    ensures UsesOk(HandlerFilled(c, id))
  {
    assert HandlerFilled(c, id).deps == c.deps;
    hide TablesOk, DepsOk;
    forall m | m in c.deps { HandlerUse(c, id, m); }
  }

  lemma HandlerArgs(c: Ctx, id: Id, m: Id)
    requires m in c.deps && m != id
    requires NextHandler(c, id)
    ensures Args(HandlerFilled(c, id), m) == Args(c, m)
  {
  }

  lemma HandlerExports(c: Ctx, id: Id)
    requires TablesOk(c) && DepsOk(c) && ExportsOk(c)
    requires NextHandler(c, id)
    requires TablesOk(HandlerFilled(c, id)) && DepsOk(HandlerFilled(c, id))
    ensures ExportsOk(HandlerFilled(c, id))
  {
    hide TablesOk, DepsOk;
    forall m | m in c.deps && m != id ensures Args(HandlerFilled(c, id), m) == Args(c, m) { HandlerArgs(c, id, m); }
    hide Args;
  }

  lemma HandlerExported(c: Ctx, id: Id)
    requires TablesOk(c) && ExportedOk(c)
    requires NextHandler(c, id)
    requires TablesOk(HandlerFilled(c, id))
    ensures ExportedOk(HandlerFilled(c, id))
  {
  }

  lemma HandlerGraph(c: Ctx, id: Id)
    requires ForcedOk(c) && RootsOk(c) && NextHandler(c, id)
    ensures ForcedOk(HandlerFilled(c, id)) && RootsOk(HandlerFilled(c, id))
  {
    hide ForcedOk, HandedOk, RootsOk;
    GraphSame(c, HandlerFilled(c, id));
  }

  lemma HandlerHanded(c: Ctx, id: Id)
    requires HandedOk(c) && NextHandler(c, id)
    ensures HandedOk(HandlerFilled(c, id))
  {
    forall t | t in c.forced ensures Handed(HandlerFilled(c, id), t) {
      assert Handed(c, t);
    }
  }

  lemma HandlerFilledKeepsInv(c: Ctx, id: Id)
    requires Inv(c)
    requires NextHandler(c, id)
    ensures Inv(HandlerFilled(c, id))
  {
    hide DepsOk, MatchedOk, CountsOk, LinksOk, ListenersOk, HandlersOk, UsesOk, ExportsOk, ExportedOk, OrderOk,
         ForcedOk, HandedOk, RootsOk;
    HandlerTables(c, id);
    HandlerGraph(c, id);
    HandlerOrder(c, id);
    HandlerHanded(c, id);
    hide TablesOk, HandlerFilled, NextHandler;
    HandlerCounts(c, id);
    HandlerLinks(c, id);
    HandlerListeners(c, id);
    HandlerHandlers(c, id);
    HandlerUses(c, id);
    HandlerExports(c, id);
    HandlerExported(c, id);
  }

  /** Slot `c.mapped[id]` of `id` is the next to be wired, to module `d`. */
  ghost predicate Next(c: Ctx, id: Id, d: string) {
    && id in c.deps && id in c.mapped && id in c.depCount && id in c.enabled && id !in c.defined
    && c.mapped[id] < |c.deps[id]| && c.deps[id][c.mapped[id]] == OnModule(d)
    && Named(d) in c.deps && Named(d) in c.listeners
  }

  lemma WiredTables(c: Ctx, id: Id, d: string)
    requires TablesOk(c) && DepsOk(c) && ExportedOk(c) && Next(c, id, d)
    ensures Named(d) in c.defined ==> Named(d) in c.exported && c.exported[Named(d)] == c.exports[Named(d)]
    ensures TablesOk(SlotWired(c, id, Named(d))) && DepsOk(SlotWired(c, id, Named(d)))
  {
    WiredDeps(c, id, d);
  }

  lemma WiredDeps(c: Ctx, id: Id, d: string)
    requires TablesOk(c) && DepsOk(c) && Next(c, id, d) && (Named(d) in c.defined ==> Named(d) in c.exported)
    requires TablesOk(SlotWired(c, id, Named(d)))
    ensures DepsOk(SlotWired(c, id, Named(d)))
  {
  }

  lemma WiredColumns(c: Ctx, id: Id, d: string)
    requires Next(c, id, d) && (Named(d) in c.defined ==> Named(d) in c.exported)
    ensures var c' := SlotWired(c, id, Named(d));
      && c'.deps == c.deps && c'.defined == c.defined && c'.mapped == c.mapped[id := c.mapped[id] + 1]
      && c'.depMatched == (if Named(d) in c.defined then c.depMatched + {Slot(id, c.mapped[id])} else c.depMatched)
      && c'.depCount == (if Named(d) in c.defined then c.depCount else c.depCount[id := c.depCount[id] + 1])
  {
  }

  lemma NextUnmatched(c: Ctx, id: Id, d: string)
    requires MatchedOk(c) && Next(c, id, d)
    ensures Slot(id, c.mapped[id]) !in c.depMatched
  {
  }

  lemma WiredPending(c: Ctx, id: Id, d: string, m: Id)
    requires MatchedOk(c) && Next(c, id, d) && m in c.deps && m in c.mapped && c.mapped[m] <= |c.deps[m]|
    requires Named(d) in c.defined ==> Named(d) in c.exported
    ensures Pending(SlotWired(c, id, Named(d)), m) ==
            if m == id && Named(d) !in c.defined then Pending(c, m) + {c.mapped[id]} else Pending(c, m)
  {
    hide MatchedOk, SlotWired;
    NextUnmatched(c, id, d);
    WiredColumns(c, id, d);
  }

  lemma WiredEmpty(c: Ctx, id: Id, m: Id)
    requires m in c.deps && m in c.mapped && c.mapped[m] <= |c.deps[m]| && id in c.mapped
    ensures c.mapped[id] !in Pending(c, m) || m != id
  {
  }

  lemma CountIs(c: Ctx, m: Id)
    requires TablesOk(c) && DepsOk(c) && CountsOk(c) && m in c.deps
    ensures m in c.mapped && c.mapped[m] <= |c.deps[m]| && c.depCount[m] == |Pending(c, m)|
    ensures m in c.defined ==> Pending(c, m) == {}
  {
  }

  /** The count of module `m` stays the number of its empty slots. */
  lemma WiredCount(c: Ctx, id: Id, d: string, m: Id)
    requires TablesOk(c) && DepsOk(c) && MatchedOk(c) && CountsOk(c) && Next(c, id, d) && m in c.deps
    requires Named(d) in c.defined ==> Named(d) in c.exported
    requires TablesOk(SlotWired(c, id, Named(d))) && DepsOk(SlotWired(c, id, Named(d)))
    ensures var c' := SlotWired(c, id, Named(d));
      c'.depCount[m] == |Pending(c', m)| && (m in c'.defined ==> Pending(c', m) == {})
  {
    hide TablesOk, DepsOk, CountsOk, MatchedOk, Pending, SlotWired;
    CountIs(c, m);
    WiredColumns(c, id, d);
    WiredPending(c, id, d, m);
    WiredEmpty(c, id, m);
  }

  lemma WiredCounts(c: Ctx, id: Id, d: string)
    requires TablesOk(c) && DepsOk(c) && MatchedOk(c) && CountsOk(c) && Next(c, id, d)
    requires Named(d) in c.defined ==> Named(d) in c.exported
    requires TablesOk(SlotWired(c, id, Named(d))) && DepsOk(SlotWired(c, id, Named(d)))
    ensures CountsOk(SlotWired(c, id, Named(d)))
  {
    var c' := SlotWired(c, id, Named(d));
    assert c'.deps == c.deps;
    hide TablesOk, DepsOk, MatchedOk, Pending;
    forall m | m in c.deps
      ensures c'.depCount[m] == |Pending(c', m)| && (m in c'.defined ==> Pending(c', m) == {})
    {
      WiredCount(c, id, d, m);
    }
  }

  lemma WiredWired(c: Ctx, id: Id, d: string)
    requires Next(c, id, d)
    requires Named(d) in c.defined ==> Named(d) in c.exported
    ensures forall p, i, e {:trigger Wired(SlotWired(c, id, Named(d)), p, i, e)} ::
              Wired(SlotWired(c, id, Named(d)), p, i, e) <==>
              Wired(c, p, i, e) || (p == id && i == c.mapped[id] && e == d)
  {
  }

  lemma WiredLinks(c: Ctx, id: Id, d: string)
    requires TablesOk(c) && MatchedOk(c) && LinksOk(c) && Next(c, id, d)
    requires Named(d) in c.defined ==> Named(d) in c.exported && c.exported[Named(d)] == c.exports[Named(d)]
    requires TablesOk(SlotWired(c, id, Named(d)))
    ensures LinksOk(SlotWired(c, id, Named(d)))
  {
    WiredWired(c, id, d);
    var s := Slot(id, c.mapped[id]);
    assert s !in c.depMatched;
  }

  lemma WiredListeners(c: Ctx, id: Id, d: string)
    requires TablesOk(c) && MatchedOk(c) && ListenersOk(c) && Next(c, id, d)
    requires Named(d) in c.defined ==> Named(d) in c.exported
    requires TablesOk(SlotWired(c, id, Named(d)))
    ensures ListenersOk(SlotWired(c, id, Named(d))) && MatchedOk(SlotWired(c, id, Named(d)))
  {
    WiredWired(c, id, d);
  }

  lemma WiredExports(c: Ctx, id: Id, d: string)
    requires TablesOk(c) && DepsOk(c) && ExportsOk(c) && Next(c, id, d)
    requires Named(d) in c.defined ==> Named(d) in c.exported
    requires TablesOk(SlotWired(c, id, Named(d))) && DepsOk(SlotWired(c, id, Named(d)))
    ensures ExportsOk(SlotWired(c, id, Named(d)))
  {
    hide TablesOk, DepsOk;
    var c' := SlotWired(c, id, Named(d));
    forall m | m in c.deps && m != id ensures Args(c', m) == Args(c, m) {}
  }

  lemma WiredUses(c: Ctx, id: Id, d: string)
    requires TablesOk(c) && DepsOk(c) && UsesOk(c) && Next(c, id, d)
    requires Named(d) in c.defined ==> Named(d) in c.exported
    requires TablesOk(SlotWired(c, id, Named(d))) && DepsOk(SlotWired(c, id, Named(d)))
    ensures UsesOk(SlotWired(c, id, Named(d)))
  {
    hide TablesOk, DepsOk;
    var i := c.mapped[id];
    assert c.deps[id][..i + 1] == c.deps[id][..i] + [c.deps[id][i]];
  }

  lemma WiredHandlers(c: Ctx, id: Id, d: string)
    requires TablesOk(c) && DepsOk(c) && HandlersOk(c) && Next(c, id, d)
    requires Named(d) in c.defined ==> Named(d) in c.exported
    requires TablesOk(SlotWired(c, id, Named(d))) && DepsOk(SlotWired(c, id, Named(d)))
    ensures HandlersOk(SlotWired(c, id, Named(d)))
  {
    hide TablesOk, DepsOk;
  }

  lemma WiredExported(c: Ctx, id: Id, d: string)
    requires TablesOk(c) && ExportedOk(c) && Next(c, id, d)
    requires Named(d) in c.defined ==> Named(d) in c.exported
    requires TablesOk(SlotWired(c, id, Named(d)))
    ensures ExportedOk(SlotWired(c, id, Named(d)))
  {
    hide TablesOk;
  }

  lemma WiredOrder(c: Ctx, id: Id, d: string)
    requires OrderOk(c) && Next(c, id, d)
    requires Named(d) in c.defined ==> Named(d) in c.exported
    ensures OrderOk(SlotWired(c, id, Named(d)))
  {
    WiredWired(c, id, d);
  }

  lemma WiredGraph(c: Ctx, id: Id, d: string)
    requires ForcedOk(c) && RootsOk(c) && Next(c, id, d)
    requires Named(d) in c.defined ==> Named(d) in c.exported
    ensures ForcedOk(SlotWired(c, id, Named(d))) && RootsOk(SlotWired(c, id, Named(d)))
  {
    hide ForcedOk, HandedOk, RootsOk;
    GraphSame(c, SlotWired(c, id, Named(d)));
  }

  lemma WiredHanded(c: Ctx, id: Id, d: string)
    requires HandedOk(c) && MatchedOk(c) && Next(c, id, d)
    requires Named(d) in c.defined ==> Named(d) in c.exported
    ensures HandedOk(SlotWired(c, id, Named(d)))
  {
    NextUnmatched(c, id, d);
    hide MatchedOk;
    forall t | t in c.forced ensures Handed(SlotWired(c, id, Named(d)), t) {
      assert Handed(c, t);
    }
  }

  lemma SlotWiredKeepsInv(c: Ctx, id: Id, d: string)
    requires Inv(c) && Next(c, id, d)
    ensures Named(d) in c.defined ==> Named(d) in c.exported
    ensures Inv(SlotWired(c, id, Named(d)))
  {
    hide DepsOk, MatchedOk, CountsOk, LinksOk, ListenersOk, HandlersOk, UsesOk, ExportsOk, ExportedOk, OrderOk,
         ForcedOk, HandedOk, RootsOk;
    WiredTables(c, id, d);
    hide TablesOk, SlotWired, Next;
    WiredCounts(c, id, d);
    WiredLinks(c, id, d);
    WiredListeners(c, id, d);
    WiredExports(c, id, d);
    WiredUses(c, id, d);
    WiredHandlers(c, id, d);
    WiredExported(c, id, d);
    WiredOrder(c, id, d);
    WiredGraph(c, id, d);
    WiredHanded(c, id, d);
  }
}
