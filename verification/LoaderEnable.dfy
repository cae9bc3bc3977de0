/** The steps of `enable` and of `init`, and what the whole of them changes. */
module LoaderEnable {
  import opened LoaderState
  import opened LoaderSteps
  import opened LoaderCascade

  /** The invariant, everything settled, and everything wired enabled but for `x`. */
  ghost predicate SteadyBut(c: Ctx, x: set<Id>) {
    Inv(c) && SettledExcept(c, {}) && LinksEnabled(c, x)
  }

  ghost predicate Steady(c: Ctx) {
    SteadyBut(c, {})
  }

  /** `universe` holds every module there is or that a dependency names. */
  ghost predicate Within(c: Ctx, universe: set<Id>) {
    && c.deps.Keys <= universe
    && (forall m, d {:trigger OnModule(d) in c.deps[m]} :: m in c.deps && OnModule(d) in c.deps[m] ==>
            Named(d) in universe)
  }

  function Universe(c: Ctx): set<Id> {
    c.deps.Keys + set m, d | m in c.deps && d in c.deps[m] && d.OnModule? :: Named(d.name)
  }

  lemma UniverseWithin(c: Ctx)
    ensures Within(c, Universe(c))
  {
  }

  /** The modules that enabling `id` may still enable. */
  function ToEnable(c: Ctx, universe: set<Id>, id: Id): set<Id> {
    universe - c.enabled - {id}
  }

  lemma ToEnableDrops(c: Ctx, c': Ctx, universe: set<Id>, id: Id, d: Id)
    requires c.enabled <= c'.enabled && id in c'.enabled && d !in c'.enabled && d in universe
    ensures |ToEnable(c', universe, d)| < |ToEnable(c, universe, id)|
  {
    assert d in ToEnable(c, universe, id) && d !in ToEnable(c', universe, d);
    SubsetSize(ToEnable(c', universe, d), ToEnable(c, universe, id));
  }

  // ---------- the steps of enable ----------

  lemma StartSettled(c: Ctx, id: Id)
    requires TablesOk(c) && TablesOk(Enabled(c, id)) && SettledExcept(c, {id})
    ensures SettledExcept(Enabled(c, id), {})
  {
    var c' := Enabled(c, id);
    forall m | m in c'.deps ensures Settled(c', m) {
      if m != id { assert Settled(c, m); }
    }
  }

  lemma StartLinks(c: Ctx, id: Id)
    requires LinksEnabled(c, {id})
    ensures LinksEnabled(Enabled(c, id), {})
  {
    assert forall p, i, e :: Wired(Enabled(c, id), p, i, e) <==> Wired(c, p, i, e);
  }

  lemma StartEnable(c: Ctx, id: Id)
    requires Inv(c) && SettledExcept(c, {id}) && LinksEnabled(c, {id})
    requires id in c.deps && id !in c.defined && (id.Internal? || Rooted(c, id))
    ensures Steady(Enabled(c, id))
  {
    EnabledKeepsInv(c, id);
    hide DepsOk, MatchedOk, CountsOk, LinksOk, ListenersOk, HandlersOk, UsesOk, ExportsOk, ExportedOk, OrderOk,
         ForcedOk, HandedOk, RootsOk;
    StartSettled(c, id);
    StartLinks(c, id);
  }

  lemma StartedEnable(c: Ctx, id: Id, universe: set<Id>)
    requires TablesOk(c) && id in c.deps && Within(c, universe)
    ensures var c' := Enabled(c, id);
            && ToEnable(c', universe, id) == ToEnable(c, universe, id) && Within(c', universe)
            && id in c'.enabling && id in c'.enabled && id in c'.deps && id in c'.mapped
              && c'.mapped[id] == c.mapped[id]
            && c'.defined == c.defined
  {
  }

  lemma HandlerSettled(c: Ctx, id: Id)
    requires TablesOk(c) && SettledExcept(c, {}) && NextHandler(c, id) && id in c.enabling
    requires TablesOk(HandlerFilled(c, id))
    ensures SettledExcept(HandlerFilled(c, id), {})
  {
    var c' := HandlerFilled(c, id);
    forall m | m in c'.deps ensures Settled(c', m) {
      assert Settled(c, m);
    }
  }

  lemma HandlerStep(c: Ctx, id: Id)
    requires Steady(c) && id in c.enabling && NextHandler(c, id)
    ensures Steady(HandlerFilled(c, id)) && Grown(c, HandlerFilled(c, id), id)
  {
    hide DepsOk, MatchedOk, CountsOk, LinksOk, ListenersOk, HandlersOk, UsesOk, ExportsOk, ExportedOk, OrderOk,
         ForcedOk, HandedOk, RootsOk;
    HandlerFilledKeepsInv(c, id);
    HandlerSettled(c, id);
    HandlerWired(c, id);
    HandlerGrown(c, id);
    hide TablesOk, Grown, HandlerFilled, NextHandler, SettledExcept;
  }

  lemma HandlerGrown(c: Ctx, id: Id)
    requires NextHandler(c, id)
    ensures Grown(c, HandlerFilled(c, id), id)
  {
  }

  lemma CreatedSettled(c: Ctx, id: Id)
    requires TablesOk(c) && TablesOk(Created(c, id)) && SettledExcept(c, {}) && id !in c.deps
    ensures SettledExcept(Created(c, id), {})
  {
    var c' := Created(c, id);
    forall m | m in c'.deps ensures Settled(c', m) {
      if m != id { assert Settled(c, m); }
    }
  }

  lemma CreatedGrown(c: Ctx, id: Id, x: Id)
    requires TablesOk(c) && id !in c.deps && id.Named?
    ensures Grown(c, Created(c, id), x)
  {
  }

  lemma CreatedLinksEnabled(c: Ctx, id: Id)
    requires TablesOk(c) && LinksOk(c) && LinksEnabled(c, {}) && id !in c.deps
    ensures LinksEnabled(Created(c, id), {})
  {
    assert forall p, i, e :: Wired(Created(c, id), p, i, e) <==> Wired(c, p, i, e);
  }

  lemma CreatedSteady(c: Ctx, id: Id)
    requires Steady(c) && id !in c.deps
    ensures Steady(Created(c, id))
  {
    hide DepsOk, MatchedOk, CountsOk, LinksOk, ListenersOk, HandlersOk, UsesOk, ExportsOk, ExportedOk, OrderOk,
         ForcedOk, HandedOk, RootsOk;
    CreatedKeepsInv(c, id);
    CreatedSettled(c, id);
    CreatedLinksEnabled(c, id);
  }

  lemma WiredSettled(c: Ctx, id: Id, d: string)
    requires TablesOk(c) && SettledExcept(c, {}) && Next(c, id, d) && id in c.enabling
    requires Named(d) in c.defined ==> Named(d) in c.exported
    requires TablesOk(SlotWired(c, id, Named(d)))
    ensures SettledExcept(SlotWired(c, id, Named(d)), {})
  {
    var c' := SlotWired(c, id, Named(d));
    forall m | m in c'.deps ensures Settled(c', m) {
      assert Settled(c, m);
    }
  }

  lemma WiredGrown(c: Ctx, id: Id, d: string)
    requires Next(c, id, d)
    requires Named(d) in c.defined ==> Named(d) in c.exported
    ensures Grown(c, SlotWired(c, id, Named(d)), id)
  {
  }

  lemma WiredStep(c: Ctx, id: Id, d: string)
    requires Next(c, id, d) && Steady(c) && id in c.enabling
    ensures Named(d) in c.defined ==> Named(d) in c.exported
    ensures SteadyBut(SlotWired(c, id, Named(d)), {Named(d)}) && Grown(c, SlotWired(c, id, Named(d)), id)
  {
    hide DepsOk, MatchedOk, CountsOk, LinksOk, ListenersOk, HandlersOk, UsesOk, ExportsOk, ExportedOk, OrderOk,
         ForcedOk, HandedOk, RootsOk;
    SlotWiredKeepsInv(c, id, d);
    WiredSettled(c, id, d);
    WiredWired(c, id, d);
    WiredGrown(c, id, d);
    hide TablesOk, Grown, SlotWired, Next, SettledExcept;
    assert SlotWired(c, id, Named(d)).enabled == c.enabled by { WiredEnabled(c, id, d); }
  }

  lemma WiredEnabled(c: Ctx, id: Id, d: string)
    requires id in c.mapped && id in c.depCount && Named(d) in c.listeners
    requires Named(d) in c.defined ==> Named(d) in c.exported
    ensures SlotWired(c, id, Named(d)).enabled == c.enabled
  {
  }

  /** The dependency of a module under a `require` is under it as well. */
  lemma RootedDep(c: Ctx, id: Id, d: string)
    requires RootsOk(c) && id in c.enabled && id in c.deps && OnModule(d) in c.deps[id]
    ensures Rooted(c, Named(d))
  {
    assert Rooted(c, id);
    var r :| r in c.enabled && r.Internal? && Reaches(c.deps, r, id);
    assert Edge(c.deps, id, Named(d));
    ReachesStep(c.deps, r, id, Named(d));
  }

  lemma WithinGrown(c: Ctx, c': Ctx, x: Id, universe: set<Id>)
    requires Within(c, universe) && Grown(c, c', x) && c'.deps.Keys <= universe
    ensures Within(c', universe)
  {
  }

  lemma HandlerAdvances(c: Ctx, id: Id)
    requires NextHandler(c, id)
    ensures var c' := HandlerFilled(c, id);
            id in c'.mapped && c'.mapped[id] == c.mapped[id] + 1 && c'.deps == c.deps && c'.enabled == c.enabled
  {
  }

  lemma WiredAdvances(c: Ctx, id: Id, d: string)
    requires Next(c, id, d)
    requires Named(d) in c.defined ==> Named(d) in c.exported
    ensures var c' := SlotWired(c, id, Named(d));
            && id in c'.mapped && c'.mapped[id] == c.mapped[id] + 1 && c'.deps == c.deps && c'.enabled == c.enabled
            && c'.defined == c.defined && c'.registry == c.registry && c'.enabling == c.enabling
  {
  }

  /** The links to `d` are enabled once `d` is. */
  lemma LinksDone(c: Ctx, d: Id)
    requires LinksEnabled(c, {d}) && d in c.enabled
    ensures LinksEnabled(c, {})
  {
  }

  // ---------- the end of enable ----------

  lemma EndSettled(c: Ctx, id: Id)
    requires TablesOk(c) && TablesOk(EnablingDone(c, id)) && SettledExcept(c, {})
    ensures SettledExcept(EnablingDone(c, id), {id})
  {
    var c' := EnablingDone(c, id);
    forall m | m in c'.deps && m != id ensures Settled(c', m) {
      assert Settled(c, m);
    }
  }

  lemma EndLinks(c: Ctx, id: Id)
    requires LinksEnabled(c, {})
    ensures LinksEnabled(EnablingDone(c, id), {})
  {
    assert forall p, i, e :: Wired(EnablingDone(c, id), p, i, e) <==> Wired(c, p, i, e);
  }

  lemma EndGrown(c: Ctx, d: Ctx, id: Id)
    requires Grown(Enabled(c, id), d, id) && id !in c.enabling
    ensures Grown(c, EnablingDone(d, id), id)
  {
  }

  lemma EndEnable(c: Ctx, d: Ctx, id: Id)
    requires Steady(d) && Grown(Enabled(c, id), d, id) && id !in c.enabling
    ensures var e := EnablingDone(d, id); Inv(e) && SettledExcept(e, {id}) && LinksEnabled(e, {}) && Grown(c, e, id)
  {
    hide DepsOk, MatchedOk, CountsOk, LinksOk, ListenersOk, HandlersOk, UsesOk, ExportsOk, ExportedOk, OrderOk,
         ForcedOk, HandedOk, RootsOk;
    EnablingDoneKeepsInv(d, id);
    EndSettled(d, id);
    EndLinks(d, id);
    EndGrown(c, d, id);
    hide Grown, TablesOk;
  }

  lemma GrownRefl(c: Ctx, x: Id)
    ensures Grown(c, c, x)
  {
  }

  /** The test that `on` makes tells whether the module is defined. */
  lemma OnTest(c: Ctx, d: Id)
    requires TablesOk(c) && ExportedOk(c) && d.Named?
    requires c.defined <= c.deps.Keys
    ensures d in c.exported && (d !in c.registry || d in c.emitComplete) <==> d in c.defined
  {
  }

  /** The next slot of a module that is being enabled. */
  lemma NextSlot(c: Ctx, id: Id)
    requires TablesOk(c) && id in c.enabling && c.mapped[id] < |c.deps[id]|
    ensures c.deps[id][c.mapped[id]].OnModule? && Named(c.deps[id][c.mapped[id]].name) in c.deps ==>
              Next(c, id, c.deps[id][c.mapped[id]].name)
    ensures !c.deps[id][c.mapped[id]].OnModule? ==> NextHandler(c, id)
  {
  }

  lemma CreatedStep(c: Ctx, d: Id, x: Id)
    requires Steady(c) && d.Named?
    ensures var c' := if d in c.deps then c else Created(c, d);
            Steady(c') && Grown(c, c', x) && c'.enabled == c.enabled && c'.defined == c.defined
              && c'.enabling == c.enabling
    ensures x in c.mapped ==> x in (if d in c.deps then c else Created(c, d)).mapped
  {
    hide DepsOk, MatchedOk, CountsOk, LinksOk, ListenersOk, HandlersOk, UsesOk, ExportsOk, ExportedOk, OrderOk,
         ForcedOk, HandedOk, RootsOk;
    if d in c.deps {
      GrownRefl(c, x);
    } else {
      CreatedSteady(c, d);
      CreatedGrown(c, d, x);
    }
  }

  /** A wired module that is not enabled can be enabled. */
  lemma ReadyToEnable(c: Ctx, p: Id, d: string)
    requires TablesOk(c) && DepsOk(c) && RootsOk(c) && SettledExcept(c, {})
    requires p in c.enabled && OnModule(d) in c.deps[p]
    requires Named(d) in c.registry && Named(d) !in c.enabled
    ensures Named(d) in c.deps && Named(d) !in c.defined && Named(d) !in c.enabling
    ensures Named(d) in c.mapped && c.mapped[Named(d)] == 0
    ensures Rooted(c, Named(d)) && SettledExcept(c, {Named(d)})
  {
    RootedDep(c, p, d);
  }

  /** What enabling a module that was not enabled leaves alone, it leaves alone for `x` as well. */
  lemma GrownSwap(c: Ctx, c': Ctx, d: Id, x: Id)
    requires Grown(c, c', d) && d !in c.enabled
    ensures Grown(c, c', x)
  {
  }

  lemma KeptRow(c: Ctx, c': Ctx, d: Id, m: Id)
    requires Grown(c, c', d) && m in c.enabled && m in c.mapped && m in c.deps && m != d
    ensures m in c'.mapped && c'.mapped[m] == c.mapped[m] && m in c'.deps && c'.deps[m] == c.deps[m]
    ensures c'.enabling == c.enabling && c.enabled <= c'.enabled
  {
  }
}
