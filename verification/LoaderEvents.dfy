/** The state between two calls into the loader, and how it develops from call to call. */
module LoaderEvents {
  import opened LoaderState
  import opened LoaderSteps
  import opened LoaderCascade
  import opened LoaderEnable
  import opened LoaderCycles

  /** `require` calls are initialised and enabled as soon as they exist. */
  ghost predicate RequiresRun(c: Ctx, except: set<Id>) {
    forall m {:trigger m in c.inited} {:trigger m in c.enabled} :: m in c.deps && m.Internal? && m !in except ==>
          m in c.inited && m in c.enabled
  }

  /** The internal ids given out so far. */
  ghost predicate IdsBelow(c: Ctx, n: nat) {
    forall m {:trigger m in c.deps} :: m in c.deps && m.Internal? ==> m.n < n
  }

  ghost predicate Quiet(c: Ctx) {
    Calm(c) && ForcedUpTo(c, {}) && RequiresRun(c, {})
  }

  /** A loader that has done nothing yet. */
  lemma EmptyQuiet()
    ensures Quiet(EMPTY) && IdsBelow(EMPTY, 0)
  {
  }

  /** What no later call takes back. */
  ghost predicate Later(c: Ctx, c': Ctx) {
    && c.order <= c'.order && c.inited <= c'.inited && c.enabled <= c'.enabled && c.defined <= c'.defined
    && c.deps.Keys <= c'.deps.Keys
    && ExportsKept(c, c')
    && (forall m {:trigger c'.deps[m]} {:trigger m in c'.deps} :: m in c.inited && m in c.deps ==>
            m in c'.deps && c'.deps[m] == c.deps[m])
    && (forall m {:trigger c'.factory[m]} {:trigger m in c'.factory} :: m in c.inited && m in c.factory ==>
            m in c'.factory && c'.factory[m] == c.factory[m])
  }

  lemma LaterRefl(c: Ctx)
    ensures Later(c, c)
  {
  }

  lemma LaterTransitive(a: Ctx, b: Ctx, c: Ctx)
    requires Later(a, b) && Later(b, c)
    ensures Later(a, c)
  {
    assert forall m :: m in a.defined && m in a.exports ==> m in b.exports && b.exports[m] == a.exports[m];
    assert forall m :: m in a.inited && m in a.deps ==> m in b.deps && b.deps[m] == a.deps[m];
    assert forall m :: m in a.inited && m in a.factory ==> m in b.factory && b.factory[m] == a.factory[m];
  }

  lemma CascadeLater(c: Ctx, c': Ctx)
    requires Cascade(c, c')
    ensures Later(c, c')
  {
  }

  lemma GrownLater(c: Ctx, c': Ctx, x: Id)
    requires Grown(c, c', x)
    ensures Later(c, c')
  {
  }

  lemma CreatedLater(c: Ctx, id: Id)
    requires TablesOk(c) && id !in c.deps
    ensures Later(c, Created(c, id))
  {
  }

  lemma DeclaredLater(c: Ctx, id: Id, ds: seq<Dep>, f: Factory)
    requires id !in c.inited
    ensures Later(c, Declared(c, id, ds, f))
  {
  }

  // ---------- init ----------

  lemma DeclaredWired(c: Ctx, id: Id, ds: seq<Dep>, f: Factory)
    requires id in c.deps && id in c.mapped && c.mapped[id] == 0
    ensures forall p, i, e {:trigger Wired(Declared(c, id, ds, f), p, i, e)} ::
              Wired(Declared(c, id, ds, f), p, i, e) <==> Wired(c, p, i, e)
  {
  }

  lemma DeclaredSettled(c: Ctx, id: Id, ds: seq<Dep>, f: Factory)
    requires TablesOk(c) && SettledExcept(c, {}) && TablesOk(Declared(c, id, ds, f))
    ensures SettledExcept(Declared(c, id, ds, f), {id})
  {
    var c' := Declared(c, id, ds, f);
    forall m | m in c'.deps && m != id ensures Settled(c', m) {
      assert Settled(c, m);
    }
  }

  lemma DeclaredForced(c: Ctx, id: Id, ds: seq<Dep>, f: Factory)
    requires ForcedOk(c) && ForcedUpTo(c, {}) && id in c.deps && c.deps[id] == []
    ensures ForcedUpTo(Declared(c, id, ds, f), {})
  {
    forall s | s in c.forced ensures s.parent in c.deps && s.parent != id {
      assert OnCycle(c.deps, s);
    }
  }

  /** A declaration leaves everything in order but the declared module itself. */
  lemma DeclaredStep(c: Ctx, id: Id, ds: seq<Dep>, f: Factory)
    requires Calm(c) && ForcedUpTo(c, {}) && id in c.deps && id !in c.inited
    ensures var c' := Declared(c, id, ds, f);
            && Inv(c') && SettledExcept(c', {id}) && LinksEnabled(c', {id}) && ForcedUpTo(c', {})
            && id in c'.deps && id !in c'.defined && id !in c'.enabling && id in c'.mapped && c'.mapped[id] == 0
  {
    hide MatchedOk, CountsOk, LinksOk, ListenersOk, HandlersOk, UsesOk, ExportsOk, ExportedOk, OrderOk, ForcedOk,
         HandedOk, RootsOk;
    DeclaredKeepsInv(c, id, ds, f);
    assert c.deps[id] == [] && c.mapped[id] == 0;
    hide DepsOk;
    DeclaredSettled(c, id, ds, f);
    DeclaredWired(c, id, ds, f);
    DeclaredForced(c, id, ds, f);
  }

  /** An enable from a calm state ends in a calm state. */
  lemma EnabledCalm(c: Ctx, c': Ctx, id: Id)
    requires Steady(c') && Grown(c, c', id) && c.enabling == {} && c.defined == c.emitComplete
    ensures Calm(c')
  {
    hide DepsOk, MatchedOk, CountsOk, LinksOk, ListenersOk, HandlersOk, UsesOk, ExportsOk, ExportedOk, OrderOk,
         ForcedOk, HandedOk, RootsOk, SettledExcept, LinksEnabled;
    assert InProgress(c') == {};
    forall m | m in c'.defined ensures m in c'.emitComplete {
      assert m !in InProgress(c');
    }
  }

  lemma GrownForced(c: Ctx, c': Ctx, id: Id)
    requires ForcedOk(c) && ForcedUpTo(c, {}) && Grown(c, c', id)
    ensures ForcedUpTo(c', {})
  {
    forall s | s in c.forced ensures s.parent in c.deps {
      assert OnCycle(c.deps, s);
    }
  }

  lemma GrownRequires(c: Ctx, c': Ctx, id: Id)
    requires RequiresRun(c, {id}) && Grown(c, c', id) && id in c'.inited
    requires id.Internal? ==> id in c'.enabled
    ensures RequiresRun(c', {})
  {
  }

  lemma CalmChecked(c: Ctx, c': Ctx)
    requires Cascade(c, c') && Inv(c') && SettledExcept(c', {}) && c.enabling == {} && c.emitComplete == c.defined
    requires LinksEnabled(c, {})
    ensures Calm(c')
  {
    hide DepsOk, MatchedOk, CountsOk, LinksOk, ListenersOk, HandlersOk, UsesOk, ExportsOk, ExportedOk, OrderOk,
         ForcedOk, HandedOk, RootsOk, SettledExcept;
    CascadeLinks(c, c', {});
    assert InProgress(c') == {};
    forall m | m in c'.defined ensures m in c'.emitComplete {
      assert m !in InProgress(c');
    }
  }

  lemma GrownIds(c: Ctx, c': Ctx, id: Id, n: nat)
    requires IdsBelow(c, n) && Grown(c, c', id)
    ensures IdsBelow(c', n)
  {
  }

  // ---------- checkLoaded ----------

  /** Some enabled module still waits for its script. */
  ghost predicate Waiting(c: Ctx) {
    !(c.enabled <= c.inited)
  }

  /** If nothing waits, the enabled modules are a region. */
  lemma EnabledRegion(c: Ctx)
    requires Calm(c) && !Waiting(c)
    ensures Region(c, c.enabled)
  {
    hide DepsOk, MatchedOk, CountsOk, LinksOk, ListenersOk, HandlersOk, UsesOk, ExportsOk, ExportedOk, OrderOk,
         ForcedOk, HandedOk, RootsOk, SettledExcept;
    forall m, d | m in c.enabled && Edge(c.deps, m, Named(d)) ensures Named(d) in c.enabled {
      var i :| 0 <= i < |c.deps[m]| && c.deps[m][i] == OnModule(d);
      AllWired(c, m, i);
    }
  }

  /** The test of `checkLoaded` finds out whether something waits. */
  lemma WaitingTest(c: Ctx, m: Id)
    requires Quiet(c) && m in c.enabled && m !in c.inited
    ensures m in c.enabledRegistry && m in c.fetched && m.Named?
  {
    hide DepsOk, MatchedOk, CountsOk, LinksOk, ListenersOk, HandlersOk, UsesOk, ExportsOk, ExportedOk, OrderOk,
         ForcedOk, HandedOk, RootsOk;
    assert Settled(c, m);
  }

  lemma QuietCascade(c: Ctx, c': Ctx)
    requires Cascade(c, c') && Calm(c') && ForcedUpTo(c', {}) && RequiresRun(c, {})
    ensures Quiet(c')
  {
  }

  // ---------- the parts of init ----------

  lemma InitFacts(c: Ctx, id: Id)
    requires Calm(c) && id in c.deps && ForcedUpTo(c, {}) && RequiresRun(c, {id})
    ensures id in c.factory && c.enabling == {} && c.emitComplete == c.defined
    ensures id in c.enabled && id.Named? ==> Rooted(c, id)
    ensures id in c.inited && (id.Internal? ==> id in c.enabled) ==> Quiet(c)
    ensures LinksEnabled(c, {})
  {
    hide DepsOk, MatchedOk, CountsOk, LinksOk, ListenersOk, HandlersOk, UsesOk, ExportsOk, ExportedOk, OrderOk,
         ForcedOk, HandedOk, SettledExcept, LinksEnabled;
  }

  lemma DeclaredIds(c: Ctx, id: Id, ds: seq<Dep>, f: Factory, n: nat)
    requires RequiresRun(c, {id}) && IdsBelow(c, n) && id in c.deps
    requires id in c.mapped && c.mapped[id] == 0 && LinksEnabled(c, {})
    ensures var c' := Declared(c, id, ds, f); RequiresRun(c', {id}) && IdsBelow(c', n) && LinksEnabled(c', {})
  {
    DeclaredWired(c, id, ds, f);
  }

  lemma EnabledQuiet(c: Ctx, c': Ctx, id: Id, n: nat)
    requires Inv(c) && ForcedUpTo(c, {}) && RequiresRun(c, {id}) && IdsBelow(c, n)
    requires c.enabling == {} && c.defined == c.emitComplete && id in c.inited && id in c.deps && id in c.factory
    requires Steady(c') && Grown(c, c', id) && id in c'.enabled
    ensures Quiet(c') && Later(c, c') && IdsBelow(c', n)
    ensures c'.inited == c.inited && id in c'.deps && c'.deps[id] == c.deps[id] && id in c'.factory
    ensures c'.factory[id] == c.factory[id]
  {
    hide TablesOk, DepsOk, MatchedOk, CountsOk, LinksOk, ListenersOk, HandlersOk, UsesOk, ExportsOk, ExportedOk,
         OrderOk, ForcedOk, HandedOk, RootsOk, SettledExcept, LinksEnabled, ForcedUpTo, RequiresRun, IdsBelow;
    EnabledCalm(c, c', id);
    GrownForced(c, c', id);
    GrownRequires(c, c', id);
    GrownIds(c, c', id, n);
    GrownLater(c, c', id);
  }

  lemma CheckedQuiet(c: Ctx, c': Ctx, id: Id, n: nat)
    requires Inv(c) && ForcedUpTo(c, {}) && RequiresRun(c, {id}) && IdsBelow(c, n) && LinksEnabled(c, {})
    requires c.enabling == {} && c.defined == c.emitComplete && id in c.inited && id.Named?
    requires Inv(c') && SettledExcept(c', {}) && Cascade(c, c') && c'.forced == c.forced
    ensures Quiet(c') && Later(c, c') && IdsBelow(c', n) && c'.inited == c.inited
  {
    hide TablesOk, DepsOk, MatchedOk, CountsOk, LinksOk, ListenersOk, HandlersOk, UsesOk, ExportsOk, ExportedOk,
         OrderOk, ForcedOk, HandedOk, RootsOk, SettledExcept, LinksEnabled, ForcedUpTo;
    CalmChecked(c, c');
    CascadeForced(c, c', {});
    CascadeLater(c, c');
  }

  lemma EnabledRooted(c: Ctx, id: Id)
    requires RootsOk(c)
    ensures id in c.enabled ==> Rooted(c, id)
  {
  }

  /** A new module, before it is initialised. */
  lemma CreatedQuiet(c: Ctx, id: Id, n: nat)
    requires Quiet(c) && IdsBelow(c, n) && id !in c.deps && (id.Internal? ==> id.n < n)
    ensures var c' := Created(c, id);
            Calm(c') && ForcedUpTo(c', {}) && RequiresRun(c', {id}) && IdsBelow(c', n) && Later(c, c')
            && id in c'.deps && id !in c'.inited
  {
    hide DepsOk, MatchedOk, CountsOk, LinksOk, ListenersOk, HandlersOk, UsesOk, ExportsOk, ExportedOk, OrderOk,
         ForcedOk, HandedOk, RootsOk, SettledExcept, LinksEnabled, ForcedUpTo, RequiresRun, IdsBelow, Later;
    CreatedSteady(c, id);
    CreatedLater(c, id);
    CreatedForced(c, id);
    CreatedRuns(c, id, n);
  }

  lemma CreatedRuns(c: Ctx, id: Id, n: nat)
    requires RequiresRun(c, {}) && IdsBelow(c, n) && id !in c.deps && c.inited <= c.deps.Keys && (id.Internal? ==>
          id.n < n)
    ensures var c' := Created(c, id);
            RequiresRun(c', {id}) && IdsBelow(c', n) && id in c'.deps && id !in c'.inited
  {
  }

  lemma CreatedForced(c: Ctx, id: Id)
    requires ForcedUpTo(c, {})
    ensures ForcedUpTo(Created(c, id), {})
  {
  }

  lemma ExistingQuiet(c: Ctx, id: Id)
    requires Quiet(c) && id in c.deps
    ensures Calm(c) && ForcedUpTo(c, {}) && RequiresRun(c, {id}) && Later(c, c)
    ensures id.Internal? && id in c.inited ==> id in c.enabled
  {
  }

  lemma IdUnused(c: Ctx, n: nat)
    requires IdsBelow(c, n) && TablesOk(c)
    ensures Internal(n) !in c.deps && IdsBelow(c, n + 1)
    ensures Internal(n) !in c.defined && Internal(n) !in c.inited
  {
  }

  lemma QuietIdUnused(c: Ctx, n: nat)
    requires IdsBelow(c, n) && Quiet(c)
    ensures Internal(n) !in c.deps && IdsBelow(c, n + 1)
    ensures Internal(n) !in c.defined && Internal(n) !in c.inited
  {
    hide DepsOk, MatchedOk, CountsOk, LinksOk, ListenersOk, HandlersOk, UsesOk, ExportsOk, ExportedOk, OrderOk,
         ForcedOk, HandedOk, RootsOk, SettledExcept, LinksEnabled, IdsBelow;
    IdUnused(c, n);
  }

  /** A module with an entry in the export table has been initialised. */
  lemma ExportedInited(c: Ctx, id: Id)
    requires Quiet(c)
    ensures id in c.exported ==> id in c.inited && id in c.deps && id in c.factory
    ensures id !in c.exported && id.Named? ==> id !in c.defined
  {
    hide MatchedOk, CountsOk, LinksOk, ListenersOk, HandlersOk, ExportsOk, OrderOk, ForcedOk, HandedOk, RootsOk,
         SettledExcept, LinksEnabled;
    if id in c.usingExports {
      assert id in c.deps;
      assert ExportsObject in c.deps[id];
    }
  }

  lemma CascadeIds(c: Ctx, c': Ctx, n: nat)
    requires Cascade(c, c') && IdsBelow(c, n)
    ensures IdsBelow(c', n)
  {
  }

  /** After every open `require` call has been walked, none is open. */
  lemma RootsOpen(c: Ctx, c': Ctx, reqCalls: seq<Id>)
    requires forall j :: 0 <= j < |reqCalls| ==> reqCalls[j] in c'.defined
    requires forall m :: m in c.enabledRegistry && m.Internal? ==> m in reqCalls
    requires Quiet(c) && Cascade(c, c') && Calm(c')
    ensures forall r :: r in c'.enabled && r.Internal? ==> r in c'.defined
  {
    hide DepsOk, MatchedOk, CountsOk, LinksOk, ListenersOk, HandlersOk, UsesOk, ExportsOk, ExportedOk, OrderOk,
         ForcedOk, HandedOk, RootsOk, SettledExcept, LinksEnabled;
    forall r | r in c'.enabled && r.Internal? ensures r in c'.defined {
      if r in c.enabledRegistry {
        assert r in reqCalls;
      }
    }
  }

  lemma RequireDone(c: Ctx, id: Id)
    requires Quiet(c) && id in c.inited && id.Internal?
    ensures id in c.enabled && c.enabled <= c.deps.Keys
  {
    hide DepsOk, MatchedOk, CountsOk, LinksOk, ListenersOk, HandlersOk, UsesOk, ExportsOk, ExportedOk, OrderOk,
         ForcedOk, HandedOk, RootsOk, SettledExcept, LinksEnabled;
  }
}
