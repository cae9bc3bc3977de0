/** Two loaders agree: in an acyclic graph neither the modules that are defined nor what they export depend on
    the order in which the calls were made and the scripts arrived. */
module LoaderAgreement {
  import opened LoaderState
  import opened LoaderCycles
  import opened LoaderEvents
  import opened LoaderScripts
  import opened LoaderTheorems

  /** Two loaders that were given the same declarations for the named modules both have.  The ids of `require`
      calls are numbers in the order of the calls, so they are not compared. */
  ghost predicate SameDeclarations(a: Ctx, b: Ctx) {
    forall n {:trigger Named(n) in a.inited} {:trigger Named(n) in b.inited} ::
          Named(n) in a.inited && Named(n) in b.inited ==>
      SameRow(a, Named(n), b, Named(n))
  }

  ghost predicate SameRow(a: Ctx, m: Id, b: Ctx, m': Id) {
    m in a.deps && m' in b.deps && m in a.factory && m' in b.factory
    && a.deps[m] == b.deps[m'] && a.factory[m] == b.factory[m']
  }

  lemma SameSymmetric(a: Ctx, b: Ctx)
    requires SameDeclarations(a, b)
    ensures SameDeclarations(b, a)
  {
    forall n | Named(n) in a.inited && Named(n) in b.inited ensures SameRow(b, Named(n), a, Named(n)) {
      assert SameRow(a, Named(n), b, Named(n));
    }
  }

  lemma DefinedInited(c: Ctx, m: Id)
    requires Inv(c) && m in c.defined
    ensures m in c.inited
  {
    hide DepsOk, CountsOk, LinksOk, MatchedOk, ListenersOk, HandlersOk, UsesOk, ExportsOk, ExportedOk, OrderOk,
         ForcedOk, HandedOk, RootsOk;
  }

  /** The exports of a module are determined by the declarations alone, whatever order the scripts arrived in,
      also when the two loaders have got differently far. */
  lemma {:induction false} SameExports(a: Ctx, b: Ctx, k: nat)
    requires Inv(a) && Inv(b) && Acyclic(a.deps) && Acyclic(b.deps) && SameDeclarations(a, b)
    requires k < |a.order| && a.order[k] in b.defined && a.order[k].Named?
    ensures a.order[k] in a.exports && a.order[k] in b.exports && a.exports[a.order[k]] == b.exports[a.order[k]]
    decreases k
  {
    hide Inv, Acyclic;
    var m := a.order[k];
    OrderDefined(a, k);
    DefinedInited(a, m);
    DefinedInited(b, m);
    assert SameRow(a, m, b, m);
    DefinedExports(a, m);
    DefinedExports(b, m);
    forall i | 0 <= i < |a.deps[m]| ensures Args(a, m)[i] == Args(b, m)[i] {
      if a.deps[m][i].OnModule? {
        var d := Named(a.deps[m][i].name);
        AcyclicArguments(a, m, i);
        AcyclicArguments(b, m, i);
        assert Edge(a.deps, m, d);
        AcyclicInOrder(a, k, d);
        var j :| 0 <= j < k && a.order[j] == d;
        SameExports(a, b, j);
      } else {
        HandlerArguments(a, m, i);
        HandlerArguments(b, m, i);
      }
    }
    assert Args(a, m) == Args(b, m);
  }

  lemma SameExportsOf(a: Ctx, b: Ctx, m: Id)
    requires Inv(a) && Inv(b) && Acyclic(a.deps) && Acyclic(b.deps) && SameDeclarations(a, b)
    requires m in a.defined && m in b.defined && m.Named?
    ensures m in a.exports && m in b.exports && a.exports[m] == b.exports[m]
  {
    hide TablesOk, DepsOk, CountsOk, LinksOk, MatchedOk, ListenersOk, HandlersOk, UsesOk, ExportsOk, ExportedOk,
         ForcedOk, HandedOk, RootsOk, Acyclic, SameDeclarations;
    assert m in a.order;
    var k :| 0 <= k < |a.order| && a.order[k] == m;
    SameExports(a, b, k);
  }

  // ---------- the same calls ----------

  /** Every `require` call of `a` was also made to `b`. */
  ghost predicate CallsIn(a: Ctx, b: Ctx) {
    forall r {:trigger r in a.enabled} :: r in a.enabled && r.Internal? && r in a.deps ==>
      exists r': Id {:trigger r' in b.deps} :: r'.Internal? && r' in b.deps && SameRow(a, r, b, r')
  }

  lemma DepsStep(a: Ctx, x: Id, b: Ctx, x': Id, d: Id)
    requires Edge(a.deps, x, d) && SameRow(a, x, b, x')
    ensures Edge(b.deps, x', d)
  {
  }

  lemma FinishedInited(c: Ctx, m: Id)
    requires Finished(c) && m in c.enabled
    ensures m in c.inited && m in c.deps
  {
    FinishedDefined(c);
    hide DepsOk, CountsOk, LinksOk, MatchedOk, ListenersOk, HandlersOk, UsesOk, ExportsOk, ExportedOk, OrderOk,
         ForcedOk, HandedOk, RootsOk, SettledExcept, LinksEnabled;
  }

  /** What lies on a path below a call is enabled by the same call of the other loader. */
  lemma {:induction false} PathShared(a: Ctx, b: Ctx, p: seq<Id>, k: nat, r: Id)
    requires Finished(a) && Finished(b) && SameDeclarations(a, b)
    requires Path(a.deps, p) && p[0] in a.enabled && p[0].Internal? && k < |p| && k > 0
    requires r.Internal? && r in b.deps && SameRow(a, p[0], b, r)
    ensures p[k].Named? && p[k] in a.enabled && p[k] in b.enabled
  {
    hide Finished, SameDeclarations, SameRow;
    PathStep(a, p, k - 1);
    if k == 1 {
      DepsStep(a, p[0], b, r, p[1]);
      CallEnabled(a, p[0], p[1]);
      CallEnabled(b, r, p[1]);
    } else {
      PathShared(a, b, p, k - 1, r);
      FinishedInited(a, p[k - 1]);
      FinishedInited(b, p[k - 1]);
      SharedRow(a, b, p[k - 1]);
      DepsStep(a, p[k - 1], b, p[k - 1], p[k]);
      FinishedEdge(a, p[k - 1], p[k]);
      FinishedEdge(b, p[k - 1], p[k]);
    }
    assert Edge(a.deps, p[k - 1], p[k]);
  }

  lemma SharedRow(a: Ctx, b: Ctx, m: Id)
    requires SameDeclarations(a, b) && m.Named? && m in a.inited && m in b.inited
    ensures SameRow(a, m, b, m)
  {
    hide SameRow;
    assert Named(m.name) == m;
  }

  lemma FinishedEdge(c: Ctx, a: Id, b: Id)
    requires Finished(c) && a in c.enabled && Edge(c.deps, a, b)
    ensures b in c.enabled
  {
    hide Calm, ForcedUpTo, RequiresRun, Edge;
    EdgeEnabled(c, a, b);
  }

  lemma CallEnabled(c: Ctx, r: Id, b: Id)
    requires Finished(c) && r.Internal? && r in c.deps && Edge(c.deps, r, b)
    ensures b in c.enabled
  {
    hide Calm, ForcedUpTo, Edge;
    EdgeEnabled(c, r, b);
  }

  lemma SharedEnabled(a: Ctx, b: Ctx, m: Id)
    requires Finished(a) && Finished(b) && SameDeclarations(a, b) && CallsIn(a, b) && m in a.defined && m.Named?
    ensures m in b.defined
  {
    hide TablesOk, DepsOk, MatchedOk, CountsOk, LinksOk, ListenersOk, HandlersOk, UsesOk, ExportsOk, ExportedOk,
         OrderOk, ForcedOk, HandedOk, SettledExcept, LinksEnabled, SameDeclarations, SameRow, Edge, ForcedUpTo,
           RequiresRun;
    FinishedDefined(a);
    FinishedDefined(b);
    assert Rooted(a, m);
    var r :| r in a.enabled && r.Internal? && Reaches(a.deps, r, m);
    FinishedInited(a, r);
    var r': Id :| r'.Internal? && r' in b.deps && SameRow(a, r, b, r');
    var p :| Path(a.deps, p) && p[0] == r && p[|p| - 1] == m;
    PathShared(a, b, p, |p| - 1, r');
  }

  /** Two finished loaders to which the same calls were made, in whatever order, and which were given the same
      acyclic declarations, in whatever order, define the same modules with the same exports. */
  lemma ArrivalOrderIrrelevant(a: Ctx, b: Ctx, m: Id)
    requires Finished(a) && Finished(b) && SameDeclarations(a, b) && CallsIn(a, b) && CallsIn(b, a)
    requires Acyclic(a.deps) && Acyclic(b.deps) && m.Named?
    ensures m in a.defined <==> m in b.defined
    ensures m in a.defined ==> m in a.exports && m in b.exports && a.exports[m] == b.exports[m]
  {
    hide TablesOk, DepsOk, MatchedOk, CountsOk, LinksOk, ListenersOk, HandlersOk, UsesOk, ExportsOk, ExportedOk,
         OrderOk, ForcedOk, HandedOk, RootsOk, SettledExcept, LinksEnabled, Acyclic, ForcedUpTo, RequiresRun, SameRow,
         CallsIn,
         SameDeclarations;
    SameSymmetric(a, b);
    if m in a.defined { SharedEnabled(a, b, m); }
    if m in b.defined { SharedEnabled(b, a, m); }
    if m in a.defined { SameExportsOf(a, b, m); }
  }

  /** Calls with the same dependencies are answered with the same modules. */
  lemma SameAnswers(a: Ctx, b: Ctx, r: Id, r': Id, i: nat)
    requires Finished(a) && Finished(b) && SameDeclarations(a, b) && Acyclic(a.deps) && Acyclic(b.deps)
    requires r in a.defined && r' in b.defined && SameRow(a, r, b, r') && i < |a.deps[r]| && a.deps[r][i].OnModule?
    ensures Args(a, r)[i] == Args(b, r')[i]
  {
    hide TablesOk, DepsOk, MatchedOk, CountsOk, LinksOk, ListenersOk, HandlersOk, UsesOk, ExportsOk, ExportedOk,
         OrderOk, ForcedOk, HandedOk, RootsOk, SettledExcept, LinksEnabled, Acyclic, ForcedUpTo, RequiresRun,
           SameDeclarations;
    AcyclicArguments(a, r, i);
    AcyclicArguments(b, r', i);
    SameExportsOf(a, b, Named(a.deps[r][i].name));
  }

  // ---------- the same events ----------

  /** No two scripts of the run offer different declarations for a module. */
  ghost predicate Consistent(events: seq<Event>) {
    forall d, e {:trigger Offered(events, d), Offered(events, e)} ::
          Offered(events, d) && Offered(events, e) && d.name == e.name ==>
      d.deps == e.deps && d.factory == e.factory
  }

  lemma OfferedShared(events: seq<Event>, events': seq<Event>, d: Definition)
    requires Offered(events, d) && forall e :: e in events ==> e in events'
    ensures Offered(events', d)
  {
    hide Offers;
    var k :| 0 <= k < |events| && events[k].ScriptLoaded? && d in Offers(events[k].moduleName, events[k].queue);
    assert events[k] in events';
    var j :| 0 <= j < |events'| && events'[j] == events[k];
  }

  lemma EventsDeclare(a: Ctx, b: Ctx, events: seq<Event>, events': seq<Event>)
    requires FromOffers(EMPTY, a, events) && FromOffers(EMPTY, b, events') && Consistent(events)
    requires forall e :: e in events' ==> e in events
    ensures SameDeclarations(a, b)
  {
    hide Offered, Offers, Has, SameRow;
    forall n | Named(n) in a.inited && Named(n) in b.inited ensures SameRow(a, Named(n), b, Named(n)) {
      var d :| Offered(events, d) && d.name == n && Has(a, Named(n), d.deps, d.factory);
      var e :| Offered(events', e) && e.name == n && Has(b, Named(n), e.deps, e.factory);
      OfferedShared(events', events, e);
      RowsHave(a, Named(n), b, Named(n), d.deps, d.factory);
    }
  }

  lemma RowsHave(a: Ctx, m: Id, b: Ctx, m': Id, ds: seq<Dep>, f: Factory)
    requires Has(a, m, ds, f) && Has(b, m', ds, f)
    ensures SameRow(a, m, b, m')
  {
  }

  lemma EventsCall(a: Ctx, b: Ctx, events: seq<Event>, events': seq<Event>)
    requires CallsMade(EMPTY, a, 0, Calls(events)) && CallsMade(EMPTY, b, 0, Calls(events'))
    requires forall e :: e in events ==> e in events'
    requires RequiresRun(a, {})
    ensures CallsIn(a, b)
  {
    hide Calls, SameRow;
    forall r | r in a.enabled && r.Internal? && r in a.deps
      ensures exists r': Id {:trigger r' in b.deps} :: r'.Internal? && r' in b.deps && SameRow(a, r, b, r')
    {
      assert r == Internal(r.n) && r in a.inited;
      var call := Calls(events)[r.n];
      assert MadeAs(a, 0, Calls(events), r.n);
      assert call in events;
      assert call in Calls(events');
      var k :| 0 <= k < |Calls(events')| && Calls(events')[k] == call;
      assert MadeAs(b, 0, Calls(events'), k);
      RowsHave(a, r, b, Internal(k), call.deps, call.callback);
      assert Internal(k) in b.deps;
    }
  }

  /** Two loaders that started empty and saw the same events in any order: once both are finished they have
      defined the same modules with the same exports. */
  lemma EventOrderIrrelevant(a: Ctx, b: Ctx, events: seq<Event>, events': seq<Event>, m: Id)
    requires Reflects(EMPTY, a, 0, events) && Reflects(EMPTY, b, 0, events')
    requires forall e :: e in events <==> e in events'
    requires Finished(a) && Finished(b) && Consistent(events) && Acyclic(a.deps) && Acyclic(b.deps) && m.Named?
    ensures m in a.defined <==> m in b.defined
    ensures m in a.defined ==> m in a.exports && m in b.exports && a.exports[m] == b.exports[m]
  {
    hide Calm, ForcedUpTo, RequiresRun, Acyclic, Consistent, CallsMade, FromOffers, Offered, Calls, SameDeclarations,
         CallsIn;
    EventsDeclare(a, b, events, events');
    EventsCall(a, b, events, events');
    EventsCall(b, a, events', events);
    ArrivalOrderIrrelevant(a, b, m);
  }
}
