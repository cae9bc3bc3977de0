/** Breaking cycles: what a depth-first walk relies on at each slot, and what the end of it means. */
module LoaderCycles {
  import opened LoaderState
  import opened LoaderSteps
  import opened LoaderCascade
  import opened LoaderEnable

  /** Steady, and nothing is in the middle of anything. */
  ghost predicate Calm(c: Ctx) {
    Steady(c) && c.enabling == {} && c.emitComplete == c.defined
  }

  /** A set of enabled, initialised modules that is closed under dependencies. */
  ghost predicate Region(c: Ctx, region: set<Id>) {
    && region <= c.enabled * c.inited
    && (forall m, d {:trigger Edge(c.deps, m, Named(d))} :: m in region && Edge(c.deps, m, Named(d)) ==>
            Named(d) in region)
  }

  /** Every module on the stack leads to `id`. */
  ghost predicate LeadTo(c: Ctx, stack: set<Id>, id: Id) {
    forall x {:trigger x in stack} :: x in stack ==> Reaches(c.deps, x, id)
  }

  lemma LeadOn(c: Ctx, stack: set<Id>, id: Id, d: Id)
    requires LeadTo(c, stack, id) && Edge(c.deps, id, d)
    ensures LeadTo(c, stack, d)
  {
    forall x | x in stack ensures Reaches(c.deps, x, d) { ReachesStep(c.deps, x, id, d); }
  }

  lemma LeadSelf(c: Ctx, stack: set<Id>, id: Id)
    requires LeadTo(c, stack, id)
    ensures LeadTo(c, stack + {id}, id)
  {
    ReachesRefl(c.deps, id);
  }

  lemma CalmCascade(c: Ctx, c': Ctx)
    requires Calm(c) && Cascade(c, c') && Inv(c') && SettledExcept(c', {})
    ensures Calm(c')
  {
    hide DepsOk, MatchedOk, CountsOk, LinksOk, ListenersOk, HandlersOk, UsesOk, ExportsOk, ExportedOk, OrderOk,
         ForcedOk, HandedOk, RootsOk, SettledExcept;
    CascadeLinks(c, c', {});
    assert InProgress(c) == {};
    assert c'.defined <= c'.emitComplete by {
      assert InProgress(c') == {};
      forall m | m in c'.defined ensures m in c'.emitComplete {
        assert m !in InProgress(c');
      }
    }
  }

  lemma RegionCascade(c: Ctx, c': Ctx, region: set<Id>)
    requires Region(c, region) && Cascade(c, c')
    ensures Region(c', region)
  {
  }

  /** Every dependency of a calm, enabled module is wired. */
  lemma AllWired(c: Ctx, id: Id, i: nat)
    requires Calm(c) && id in c.enabled && i < |c.deps[id]| && c.deps[id][i].OnModule?
    ensures Wired(c, id, i, c.deps[id][i].name) && Named(c.deps[id][i].name) in c.deps
    ensures Edge(c.deps, id, Named(c.deps[id][i].name))
  {
    hide MatchedOk, CountsOk, ListenersOk, HandlersOk, UsesOk, ExportsOk, ExportedOk, OrderOk, ForcedOk, HandedOk,
         RootsOk;
    assert Settled(c, id);
  }

  /** The slot of a defined dependency is filled. */
  lemma SlotDone(c: Ctx, id: Id, i: nat)
    requires Calm(c) && id in c.enabled && i < |c.deps[id]| && c.deps[id][i].OnModule?
    requires Named(c.deps[id][i].name) in c.defined
    ensures Slot(id, i) in c.depMatched
  {
    hide MatchedOk, CountsOk, ListenersOk, HandlersOk, UsesOk, ExportsOk, ExportedOk, OrderOk, ForcedOk, HandedOk,
         RootsOk;
    AllWired(c, id, i);
  }

  /** With all its slots filled, a calm module is defined. */
  lemma FilledDefined(c: Ctx, id: Id)
    requires Calm(c) && id in c.enabled && id in c.inited
    requires forall i :: 0 <= i < |c.deps[id]| && c.deps[id][i].OnModule? ==> Slot(id, i) in c.depMatched
    ensures id in c.defined
  {
    hide MatchedOk, LinksOk, ListenersOk, HandlersOk, UsesOk, ExportsOk, ExportedOk, OrderOk, ForcedOk, HandedOk,
         RootsOk;
    assert Settled(c, id);
    assert Pending(c, id) == {};
  }

  /** The entry in the table of exports is what the module exports so far. */
  lemma EntrySoFar(c: Ctx, d: Id)
    requires Calm(c) && d in c.enabled && d in c.inited && d !in c.defined && d.Named?
    ensures d in c.deps && (if d in c.exported then c.exported[d] else Undefined) == SoFar(d, c.deps[d])
  {
    hide MatchedOk, CountsOk, LinksOk, ListenersOk, HandlersOk, OrderOk, ForcedOk, HandedOk, RootsOk, LinksEnabled;
    assert Settled(c, d);
    assert c.deps[d][..c.mapped[d]] == c.deps[d];
    assert d in c.usingExports <==> ExportsObject in c.deps[d];
  }

  /** A forced slot holds what its module exported so far. */
  lemma ForcedValue(c: Ctx, s: Slot)
    requires Inv(c) && s in c.forced
    ensures Handed(c, s)
  {
    hide TablesOk, DepsOk, MatchedOk, CountsOk, LinksOk, ListenersOk, HandlersOk, UsesOk, ExportsOk, ExportedOk,
         OrderOk, ForcedOk, RootsOk, Handed;
  }

  lemma FilledForced(c: Ctx, slot: Slot, d: string, v: Value, stack: set<Id>)
    requires ForcedUpTo(c, stack) && slot.parent in c.depCount && Wired(c, slot.parent, slot.index, d)
    requires Named(d) in stack
    ensures ForcedUpTo(Filled(c, slot, v, true), stack)
  {
  }

  lemma ForcedPopped(c: Ctx, stack: set<Id>, id: Id)
    requires ForcedUpTo(c, stack + {id}) && id in c.defined
    ensures ForcedUpTo(c, stack)
  {
  }

  // ---------- what is below a defined module ----------

  lemma DepDefined(c: Ctx, m: Id, d: Id)
    requires Inv(c) && ForcedUpTo(c, {}) && m in c.defined && Edge(c.deps, m, d)
    ensures d in c.defined
  {
    hide MatchedOk, ListenersOk, HandlersOk, UsesOk, ExportsOk, ExportedOk, OrderOk, ForcedOk, HandedOk, RootsOk;
    var i :| 0 <= i < |c.deps[m]| && c.deps[m][i] == OnModule(d.name);
    assert Wired(c, m, i, d.name);
    assert Pending(c, m) == {};
    assert i !in Pending(c, m);
    assert Slot(m, i) in c.depMatched;
    assert Slot(m, i).parent == m && Slot(m, i).index == i;
  }

  lemma PathStep(c: Ctx, p: seq<Id>, k: nat)
    requires Path(c.deps, p) && k + 1 < |p|
    ensures Edge(c.deps, p[k], p[k + 1])
  {
  }

  lemma {:induction false} PathDefined(c: Ctx, p: seq<Id>, k: nat)
    requires Inv(c) && ForcedUpTo(c, {}) && Path(c.deps, p) && p[0] in c.defined && k < |p|
    ensures p[k] in c.defined
  {
    hide Inv, ForcedUpTo;
    if k > 0 {
      PathDefined(c, p, k - 1);
      PathStep(c, p, k - 1);
      DepDefined(c, p[k - 1], p[k]);
    }
  }

  lemma ReachedDefined(c: Ctx, r: Id, m: Id)
    requires Inv(c) && ForcedUpTo(c, {}) && r in c.defined && Reaches(c.deps, r, m)
    ensures m in c.defined
  {
    hide Inv, ForcedUpTo;
    var p :| Path(c.deps, p) && p[0] == r && p[|p| - 1] == m;
    PathDefined(c, p, |p| - 1);
  }

  /** When every enabled `require` call is defined, everything enabled is. */
  lemma RootsDefineAll(c: Ctx)
    requires Inv(c) && ForcedUpTo(c, {})
    requires forall r :: r in c.enabled && r.Internal? ==> r in c.defined
    ensures c.enabled == c.defined && c.enabledRegistry == {}
  {
    hide DepsOk, MatchedOk, CountsOk, LinksOk, ListenersOk, HandlersOk, UsesOk, ExportsOk, ExportedOk, OrderOk,
         ForcedOk, HandedOk, ForcedUpTo, Reaches;
    forall m | m in c.enabled ensures m in c.defined {
      assert Rooted(c, m);
      var r :| r in c.enabled && r.Internal? && Reaches(c.deps, r, m);
      ReachedDefined(c, r, m);
    }
  }

  // ---------- the ends of the walk ----------

  lemma LeadCascade(c: Ctx, c': Ctx, stack: set<Id>, id: Id)
    requires LeadTo(c, stack, id) && Cascade(c, c')
    ensures LeadTo(c', stack, id)
  {
  }

  lemma StartWalk(c: Ctx, region: set<Id>, stack: set<Id>, id: Id)
    requires Calm(c) && Region(c, region) && id in region && ForcedUpTo(c, stack) && LeadTo(c, stack, id)
    ensures id in c.deps && ForcedUpTo(c, stack + {id}) && LeadTo(c, stack + {id}, id)
  {
    hide DepsOk, MatchedOk, CountsOk, LinksOk, ListenersOk, HandlersOk, UsesOk, ExportsOk, ExportedOk, OrderOk,
         ForcedOk, HandedOk, RootsOk;
    LeadSelf(c, stack, id);
  }

  lemma EndWalk(c: Ctx, region: set<Id>, stack: set<Id>, id: Id)
    requires Calm(c) && Region(c, region) && id in region && id in c.deps && ForcedUpTo(c, stack + {id})
    requires forall i :: 0 <= i < |c.deps[id]| && c.deps[id][i].OnModule? ==> Slot(id, i) in c.depMatched
    ensures id in c.defined && ForcedUpTo(c, stack)
  {
    hide DepsOk, MatchedOk, CountsOk, LinksOk, ListenersOk, HandlersOk, UsesOk, ExportsOk, ExportedOk, OrderOk,
         ForcedOk, HandedOk, RootsOk;
    FilledDefined(c, id);
    ForcedPopped(c, stack, id);
  }

  /** What the walk needs to know about a dependency before it looks at it. */
  lemma SlotFacts(c: Ctx, region: set<Id>, stack: set<Id>, id: Id, i: nat)
    requires Calm(c) && Region(c, region) && id in region && id in c.deps && i < |c.deps[id]| && c.deps[id][i].OnModule?
    requires LeadTo(c, stack, id)
    ensures var dep := Named(c.deps[id][i].name);
            && id in c.enabled && dep in region && LeadTo(c, stack, dep)
            && dep in c.enabled && dep in c.inited && (dep in c.registry ==> dep !in c.defined)
            && (dep !in c.registry || dep in c.defined ==> Slot(id, i) in c.depMatched)
  {
    hide DepsOk, MatchedOk, CountsOk, LinksOk, ListenersOk, HandlersOk, UsesOk, ExportsOk, ExportedOk, OrderOk,
         ForcedOk, HandedOk, RootsOk;
    var dep := Named(c.deps[id][i].name);
    AllWired(c, id, i);
    LeadOn(c, stack, id, dep);
    if dep in c.defined {
      SlotDone(c, id, i);
    }
  }
}
