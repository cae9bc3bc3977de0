/** What the invariant of the loader means: factories run once and after their dependencies, and a module of an
    acyclic graph is defined as soon as everything below it has been initialised. */
module LoaderTheorems {
  import opened LoaderState
  import opened LoaderSteps
  import opened LoaderCascade
  import opened LoaderCycles
  import opened LoaderEvents

  lemma OnCycleNotAcyclic(deps: map<Id, seq<Dep>>, s: Slot)
    requires OnCycle(deps, s)
    ensures !Acyclic(deps)
  {
    hide Reaches;
    assert Edge(deps, s.parent, Named(deps[s.parent][s.index].name));
  }

  /** Only an edge of a cycle is ever forced. */
  lemma AcyclicNeverForced(c: Ctx)
    requires Inv(c) && Acyclic(c.deps)
    ensures c.forced == {}
  {
    hide TablesOk, DepsOk, MatchedOk, CountsOk, LinksOk, ListenersOk, HandlersOk, UsesOk, ExportsOk, ExportedOk,
         OrderOk, RootsOk, Acyclic, OnCycle;
    forall s ensures s !in c.forced {
      if OnCycle(c.deps, s) {
        OnCycleNotAcyclic(c.deps, s);
      }
    }
  }

  /** In an acyclic graph a module is defined after everything it depends on. */
  lemma AcyclicInOrder(c: Ctx, k: nat, d: Id)
    requires Inv(c) && Acyclic(c.deps) && k < |c.order| && Edge(c.deps, c.order[k], d)
    ensures d in c.order[..k]
  {
    hide MatchedOk, CountsOk, LinksOk, ListenersOk, HandlersOk, UsesOk, ExportsOk, ExportedOk, ForcedOk, HandedOk,
         RootsOk, Acyclic;
    AcyclicNeverForced(c);
    var m := c.order[k];
    var i :| 0 <= i < |c.deps[m]| && c.deps[m][i] == OnModule(d.name);
    assert m in c.defined;
    assert Wired(c, c.order[k], i, d.name);
  }

  /** What a factory gets from its dependencies, for every graph: the final exports of a module defined before it, and
      across an edge of a cycle that was broken the exports object of the other module, if that asks for one. */
  lemma Arguments(c: Ctx, m: Id, i: nat)
    requires Inv(c) && m in c.defined && m in c.deps && i < |c.deps[m]| && c.deps[m][i].OnModule?
    ensures var d := Named(c.deps[m][i].name);
      if Slot(m, i) in c.forced then
        OnCycle(c.deps, Slot(m, i)) && d in c.inited && d in c.deps && Args(c, m)[i] == SoFar(d, c.deps[d])
      else d in c.defined && d in c.exports && Args(c, m)[i] == c.exports[d]
  {
    hide ListenersOk, HandlersOk, UsesOk, ExportsOk, ExportedOk, OrderOk, RootsOk, Reaches;
    if Slot(m, i) in c.forced {
      assert Handed(c, Slot(m, i));
      assert OnCycle(c.deps, Slot(m, i));
    } else {
      assert Wired(c, m, i, c.deps[m][i].name);
      assert i !in Pending(c, m);
    }
  }

  /** In an acyclic graph the factory of a module gets the final exports of its dependencies. */
  lemma AcyclicArguments(c: Ctx, m: Id, i: nat)
    requires Inv(c) && Acyclic(c.deps) && m in c.defined && m in c.deps
    requires i < |c.deps[m]| && c.deps[m][i].OnModule?
    ensures var d := Named(c.deps[m][i].name); d in c.defined && d in c.exports && Args(c, m)[i] == c.exports[d]
  {
    hide TablesOk, DepsOk, MatchedOk, CountsOk, LinksOk, ListenersOk, HandlersOk, UsesOk, ExportsOk, ExportedOk,
         OrderOk, ForcedOk, HandedOk, RootsOk, Acyclic, Args, OnCycle;
    AcyclicNeverForced(c);
    Arguments(c, m, i);
  }

  /** What was handed over early is what the module exports in the end if and only if its factory neither returns nor
      assigns anything else, whether the module asks for its exports object or not. */
  lemma EarlyIsFinal(c: Ctx, m: Id, i: nat)
    requires Inv(c) && m in c.defined && m in c.deps && i < |c.deps[m]| && c.deps[m][i].OnModule?
    requires Slot(m, i) in c.forced && Named(c.deps[m][i].name) in c.defined
    ensures var d := Named(c.deps[m][i].name);
      d in c.deps && d in c.factory && d in c.exports &&
      (Args(c, m)[i] == c.exports[d] <==>
        match c.factory[d]
        case NoFactory => ExportsObject !in c.deps[d]
        case Literal(_) => false
        case Callback(run) =>
          var reply := run(Args(c, d));
          var own := {Undefined, SoFar(d, c.deps[d])};
          reply.value in own && (ModuleObject in c.deps[d] ==> reply.moduleExports in own))
  {
    Arguments(c, m, i);
    DefinedExports(c, Named(c.deps[m][i].name));
    hide TablesOk, DepsOk, MatchedOk, CountsOk, LinksOk, ListenersOk, HandlersOk, UsesOk, ExportsOk, ExportedOk,
         OrderOk, ForcedOk, HandedOk, RootsOk, Args, OnCycle;
  }

  /** What stands for the handler names: the `require` and the `module` of the module itself, and its exports object,
      which the callback of a `require` call does not have. */
  lemma HandlerArguments(c: Ctx, m: Id, i: nat)
    requires Inv(c) && m in c.defined && m in c.deps && i < |c.deps[m]| && !c.deps[m][i].OnModule?
    ensures Args(c, m)[i] ==
      match c.deps[m][i]
      case RequireFn => RequireOf(m)
      case ModuleObject => ModuleOf(m)
      case ExportsObject => if m.Named? then ExportsOf(m) else Undefined
  {
    hide CountsOk, LinksOk, MatchedOk, ListenersOk, UsesOk, ExportsOk, ExportedOk, OrderOk, ForcedOk, HandedOk, RootsOk;
  }

  lemma DefinedExports(c: Ctx, m: Id)
    requires Inv(c) && m in c.defined
    ensures m in c.deps && m in c.factory && m in c.exports
    ensures c.exports[m] == Outcome(m, c.deps[m], c.factory[m], Args(c, m))
    ensures m.Named? ==> m in c.exported && c.exported[m] == c.exports[m]
  {
    hide DepsOk, CountsOk, LinksOk, MatchedOk, ListenersOk, HandlersOk, UsesOk, OrderOk, ForcedOk, HandedOk, RootsOk;
  }

  // ---------- what a module exports ----------

  /** What a module exports: a literal as it is; of a function what it assigns to `module.exports` unless that is the
      exports object, before what it returns, and that before the exports object, if the module asks for them. */
  lemma ExportsExactly(c: Ctx, m: Id)
    requires Inv(c) && m in c.defined
    ensures m in c.deps && m in c.factory && m in c.exports
    ensures c.factory[m].NoFactory? ==> c.exports[m] == Undefined
    ensures c.factory[m].Literal? ==> c.exports[m] == Lit(c.factory[m].tag)
    ensures c.factory[m].Callback? ==>
      var reply := c.factory[m].run(Args(c, m));
      var usesExports, usesModule := m.Named? && ExportsObject in c.deps[m], m.Named? && ModuleObject in c.deps[m];
      var assigns :=
        usesModule && reply.moduleExports != Undefined && !(usesExports && reply.moduleExports == ExportsOf(m));
      && (assigns ==> c.exports[m] == reply.moduleExports)
      && (!assigns && reply.value != Undefined ==> c.exports[m] == reply.value)
      && (!assigns && reply.value == Undefined && usesExports ==> c.exports[m] == ExportsOf(m))
      && (!assigns && reply.value == Undefined && !usesExports ==> c.exports[m] == Undefined)
  {
    DefinedExports(c, m);
    hide TablesOk, DepsOk, MatchedOk, CountsOk, LinksOk, ListenersOk, HandlersOk, UsesOk, ExportsOk, ExportedOk,
         OrderOk, ForcedOk, HandedOk, RootsOk, Args;
  }

  /** The function returns its argument number `i` and assigns nothing. */
  ghost predicate Returns(factory: Factory, i: nat) {
    factory.Callback? && forall args {:trigger factory.run(args)} :: i < |args| ==>
          factory.run(args) == Reply(args[i], Undefined)
  }

  /** In an acyclic graph a module, or the callback of a `require` call, that returns what it gets for a dependency
      exports what that dependency exports. */
  lemma PassesOn(c: Ctx, m: Id, i: nat)
    requires Inv(c) && Acyclic(c.deps) && m in c.defined && m in c.deps && m in c.factory
    requires i < |c.deps[m]| && c.deps[m][i].OnModule? && Returns(c.factory[m], i)
    ensures var d := Named(c.deps[m][i].name);
      d in c.defined && d in c.exports && m in c.exports && (c.exports[d] != Undefined ==> c.exports[m] == c.exports[d])
  {
    AcyclicArguments(c, m, i);
    ExportsExactly(c, m);
    hide TablesOk, DepsOk, MatchedOk, CountsOk, LinksOk, ListenersOk, HandlersOk, UsesOk, ExportsOk, ExportedOk,
         OrderOk, ForcedOk, HandedOk, RootsOk, Args, Acyclic;
    assert c.factory[m].run(Args(c, m)) == Reply(Args(c, m)[i], Undefined);
  }

  /** What the last module of a chain exports comes through to the first, however long the chain is. */
  lemma {:induction false} ChainPassesOn(c: Ctx, chain: seq<Id>, slots: seq<nat>)
    requires Inv(c) && Acyclic(c.deps) && |chain| == |slots| + 1 && chain[0] in c.defined
    requires forall k {:trigger slots[k]} :: 0 <= k < |slots| ==>
               && chain[k] in c.deps && chain[k] in c.factory && slots[k] < |c.deps[chain[k]]|
               && c.deps[chain[k]][slots[k]].OnModule? && chain[k + 1] == Named(c.deps[chain[k]][slots[k]].name)
               && Returns(c.factory[chain[k]], slots[k])
    ensures var last := chain[|slots|];
      && last in c.defined && last in c.exports && chain[0] in c.exports
      && (c.exports[last] != Undefined ==> c.exports[chain[0]] == c.exports[last])
    decreases |slots|
  {
    hide TablesOk, DepsOk, MatchedOk, CountsOk, LinksOk, ListenersOk, HandlersOk, UsesOk, ExportsOk, ExportedOk,
         OrderOk, ForcedOk, HandedOk, RootsOk, Acyclic, Returns;
    if slots == [] {
      DefinedExports(c, chain[0]);
    } else {
      PassesOn(c, chain[0], slots[0]);
      forall k | 0 <= k < |slots[1..]| ensures slots[1..][k] == slots[k + 1] && chain[1..][k] == chain[k + 1] {
      }
      ChainPassesOn(c, chain[1..], slots[1..]);
    }
  }

  lemma OrderDefined(c: Ctx, k: nat)
    requires Inv(c) && k < |c.order|
    ensures c.order[k] in c.defined
  {
    hide TablesOk, DepsOk, CountsOk, LinksOk, MatchedOk, ListenersOk, HandlersOk, UsesOk, ExportsOk, ExportedOk,
         ForcedOk, HandedOk, RootsOk;
    assert c.order[k] in c.order;
  }

  /** Everything below a `require` call is enabled. */
  lemma EnabledIsReachable(c: Ctx, r: Id, m: Id)
    requires Quiet(c) && r in c.deps && r.Internal? && Reaches(c.deps, r, m)
    ensures m in c.enabled
  {
    hide Quiet;
    var p :| Path(c.deps, p) && p[0] == r && p[|p| - 1] == m;
    PathEnabled(c, p, |p| - 1);
  }

  lemma EdgeEnabled(c: Ctx, a: Id, b: Id)
    requires Calm(c) && a in c.enabled && Edge(c.deps, a, b)
    ensures b in c.enabled
  {
    hide DepsOk, MatchedOk, CountsOk, LinksOk, ListenersOk, HandlersOk, UsesOk, ExportsOk, ExportedOk, OrderOk,
         ForcedOk, HandedOk, RootsOk, SettledExcept;
    var i :| 0 <= i < |c.deps[a]| && c.deps[a][i] == OnModule(b.name);
    AllWired(c, a, i);
  }

  lemma {:induction false} PathEnabled(c: Ctx, p: seq<Id>, k: nat)
    requires Quiet(c) && Path(c.deps, p) && p[0] in c.deps && p[0].Internal? && k < |p|
    ensures p[k] in c.enabled
  {
    hide Calm, ForcedUpTo;
    if k > 0 {
      PathEnabled(c, p, k - 1);
      PathStep(c, p, k - 1);
      EdgeEnabled(c, p[k - 1], p[k]);
    }
  }

  /** Nothing waits for a script and every `require` call has been answered. */
  ghost predicate Finished(c: Ctx) {
    Quiet(c) && c.enabledRegistry == {}
  }

  lemma FinishedDefined(c: Ctx)
    requires Finished(c)
    ensures c.defined == c.enabled
  {
    hide DepsOk, MatchedOk, CountsOk, LinksOk, ListenersOk, HandlersOk, UsesOk, ExportsOk, ExportedOk, OrderOk,
         ForcedOk, HandedOk, RootsOk, SettledExcept, LinksEnabled;
    forall m | m in c.enabled ensures m in c.defined {
      assert m !in c.enabledRegistry;
    }
  }

  // ---------- what a module waits for ----------

  /** An enabled module that could be defined but is not waits for another enabled one. */
  lemma WaitsFor(c: Ctx, m: Id) returns (d: Id)
    requires Calm(c) && m in c.enabled && m in c.inited && m !in c.defined
    ensures Edge(c.deps, m, d) && d in c.enabled && d !in c.defined
  {
    hide MatchedOk, ListenersOk, HandlersOk, UsesOk, ExportsOk, ExportedOk, OrderOk, ForcedOk, HandedOk, RootsOk,
         SettledExcept, LinksEnabled;
    assert exists i :: i in Pending(c, m) by {
      SettledOne(c, m);
      assert |Pending(c, m)| >= 1;
    }
    var i :| i in Pending(c, m);
    SettledOne(c, m);
    AllWired(c, m, i);
    d := Named(c.deps[m][i].name);
    EdgeEnabled(c, m, d);
    assert Wired(c, m, i, c.deps[m][i].name);
  }

  lemma SettledOne(c: Ctx, m: Id)
    requires Calm(c) && m in c.enabled && m in c.inited && m !in c.defined
    ensures m in c.deps && c.mapped[m] == |c.deps[m]| && c.depCount[m] >= 1
  {
    hide DepsOk, CountsOk, LinksOk, MatchedOk, ListenersOk, HandlersOk, UsesOk, ExportsOk, ExportedOk, OrderOk,
         ForcedOk, HandedOk, RootsOk, LinksEnabled;
    assert Settled(c, m);
  }

  /** In an acyclic graph waiting leads to a module that has not been initialised. */
  lemma {:induction false} WaitsForScript(c: Ctx, stack: set<Id>, m: Id) returns (e: Id)
    requires Calm(c) && Acyclic(c.deps) && LeadTo(c, stack, m) && stack <= c.enabled
    requires m in c.enabled && m !in stack && m !in c.defined
    ensures Reaches(c.deps, m, e) && e in c.enabled && e !in c.inited
    decreases |c.enabled - stack|
  {
    hide Calm, Edge, Path, Acyclic, Reaches, LeadTo;
    ReachesRefl(c.deps, m);
    e := m;
    if m in c.inited {
      var d := WaitsFor(c, m);
      LeadSelf(c, stack, m);
      LeadOn(c, stack + {m}, m, d);
      NoBackEdge(c, stack + {m}, m, d);
      assert m in c.enabled - stack;
      SubsetSize(c.enabled - (stack + {m}), c.enabled - stack);
      e := WaitsForScript(c, stack + {m}, d);
      StepReaches(c.deps, m, d, e);
    }
  }

  lemma NoBackEdge(c: Ctx, stack: set<Id>, m: Id, d: Id)
    requires Acyclic(c.deps) && LeadTo(c, stack, m) && Edge(c.deps, m, d)
    ensures d !in stack
  {
    hide Reaches, Edge;
  }

  lemma StepReaches(deps: map<Id, seq<Dep>>, a: Id, b: Id, d: Id)
    requires Edge(deps, a, b) && Reaches(deps, b, d)
    ensures Reaches(deps, a, d)
  {
    hide Edge;
    var p :| Path(deps, p) && p[0] == b && p[|p| - 1] == d;
    var q := [a] + p;
    forall k | 0 <= k < |q| - 1 ensures Edge(deps, q[k], q[k + 1]) {
      if k > 0 {
        var j := k - 1;
        assert Edge(deps, p[j], p[j + 1]);
      }
    }
    assert Path(deps, q) && q[0] == a && q[|q| - 1] == d;
  }

  /** In an acyclic graph an enabled module is defined as soon as everything it reaches has been initialised,
      and not before, whatever else still waits. */
  lemma DefinedExactly(c: Ctx, m: Id)
    requires Quiet(c) && Acyclic(c.deps) && m in c.enabled
    ensures m in c.defined <==> forall e {:trigger Reaches(c.deps, m, e)} :: Reaches(c.deps, m, e) ==> e in c.inited
  {
    hide Reaches, Acyclic, ForcedUpTo, RequiresRun, DepsOk, MatchedOk, CountsOk, LinksOk, ListenersOk, HandlersOk,
         UsesOk, ExportsOk, ExportedOk, OrderOk, ForcedOk, HandedOk, RootsOk, SettledExcept, LinksEnabled;
    if m in c.defined {
      forall e | Reaches(c.deps, m, e) ensures e in c.inited {
        ReachedDefined(c, m, e);
      }
    } else {
      var e := WaitsForScript(c, {}, m);
    }
  }

  /** As many factories have run as modules are defined. */
  lemma RunsAreDefinitions(c: Ctx)
    requires Inv(c)
    ensures |c.order| == |c.defined|
  {
    hide TablesOk, DepsOk, CountsOk, LinksOk, MatchedOk, ListenersOk, HandlersOk, UsesOk, ExportsOk, ExportedOk,
         ForcedOk, HandedOk, RootsOk;
    DistinctSize(c.order);
    assert c.defined == set m | m in c.order;
  }

  lemma {:induction false} DistinctSize<T>(s: seq<T>)
    requires forall j, k :: 0 <= j < k < |s| ==> s[j] != s[k]
    ensures |set x | x in s| == |s|
  {
    if s != [] {
      var n := |s| - 1;
      DistinctSize(s[..n]);
      assert (set x | x in s) == (set x | x in s[..n]) + {s[n]};
      assert s[n] !in s[..n];
    }
  }
}
