/** The module loader of RequireJS: a context whose methods change its state in place.

    The fields of the Module objects and the registries of the context are the tables of one record, `s`.  The
    recursive methods follow the calls in require.js: `Check` announces a definition to the listeners, which
    check themselves; `Enable` enables the dependencies first; `BreakCycle` walks the graph depth first. */
module ModuleLoader {
  import opened LoaderState
  import opened LoaderSteps
  import opened LoaderCascade
  import opened LoaderEnable
  import opened LoaderCycles
  import opened LoaderEvents
  import opened LoaderScripts

  class Context {
    var s: Ctx
    var defining: set<Id>
    var defineEmitted: set<Id>
    var requireCounter: nat
    var inCheckLoaded: bool

    /** Nothing is being defined, and every definition has been announced once. */
    ghost predicate Valid()
      reads this
    {
      defining == {} && defineEmitted == s.defined
    }

    constructor ()
      ensures Valid() && s == EMPTY && Quiet(s) && !inCheckLoaded && requireCounter == 0 && IdsBelow(s, requireCounter)
    {
      s := EMPTY;
      defining, defineEmitted, requireCounter, inCheckLoaded := {}, {}, 0, false;
      new;
      EmptyQuiet();
    }

    /** Fills a slot; because of cycles this can be asked for more than once. */
    method DefineDep(slot: Slot, v: Value, byForce: bool)
      requires slot.parent in s.depCount
      modifies this`s
      ensures s == if slot in old(s).depMatched then old(s) else Filled(old(s), slot, v, byForce)
    {
      if slot !in s.depMatched {
        s := s.(depMatched := s.depMatched + {slot},
                depCount := s.depCount[slot.parent := s.depCount[slot.parent] - 1],
                depExports := s.depExports[slot := v],
                forced := if byForce then s.forced + {slot} else s.forced);
      }
    }

    method Fetch(id: Id)
      modifies this`s
      ensures s == Fetched(old(s), id)
    {
      if id !in s.fetched {
        s := s.(fetched := s.fetched + {id});
      }
    }

    /** Runs the factory of a module that has all its dependencies. */
    method ExecCb(id: Id) returns (result: Value)
      requires TablesOk(s) && DepsOk(s) && UsesOk(s) && ExportsOk(s)
      requires id in s.deps && id !in s.defined && s.mapped[id] == |s.deps[id]|
      ensures result == Outcome(id, s.deps[id], s.factory[id], Args(s, id))
    {
      var args := Args(s, id);
      assert s.deps[id][..s.mapped[id]] == s.deps[id];
      match s.factory[id]
      case NoFactory => result := Undefined;
      case Literal(tag) => result := Lit(tag);
      case Callback(run) =>
        var reply := run(args);
        result := reply.value;
        if id.Named? {
          if ModuleObject in s.deps[id] && reply.moduleExports != Undefined && reply.moduleExports != s.exports[id] {
            result := reply.moduleExports;
          } else if result == Undefined && id in s.usingExports {
            result := s.exports[id];
          }
        }
    }

    /** The first half of `check`: defines the module. */
    method Define(id: Id)
      requires Inv(s) && id in s.enabled && id in s.inited && id !in s.enabling && id !in s.defined
      requires s.mapped[id] == |s.deps[id]|
      modifies this`s
      ensures s == Ran(old(s), id)
    {
      var result := ExecCb(id);
      s := s.(exports := s.exports[id := result],
              exported := if id.Named? then s.exported[id := result] else s.exported,
              registry := s.registry - {id}, enabledRegistry := s.enabledRegistry - {id},
              defined := s.defined + {id}, order := s.order + [id]);
    }

    /** Defines the module if it is ready, and announces it. */
    method Check(id: Id)
      requires Valid() && Inv(s) && SettledExcept(s, {id}) && id in s.deps
      requires id in s.enabled && id !in s.enabling ==> s.mapped[id] == |s.deps[id]|
      modifies this`s, this`defining, this`defineEmitted
      ensures Valid() && Inv(s) && SettledExcept(s, {})
      ensures Cascade(old(s), s) && s.forced == old(s).forced
      decreases |s.registry|, 0, 1
    {
      hide DepsOk, MatchedOk, CountsOk, LinksOk, ListenersOk, HandlersOk, UsesOk, ExportsOk, ExportedOk, OrderOk,
           ForcedOk, HandedOk, RootsOk;
      ghost var c := s;
      if id !in s.enabled || id in s.enabling {
        SettledAll(s, id);
        return;
      }
      if id !in s.inited {
        Fetch(id);
        FetchedKeepsInv(c, id);
        FetchedSettled(c, id);
        FetchedCascades(c, id);
      } else if id !in defining {
        CheckInited(id);
      }
    }

    /** The part of `Check` for an initialised module that is not being defined. */
    method CheckInited(id: Id)
      requires Valid() && Inv(s) && SettledExcept(s, {id}) && id in s.deps
      requires id in s.enabled && id !in s.enabling && id in s.inited && id !in defining && s.mapped[id] == |s.deps[id]|
      modifies this`s, this`defining, this`defineEmitted
      ensures Valid() && Inv(s) && SettledExcept(s, {})
      ensures Cascade(old(s), s) && s.forced == old(s).forced
      decreases |s.registry|, 0, 0
    {
      hide TablesOk, DepsOk, MatchedOk, CountsOk, LinksOk, ListenersOk, HandlersOk, UsesOk, ExportsOk, ExportedOk,
           OrderOk, ForcedOk, HandedOk, RootsOk, SettledExcept, Cascade, Ran;
      ghost var c := s;
      HasCount(c, id);
      defining := defining + {id};
      if s.depCount[id] < 1 && id !in s.defined {
        RanKeepsInv(s, id);
        RanReady(c, id);
        Define(id);
      } else {
        NotReadySettled(c, id);
        CascadeRefl(c);
      }
      defining := defining - {id};
      if id in s.defined && id !in defineEmitted {
        defineEmitted := defineEmitted + {id};
        Emit(c, id);
      }
    }

    lemma NotReadySettled(c: Ctx, id: Id)
      requires TablesOk(c) && SettledExcept(c, {id}) && id in c.deps && id in c.inited && c.mapped[id] == |c.deps[id]|
      requires c.depCount[id] >= 1 || id in c.defined
      ensures SettledExcept(c, {})
    {
      SettledAll(c, id);
    }

    lemma RanReady(c: Ctx, id: Id)
      requires TablesOk(c) && SettledExcept(c, {id}) && id in c.deps && id in c.inited && c.mapped[id] == |c.deps[id]|
      requires id in c.enabled && id !in c.defined && TablesOk(Ran(c, id))
      ensures SettledExcept(Ran(c, id), {}) && |Ran(c, id).registry| < |c.registry|
      ensures Ran(c, id).defined == c.defined + {id}
    {
      RanSettled(c, id);
      RanShrinks(c, id);
    }

    /** Sends the "defined" event of a module to its listeners. */
    method Emit(ghost c: Ctx, id: Id)
      requires Valid() && Inv(c) && id in c.deps && id !in c.defined
      requires s == Ran(c, id) && Inv(s) && SettledExcept(s, {})
      modifies this`s, this`defining, this`defineEmitted
      ensures Valid() && Inv(s) && SettledExcept(s, {})
      ensures Cascade(c, s) && s.forced == c.forced
      decreases |s.registry|, 2
    {
      hide TablesOk, DepsOk, MatchedOk, CountsOk, LinksOk, ListenersOk, HandlersOk, UsesOk, ExportsOk, ExportedOk,
           OrderOk, ForcedOk, HandedOk, RootsOk;
      ghost var start := s;
      RowOf(s, id);
      var listeners := s.listeners[id];
      var evt := s.exports[id];
      CascadeRefl(start);
      for k := 0 to |listeners|
        invariant Valid() && Inv(s) && SettledExcept(s, {})
        invariant Cascade(start, s) && s.forced == c.forced
        invariant forall j :: 0 <= j < k ==> listeners[j] in s.depMatched
      {
        RowOf(s, id);
        CascadeShrinks(start, s);
        ghost var before := s;
        Deliver(listeners[k], id, evt);
        CascadeTransitive(start, before, s);
      }
      AnnouncedKeepsInv(s, id);
      AnnouncedSettled(s, id, {});
      AnnouncedCascades(c, id, s);
      s := s.(emitComplete := s.emitComplete + {id});
    }

    /** The listener of one slot: fill the slot, then check its module. */
    method Deliver(slot: Slot, id: Id, evt: Value)
      requires Valid() && Inv(s) && SettledExcept(s, {})
      requires id in s.defined && id in s.deps && slot in s.listeners[id] && evt == s.exports[id]
      modifies this`s, this`defining, this`defineEmitted
      ensures Valid() && Inv(s) && SettledExcept(s, {})
      ensures Cascade(old(s), s) && s.forced == old(s).forced && slot in s.depMatched
      decreases |s.registry|, 1
    {
      hide TablesOk, DepsOk, MatchedOk, CountsOk, LinksOk, ListenersOk, HandlersOk, UsesOk, ExportsOk, ExportedOk,
           OrderOk, ForcedOk, HandedOk, RootsOk;
      ghost var c := s;
      ListenerWired(s, slot, id);
      DefineDep(slot, evt, false);
      if slot !in c.depMatched {
        FilledKeepsInv(c, slot, id.name, evt, false);
        FilledSettled(c, slot, evt, false);
        FilledCascades(c, slot, evt, false);
      } else {
        CascadeRefl(c);
        SettledWeaker(c, slot.parent);
      }
      ReadyToCheck(c, s, slot.parent);
      ghost var filled := s;
      Check(slot.parent);
      CascadeTransitive(c, filled, s);
    }

    // ---------- enabling ----------

    /** Finds the module, or puts a new one in the registry. */
    method GetModule(id: Id)
      requires TablesOk(s) && id !in s.defined
      modifies this`s
      ensures s == if id in old(s).deps then old(s) else Created(old(s), id)
    {
      if id !in s.registry {
        s := s.(deps := s.deps[id := []], factory := s.factory[id := NoFactory], mapped := s.mapped[id := 0],
                depCount := s.depCount[id := 0], listeners := s.listeners[id := []],
                exports := s.exports[id := Undefined], registry := s.registry + {id});
      }
    }

    /** Turns the next slot, a handler name, into its value. */
    method ResolveHandler(id: Id)
      requires NextHandler(s, id)
      modifies this`s
      ensures s == HandlerFilled(old(s), id)
    {
      var i := s.mapped[id];
      var d := s.deps[id][i];
      s := s.(mapped := s.mapped[id := i + 1], depExports := s.depExports[Slot(id, i) := Handled(id, d)]);
      if d.ExportsObject? {
        s := s.(usingExports := s.usingExports + {id});
        if id.Named? {
          s := s.(exports := s.exports[id := ExportsOf(id)], exported := s.exported[id := ExportsOf(id)]);
        }
      }
    }

    /** Fills the next slot with a module that is defined already. */
    method FillNow(id: Id, d: Id)
      requires id in s.mapped && id in s.depCount && d in s.listeners && d in s.exported && d in s.defined
      modifies this`s
      ensures s == SlotWired(old(s), id, d)
    {
      var slot := Slot(id, s.mapped[id]);
      s := s.(mapped := s.mapped[id := s.mapped[id] + 1], depMatched := s.depMatched + {slot},
              depExports := s.depExports[slot := s.exported[d]]);
    }

    /** Counts the next slot and puts its listener on a module that is not defined yet. */
    method Listen(id: Id, d: Id)
      requires id in s.mapped && id in s.depCount && d in s.listeners && d !in s.defined
      modifies this`s
      ensures s == SlotWired(old(s), id, d)
    {
      var slot := Slot(id, s.mapped[id]);
      s := s.(mapped := s.mapped[id := s.mapped[id] + 1], depCount := s.depCount[id := s.depCount[id] + 1],
              listeners := s.listeners[d := s.listeners[d] + [slot]]);
    }

    /** Wires the next slot to module `d`. */
    method On(id: Id, d: string, ghost universe: set<Id>)
      requires Steady(s) && id in s.enabling && s.mapped[id] < |s.deps[id]| && s.deps[id][s.mapped[id]] == OnModule(d)
      requires Within(s, universe)
      modifies this`s
      ensures Inv(s) && SettledExcept(s, {}) && LinksEnabled(s, {Named(d)}) && Grown(old(s), s, id)
      ensures s.enabled == old(s).enabled && s.defined == old(s).defined && Named(d) in s.deps
      ensures id in s.mapped && s.mapped[id] == old(s).mapped[id] + 1
      ensures Within(s, universe)
    {
      hide DepsOk, MatchedOk, CountsOk, LinksOk, ListenersOk, HandlersOk, UsesOk, ExportsOk, ExportedOk, OrderOk,
           ForcedOk, HandedOk, RootsOk;
      ghost var c := s;
      var dep := Named(d);
      OnTest(s, dep);
      assert OnModule(d) in s.deps[id];
      assert dep in universe;
      if dep in s.exported && (dep !in s.registry || dep in s.emitComplete) {
        NextSlot(s, id);
        WiredStep(s, id, d);
        WiredAdvances(s, id, d);
        FillNow(id, dep);
      } else {
        GetModule(dep);
        hide SettledExcept, LinksEnabled;
        CreatedStep(c, dep, id);
        NextSlot(s, id);
        WiredStep(s, id, d);
        WiredAdvances(s, id, d);
        ghost var created := s;
        Listen(id, dep);
        GrownTransitive(c, created, s, id);
      }
      WithinGrown(c, s, id, universe);
    }

    /** Enables the module and everything it depends on, then checks it. */
    method Enable(id: Id, ghost universe: set<Id>)
      requires Valid() && Inv(s) && SettledExcept(s, {id}) && LinksEnabled(s, {id}) && Within(s, universe)
      requires id in s.deps && id !in s.defined && id !in s.enabling && s.mapped[id] == 0
      requires id.Internal? || Rooted(s, id)
      modifies this`s, this`defining, this`defineEmitted
      ensures Valid() && Steady(s) && Grown(old(s), s, id) && id in s.enabled && Within(s, universe)
      decreases |ToEnable(s, universe, id)|, 3
    {
      hide TablesOk, DepsOk, MatchedOk, CountsOk, LinksOk, ListenersOk, HandlersOk, UsesOk, ExportsOk, ExportedOk,
           OrderOk, ForcedOk, HandedOk, RootsOk, SettledExcept, LinksEnabled, Grown, ToEnable, Within, Enabled;
      ghost var c := s;
      StartEnable(s, id);
      StartedEnable(s, id, universe);
      MarkEnabled(id);
      EnableDeps(id, universe);
      FinishEnable(c, id, universe);
    }

    method MarkEnabled(id: Id)
      modifies this`s
      ensures s == Enabled(old(s), id)
    {
      s := s.(enabled := s.enabled + {id}, enabledRegistry := s.enabledRegistry + {id}, enabling := s.enabling + {id});
    }

    method EnableDeps(id: Id, ghost universe: set<Id>)
      requires Valid() && Steady(s) && Within(s, universe) && id in s.enabling && id in s.enabled
      requires id in s.deps && id in s.mapped && s.mapped[id] == 0
      modifies this`s, this`defining, this`defineEmitted
      ensures Valid() && Steady(s) && Grown(old(s), s, id) && Within(s, universe)
      ensures id in s.deps && id in s.mapped && s.mapped[id] == |s.deps[id]|
      decreases |ToEnable(s, universe, id)|, 2
    {
      hide TablesOk, DepsOk, MatchedOk, CountsOk, LinksOk, ListenersOk, HandlersOk, UsesOk, ExportsOk, ExportedOk,
           OrderOk, ForcedOk, HandedOk, RootsOk, SettledExcept, LinksEnabled;
      ghost var start := s;
      var n := |s.deps[id]|;
      GrownRefl(start, id);
      for i := 0 to n
        invariant Valid() && Steady(s) && Grown(start, s, id) && Within(s, universe)
        invariant id in s.deps && |s.deps[id]| == n && id in s.mapped && s.mapped[id] == i
      {
        ghost var before := s;
        SubsetSize(ToEnable(s, universe, id), ToEnable(start, universe, id));
        EnableDep(id, universe);
        GrownTransitive(start, before, s, id);
      }
    }

    /** All dependencies are wired: the module may define itself now. */
    method FinishEnable(ghost c: Ctx, id: Id, ghost universe: set<Id>)
      requires Valid() && Steady(s) && Grown(Enabled(c, id), s, id) && Within(c, universe) && Within(s, universe)
      requires id !in c.enabling && id in s.deps && id in s.mapped && s.mapped[id] == |s.deps[id]|
      modifies this`s, this`defining, this`defineEmitted
      ensures Valid() && Steady(s) && Grown(c, s, id) && id in s.enabled && Within(s, universe)
    {
      hide TablesOk, DepsOk, MatchedOk, CountsOk, LinksOk, ListenersOk, HandlersOk, UsesOk, ExportsOk, ExportedOk,
           OrderOk, ForcedOk, HandedOk, RootsOk, SettledExcept, LinksEnabled;
      EndEnable(c, s, id);
      s := s.(enabling := s.enabling - {id});
      ghost var done := s;
      Check(id);
      CascadeLinks(done, s, {});
      CascadeGrows(done, s, id);
      GrownTransitive(c, done, s, id);
      WithinGrown(c, s, id, universe);
    }

    /** Wires the next dependency and enables its module if that is still to be done. */
    method EnableDep(id: Id, ghost universe: set<Id>)
      requires Valid() && Steady(s) && Within(s, universe)
      requires id in s.enabling && id in s.enabled && id in s.deps && id in s.mapped && s.mapped[id] < |s.deps[id]|
      modifies this`s, this`defining, this`defineEmitted
      ensures Valid() && Steady(s) && Grown(old(s), s, id) && Within(s, universe)
      ensures id in s.deps && s.deps[id] == old(s).deps[id] && id in s.mapped && s.mapped[id] == old(s).mapped[id] + 1
      decreases |ToEnable(s, universe, id)|, 1
    {
      hide TablesOk, DepsOk, MatchedOk, CountsOk, LinksOk, ListenersOk, HandlersOk, UsesOk, ExportsOk, ExportedOk,
           OrderOk, ForcedOk, HandedOk, RootsOk, SettledExcept, LinksEnabled;
      ghost var c := s;
      match s.deps[id][s.mapped[id]]
      case OnModule(d) =>
        On(id, d, universe);
        assert ToEnable(s, universe, id) == ToEnable(c, universe, id);
        EnableWired(c, id, d, universe);
      case _ =>
        NextSlot(s, id);
        HandlerStep(s, id);
        HandlerAdvances(s, id);
        ResolveHandler(id);
        WithinGrown(c, s, id, universe);
    }

    /** Enables the module that a slot has just been wired to, unless it is enabled or defined. */
    method EnableWired(ghost c: Ctx, id: Id, d: string, ghost universe: set<Id>)
      requires Valid() && Inv(s) && SettledExcept(s, {}) && LinksEnabled(s, {Named(d)}) && Within(s, universe)
      requires Grown(c, s, id) && id in s.enabled && id in s.deps && id in s.mapped && OnModule(d) in s.deps[id]
      requires Named(d) in s.deps
      modifies this`s, this`defining, this`defineEmitted
      ensures Valid() && Steady(s) && Grown(c, s, id) && Within(s, universe)
      ensures id in s.deps && s.deps[id] == old(s).deps[id] && id in s.mapped && s.mapped[id] == old(s).mapped[id]
      decreases |ToEnable(s, universe, id)|, 0
    {
      hide DepsOk, MatchedOk, CountsOk, LinksOk, ListenersOk, HandlersOk, UsesOk, ExportsOk, ExportedOk, OrderOk,
           ForcedOk, HandedOk, RootsOk;
      var dep := Named(d);
      ghost var wired := s;
      if dep in s.registry && dep !in s.enabled {
        ReadyToEnable(s, id, d);
        assert dep in universe;
        hide SettledExcept, LinksEnabled, Grown;
        ToEnableDrops(s, s, universe, id, dep);
        Enable(dep, universe);
        KeptRow(wired, s, dep, id);
        GrownSwap(wired, s, dep, id);
        GrownTransitive(c, wired, s, id);
      } else {
        LinksDone(s, dep);
      }
    }

    // ---------- breaking cycles ----------

    /** Walks the dependencies of the module depth first.  A slot whose module is still on the walk's stack
        gets the exports that module has so far; every other open slot is filled by defining its module. */
    method BreakCycle(id: Id, traced: set<Id>, processed: set<Id>, ghost region: set<Id>)
      returns (traced': set<Id>, processed': set<Id>)
      requires Valid() && Calm(s) && Region(s, region) && id in region && id !in traced
      requires processed <= traced <= region && processed <= s.defined
      requires ForcedUpTo(s, traced - processed) && LeadTo(s, traced - processed, id)
      modifies this`s, this`defining, this`defineEmitted
      ensures Valid() && Calm(s) && Cascade(old(s), s) && id in s.defined
      ensures traced + {id} <= traced' <= region && processed <= processed' <= traced' && processed' <= s.defined
      ensures traced' - processed' == traced - processed
      ensures ForcedUpTo(s, traced - processed)
      decreases |region - traced|, 0
    {
      hide TablesOk, DepsOk, MatchedOk, CountsOk, LinksOk, ListenersOk, HandlersOk, UsesOk, ExportsOk, ExportedOk,
           OrderOk, ForcedOk, HandedOk, RootsOk, SettledExcept, LinksEnabled, Calm, Region, LeadTo, ForcedUpTo;
      ghost var c := s;
      ghost var stack := traced - processed;
      StartWalk(s, region, stack, id);
      traced', processed' := traced + {id}, processed;
      assert traced' - processed' == stack + {id};
      SubsetSize(region - traced', region - traced);
      CascadeRefl(s);
      var n := |s.deps[id]|;
      for i := 0 to n
        invariant Valid() && Calm(s) && Region(s, region) && Cascade(c, s) && n == |s.deps[id]|
        invariant traced + {id} <= traced' <= region && processed <= processed' <= traced' && processed' <= s.defined
        invariant traced' - processed' == stack + {id}
        invariant ForcedUpTo(s, stack + {id}) && LeadTo(s, stack + {id}, id)
        invariant forall j :: 0 <= j < i && s.deps[id][j].OnModule? ==> Slot(id, j) in s.depMatched
      {
        ghost var before := s;
        SubsetSize(region - traced', region - traced);
        traced', processed' := BreakSlot(id, i, traced', processed', region);
        CascadeTransitive(c, before, s);
        RegionCascade(before, s, region);
        LeadCascade(before, s, stack + {id}, id);
      }
      EndWalk(s, region, stack, id);
      processed' := processed' + {id};
    }

    /** One dependency of the walk. */
    method BreakSlot(id: Id, i: nat, traced: set<Id>, processed: set<Id>, ghost region: set<Id>)
      returns (traced': set<Id>, processed': set<Id>)
      requires Valid() && Calm(s) && Region(s, region) && id in region && id in s.deps && i < |s.deps[id]|
      requires processed <= traced <= region && processed <= s.defined
      requires ForcedUpTo(s, traced - processed) && LeadTo(s, traced - processed, id)
      modifies this`s, this`defining, this`defineEmitted
      ensures Valid() && Calm(s) && Cascade(old(s), s)
      ensures s.deps[id][i].OnModule? ==> Slot(id, i) in s.depMatched
      ensures traced <= traced' <= region && processed <= processed' <= traced' && processed' <= s.defined
      ensures traced' - processed' == traced - processed
      ensures ForcedUpTo(s, traced - processed)
      decreases |region - traced|, 1
    {
      hide TablesOk, DepsOk, MatchedOk, CountsOk, LinksOk, ListenersOk, HandlersOk, UsesOk, ExportsOk, ExportedOk,
           OrderOk, ForcedOk, HandedOk, RootsOk, SettledExcept, LinksEnabled, Calm, Region, LeadTo, ForcedUpTo;
      traced', processed' := traced, processed;
      ghost var c := s;
      CascadeRefl(c);
      if s.deps[id][i].OnModule? {
        var dep := Named(s.deps[id][i].name);
        SlotFacts(s, region, traced - processed, id, i);
        if dep in s.registry && Slot(id, i) !in s.depMatched && dep !in processed {
          if dep in traced {
            Force(id, i, traced - processed);
          } else {
            traced', processed' := BreakCycle(dep, traced, processed, region);
            SlotDone(s, id, i);
          }
        }
      }
    }

    /** Hands over what the module on the stack exports so far: its exports object if it has asked for one. */
    method Force(id: Id, i: nat, ghost stack: set<Id>)
      requires Valid() && Calm(s) && id in s.enabled && id in s.deps && i < |s.deps[id]| && s.deps[id][i].OnModule?
      requires Slot(id, i) !in s.depMatched && Named(s.deps[id][i].name) in stack
      requires var dep := Named(s.deps[id][i].name); dep in s.enabled && dep in s.inited && dep !in s.defined
      requires ForcedUpTo(s, stack) && LeadTo(s, stack, id)
      modifies this`s, this`defining, this`defineEmitted
      ensures Valid() && Calm(s) && Cascade(old(s), s) && Slot(id, i) in s.depMatched && ForcedUpTo(s, stack)
      ensures s.forced == old(s).forced + {Slot(id, i)}
      ensures var dep := Named(old(s).deps[id][i].name);
              Slot(id, i) in s.depExports && dep in s.deps && s.depExports[Slot(id, i)] == SoFar(dep, s.deps[dep])
    {
      hide TablesOk, DepsOk, MatchedOk, CountsOk, LinksOk, ListenersOk, HandlersOk, UsesOk, ExportsOk, ExportedOk,
           OrderOk, ForcedOk, HandedOk, RootsOk, SettledExcept, LinksEnabled, ForcedUpTo;
      ghost var c := s;
      var dep := Named(s.deps[id][i].name);
      var slot := Slot(id, i);
      var value := if dep in s.exported then s.exported[dep] else Undefined;
      AllWired(c, id, i);
      RowOf(c, id);
      EntrySoFar(c, dep);
      FilledKeepsInv(c, slot, dep.name, value, true);
      FilledSettled(c, slot, value, true);
      FilledCascades(c, slot, value, true);
      FilledForced(c, slot, dep.name, value, stack);
      DefineDep(slot, value, true);
      ghost var filled := s;
      ReadyToCheck(c, s, id);
      Check(id);
      CascadeForced(filled, s, stack);
      CascadeTransitive(c, filled, s);
      CalmCascade(c, s);
      ForcedValue(s, slot);
    }

    // ---------- init and checkLoaded ----------

    /** Stores the dependencies and the factory of a module, once, and goes on with it. */
    method Init(id: Id, ds: seq<Dep>, f: Factory, enableIt: bool)
      requires Valid() && Calm(s) && ForcedUpTo(s, {}) && RequiresRun(s, {id}) && id in s.deps
      requires id.Internal? <==> enableIt
      requires id.Internal? && id in s.inited ==> id in s.enabled
      requires IdsBelow(s, requireCounter)
      modifies this`s, this`defining, this`defineEmitted
      ensures Valid() && Quiet(s) && Later(old(s), s) && IdsBelow(s, requireCounter)
      ensures s.inited == old(s).inited + {id} && id in s.deps && id in s.factory
      ensures id !in old(s).inited ==> Has(s, id, ds, f)
    {
      hide TablesOk, DepsOk, MatchedOk, CountsOk, LinksOk, ListenersOk, HandlersOk, UsesOk, ExportsOk, ExportedOk,
           OrderOk, ForcedOk, HandedOk, RootsOk, SettledExcept, LinksEnabled, ForcedUpTo, RequiresRun, IdsBelow;
      ghost var c := s;
      InitFacts(c, id);
      if id in s.inited {
        LaterRefl(s);
        return;
      }
      DeclaredStep(s, id, ds, f);
      DeclaredLater(s, id, ds, f);
      s := s.(deps := s.deps[id := ds], factory := s.factory[id := f], inited := s.inited + {id});
      ghost var declared := s;
      DeclaredIds(c, id, ds, f, requireCounter);
      if enableIt || id in s.enabled {
        EnabledRooted(s, id);
        UniverseWithin(s);
        Enable(id, Universe(s));
        EnabledQuiet(declared, s, id, requireCounter);
      } else {
        Check(id);
        CheckedQuiet(declared, s, id, requireCounter);
      }
      LaterTransitive(c, declared, s);
    }

    /** Looks at the enabled modules; unless one of them waits for its script, breaks the cycles below every
        `require` call that is still open. */
    method CheckLoaded()
      requires Valid() && Quiet(s) && !inCheckLoaded && IdsBelow(s, requireCounter)
      modifies this`s, this`defining, this`defineEmitted, this`inCheckLoaded
      ensures Valid() && Quiet(s) && !inCheckLoaded && IdsBelow(s, requireCounter) && Later(old(s), s)
      ensures Cascade(old(s), s)
      ensures Waiting(old(s)) ==> s == old(s)
      ensures !Waiting(s) ==> s.enabledRegistry == {} && s.enabled == s.defined
    {
      hide TablesOk, DepsOk, MatchedOk, CountsOk, LinksOk, ListenersOk, HandlersOk, UsesOk, ExportsOk, ExportedOk,
           OrderOk, ForcedOk, HandedOk, RootsOk, SettledExcept, LinksEnabled, ForcedUpTo, RequiresRun, IdsBelow;
      ghost var c := s;
      inCheckLoaded := true;
      CascadeRefl(c);
      LaterRefl(c);
      var reqCalls, needCycleCheck := Survey();
      if needCycleCheck {
        for k := 0 to |reqCalls|
          invariant Valid() && Calm(s) && ForcedUpTo(s, {}) && Cascade(c, s)
          invariant forall j :: 0 <= j < k ==> reqCalls[j] in s.defined
        {
          ghost var before := s;
          BreakAll(reqCalls[k], c);
          CascadeTransitive(c, before, s);
        }
        RootsOpen(c, s, reqCalls);
        RootsDefineAll(s);
        QuietCascade(c, s);
        CascadeLater(c, s);
        CascadeIds(c, s, requireCounter);
      }
      inCheckLoaded := false;
    }

    /** The open `require` calls, and whether no enabled module waits for its script. */
    method Survey() returns (reqCalls: seq<Id>, needCycleCheck: bool)
      requires Quiet(s)
      ensures needCycleCheck <==> !Waiting(s)
      ensures forall m :: m in reqCalls ==> m in s.enabled
      ensures forall m :: m in s.enabledRegistry && m.Internal? ==> m in reqCalls
    {
      hide DepsOk, MatchedOk, CountsOk, LinksOk, ListenersOk, HandlersOk, UsesOk, ExportsOk, ExportedOk, OrderOk,
           ForcedOk, HandedOk, RootsOk, SettledExcept, LinksEnabled, ForcedUpTo, RequiresRun;
      reqCalls, needCycleCheck := [], true;
      var todo := s.enabledRegistry;
      while todo != {}
        invariant todo <= s.enabledRegistry
        invariant forall m :: m in reqCalls ==> m in s.enabled
        invariant forall m :: m in s.enabledRegistry - todo && m.Internal? ==> m in reqCalls
        invariant needCycleCheck <==> forall m :: m in s.enabledRegistry - todo && m in s.fetched && m.Named? ==>
              m in s.inited
        decreases |todo|
      {
        var mod :| mod in todo;
        todo := todo - {mod};
        if !mod.Named? {
          reqCalls := reqCalls + [mod];
        }
        if mod !in s.inited && mod in s.fetched && mod.Named? {
          needCycleCheck := false;
        }
      }
      forall m | m in s.enabled && m !in s.inited ensures m in s.enabledRegistry && m in s.fetched && m.Named? {
        WaitingTest(s, m);
      }
    }

    method BreakAll(mod: Id, ghost c: Ctx)
      requires Valid() && Calm(s) && ForcedUpTo(s, {}) && Cascade(c, s) && !Waiting(c) && mod in c.enabled
      modifies this`s, this`defining, this`defineEmitted
      ensures Valid() && Calm(s) && ForcedUpTo(s, {}) && Cascade(old(s), s) && mod in s.defined
    {
      hide TablesOk, DepsOk, MatchedOk, CountsOk, LinksOk, ListenersOk, HandlersOk, UsesOk, ExportsOk, ExportedOk,
           OrderOk, ForcedOk, HandedOk, RootsOk, SettledExcept, LinksEnabled, ForcedUpTo;
      EnabledRegion(s);
      var none: set<Id> := {};
      assert none - none == none;
      var _, _ := BreakCycle(mod, none, none, s.enabled);
    }

    // ---------- the calls into the loader ----------

    /** `getModule` between two events. */
    method Register(id: Id)
      requires Valid() && Quiet(s) && IdsBelow(s, requireCounter) && id !in s.defined
      requires id.Internal? ==> id !in s.deps && id.n < requireCounter
      modifies this`s
      ensures Valid() && Calm(s) && ForcedUpTo(s, {}) && RequiresRun(s, {id}) && IdsBelow(s, requireCounter)
      ensures Later(old(s), s) && s.inited == old(s).inited && id in s.deps
      ensures id.Internal? && id in s.inited ==> id in s.enabled
    {
      hide DepsOk, MatchedOk, CountsOk, LinksOk, ListenersOk, HandlersOk, UsesOk, ExportsOk, ExportedOk, OrderOk,
           ForcedOk, HandedOk, RootsOk, SettledExcept, LinksEnabled, ForcedUpTo, RequiresRun, IdsBelow, Later;
      if id in s.deps {
        ExistingQuiet(s, id);
      } else {
        CreatedQuiet(s, id, requireCounter);
      }
      GetModule(id);
    }

    /** `require(deps, callback)`. */
    method Require(ds: seq<Dep>, callback: Factory) returns (id: Id)
      requires Valid() && Quiet(s) && !inCheckLoaded && IdsBelow(s, requireCounter)
      modifies this
      ensures Valid() && Quiet(s) && !inCheckLoaded && IdsBelow(s, requireCounter) && Later(old(s), s)
      ensures id == Internal(old(requireCounter)) && requireCounter == old(requireCounter) + 1
      ensures id !in old(s).deps && s.inited == old(s).inited + {id} && id in s.enabled && s.enabled <= s.deps.Keys
      ensures Has(s, id, ds, callback)
      ensures !Waiting(s) ==> s.enabledRegistry == {}
    {
      hide TablesOk, DepsOk, MatchedOk, CountsOk, LinksOk, ListenersOk, HandlersOk, UsesOk, ExportsOk, ExportedOk,
           OrderOk, ForcedOk, HandedOk, RootsOk, SettledExcept, LinksEnabled, ForcedUpTo, RequiresRun, IdsBelow, Later,
           Calm,
           Quiet, Cascade, Has;
      ghost var c := s;
      id := Internal(requireCounter);
      requireCounter := requireCounter + 1;
      QuietIdUnused(s, requireCounter - 1);
      Register(id);
      ghost var created := s;
      Init(id, ds, callback, true);
      ghost var inited := s;
      LaterTransitive(c, created, inited);
      CheckLoaded();
      CascadeKept(inited, s);
      HasKept(inited, s, id, ds, callback);
      LaterTransitive(c, inited, s);
      RequireDone(s, id);
    }

    /** A `define` call that has reached the loader; only the first one for a name counts. */
    method DefineModule(name: string, ds: seq<Dep>, f: Factory)
      requires Valid() && Quiet(s) && !inCheckLoaded && IdsBelow(s, requireCounter)
      modifies this
      ensures Valid() && Quiet(s) && !inCheckLoaded && IdsBelow(s, requireCounter) && Later(old(s), s)
      ensures requireCounter == old(requireCounter) && s.inited == old(s).inited + {Named(name)}
      ensures Named(name) !in old(s).inited ==> Has(s, Named(name), ds, f)
    {
      hide TablesOk, DepsOk, MatchedOk, CountsOk, LinksOk, ListenersOk, HandlersOk, UsesOk, ExportsOk, ExportedOk,
           OrderOk, ForcedOk, HandedOk, RootsOk, SettledExcept, LinksEnabled, ForcedUpTo, RequiresRun, IdsBelow, Later,
           Calm,
           Quiet, Has;
      ghost var c := s;
      var id := Named(name);
      ExportedInited(s, id);
      LaterRefl(c);
      if id !in s.exported {
        Register(id);
        ghost var created := s;
        Init(id, ds, f, false);
        LaterTransitive(c, created, s);
      }
    }

    /** The `load` event of the script of `moduleName`, whose `define` calls are in `queue`.  The first anonymous
        definition gets the script's name; an anonymous one after the script's own definition is dropped, and what
        follows it stays queued.  A script that defines no module of its own gets an empty one, if any module has
        asked for it. */
    method CompleteLoad(moduleName: string, queue: seq<Definition>) returns (rest: seq<Definition>)
      requires Valid() && Quiet(s) && !inCheckLoaded && IdsBelow(s, requireCounter)
      modifies this
      ensures Valid() && Quiet(s) && !inCheckLoaded && IdsBelow(s, requireCounter) && Later(old(s), s)
      ensures requireCounter == old(requireCounter)
      ensures Took(old(s), s, if Named(moduleName) in s.deps then Offers(moduleName, queue)
          else Taken(moduleName, queue, false))
      ensures Named(moduleName) in s.deps ==> Named(moduleName) in s.inited
      ensures !Waiting(s) ==> s.enabledRegistry == {}
    {
      hide TablesOk, DepsOk, MatchedOk, CountsOk, LinksOk, ListenersOk, HandlersOk, UsesOk, ExportsOk, ExportedOk,
           OrderOk, ForcedOk, HandedOk, RootsOk, SettledExcept, LinksEnabled, ForcedUpTo, RequiresRun, IdsBelow, Calm,
           Quiet,
           Taken, Names, Later, Took;
      ghost var c := s;
      var found;
      rest, found := TakeQueue(moduleName, queue);
      ghost var taken := s;
      var empty := !found && Named(moduleName) !in s.exported && Named(moduleName) in s.registry
          && Named(moduleName) !in s.inited;
      if empty {
        DefineModule(moduleName, [], NoFactory);
      } else {
        LaterRefl(s);
      }
      ghost var loaded := s;
      LoadTook(c, taken, loaded, moduleName, queue, found, empty);
      LaterTransitive(c, taken, loaded);
      CheckLoaded();
      LaterTransitive(c, loaded, s);
      CascadeTook(c, loaded, s, moduleName, queue);
    }

    method TakeQueue(moduleName: string, queue: seq<Definition>) returns (rest: seq<Definition>, found: bool)
      requires Valid() && Quiet(s) && !inCheckLoaded && IdsBelow(s, requireCounter)
      modifies this
      ensures Valid() && Quiet(s) && !inCheckLoaded && IdsBelow(s, requireCounter) && Later(old(s), s)
      ensures requireCounter == old(requireCounter)
      ensures Took(old(s), s, Taken(moduleName, queue, false))
      ensures found <==> Names(Taken(moduleName, queue, false), moduleName)
    {
      hide TablesOk, DepsOk, MatchedOk, CountsOk, LinksOk, ListenersOk, HandlersOk, UsesOk, ExportsOk, ExportedOk,
           OrderOk, ForcedOk, HandedOk, RootsOk, SettledExcept, LinksEnabled, ForcedUpTo, RequiresRun, IdsBelow, Calm,
           Quiet,
           Names, Later, Took, Has;
      ghost var c := s;
      LaterRefl(c);
      TookNothing(c, c);
      rest, found := queue, false;
      ghost var taken: seq<Definition> := [];
      TakenStart(moduleName, queue);
      while rest != []
        invariant Valid() && Quiet(s) && !inCheckLoaded && IdsBelow(s, requireCounter) && Later(c, s)
        invariant requireCounter == old(requireCounter)
        invariant Took(c, s, taken)
        invariant found <==> Names(taken, moduleName)
        invariant taken + Taken(moduleName, rest, found) == Taken(moduleName, queue, false)
        decreases |rest|
      {
        var d := rest[0];
        ghost var left := rest;
        rest := rest[1..];
        var name := if d.anonymous then moduleName else d.name;
        if d.anonymous && found {
          TakenEnd(moduleName, left, found, taken);
          break;
        }
        ghost var before := s;
        DefineModule(name, d.deps, d.factory);
        LaterTransitive(c, before, s);
        ghost var one := d.(anonymous := false, name := name);
        TookOne(before, s, one);
        TookTransitive(c, before, s, taken, [one]);
        TakenOne(moduleName, queue, taken, left, found, one);
        taken := taken + [one];
        found := found || name == moduleName;
      }
      TakenEnd(moduleName, [], found, taken);
    }

    /** Any sequence of events. */
    method Run(events: seq<Event>)
      requires Valid() && Quiet(s) && !inCheckLoaded && IdsBelow(s, requireCounter)
      modifies this
      ensures Valid() && Quiet(s) && !inCheckLoaded && IdsBelow(s, requireCounter) && Later(old(s), s)
      ensures Reflects(old(s), s, old(requireCounter), events)
      ensures events != [] && !Waiting(s) ==> s.enabledRegistry == {}
    {
      hide TablesOk, DepsOk, MatchedOk, CountsOk, LinksOk, ListenersOk, HandlersOk, UsesOk, ExportsOk, ExportedOk,
           OrderOk, ForcedOk, HandedOk, RootsOk, SettledExcept, LinksEnabled, ForcedUpTo, RequiresRun, IdsBelow, Calm,
           Quiet,
           Later, Took, Has, Reflects, Offers, Taken, Names, Calls;
      ghost var c := s;
      ghost var n := requireCounter;
      LaterRefl(c);
      ReflectsNothing(c, n);
      NoCalls();
      for k := 0 to |events|
        invariant Valid() && Quiet(s) && !inCheckLoaded && IdsBelow(s, requireCounter) && Later(c, s)
        invariant Reflects(c, s, n, events[..k]) && requireCounter == n + |Calls(events[..k])|
        invariant k > 0 && !Waiting(s) ==> s.enabledRegistry == {}
      {
        ghost var before := s;
        assert events[..k + 1] == events[..k] + [events[k]];
        CallAdded(events[..k], events[k]);
        match events[k] {
          case RequireCall(ds, callback) =>
            var _ := Require(ds, callback);
            CallReflects(c, before, s, n, events[..k], events[k]);
          case ScriptLoaded(moduleName, queue) =>
            var _ := CompleteLoad(moduleName, queue);
            TakenOffered(moduleName, queue);
            ghost var defs := if Named(moduleName) in s.deps then Offers(moduleName, queue)
              else Taken(moduleName, queue, false);
            ScriptReflects(c, before, s, n, events[..k], events[k], defs);
          case Recheck =>
            CheckLoaded();
            RecheckReflects(c, before, s, n, events[..k], events[k]);
        }
        LaterTransitive(c, before, s);
      }
      assert events[..|events|] == events;
    }
  }
}
