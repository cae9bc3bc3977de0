/** What scripts bring to the loader, and which declaration every module ends up with. */
module LoaderScripts {
  import opened LoaderState
  import opened LoaderCascade
  import opened LoaderEvents

  /** A `define` call as a script makes it. */
  datatype Definition = Definition(anonymous: bool, name: string, deps: seq<Dep>, factory: Factory)

  /** What the outside world does to the loader. */
  datatype Event =
    | RequireCall(deps: seq<Dep>, callback: Factory)
    | ScriptLoaded(moduleName: string, queue: seq<Definition>)
    | Recheck

  // ---------- one script ----------

  predicate Names(defs: seq<Definition>, n: string) {
    defs != [] && (defs[0].name == n || Names(defs[1..], n))
  }

  /** The definition that counts for `n`. */
  function First(defs: seq<Definition>, n: string): (d: Definition)
    requires Names(defs, n)
    ensures d in defs && d.name == n
  {
    if defs[0].name == n then defs[0] else First(defs[1..], n)
  }

  /** The definitions that the `load` event of `moduleName` takes from its queue, under the names they get: the
      first anonymous one gets the name of the script, a further one ends the taking. */
  function Taken(moduleName: string, queue: seq<Definition>, found: bool): seq<Definition> {
    if queue == [] || (queue[0].anonymous && found) then []
    else
      var d := queue[0].(anonymous := false, name := if queue[0].anonymous then moduleName else queue[0].name);
      [d] + Taken(moduleName, queue[1..], found || d.name == moduleName)
  }

  /** A script without a definition of its own module stands for an empty one. */
  function Offers(moduleName: string, queue: seq<Definition>): seq<Definition> {
    var taken := Taken(moduleName, queue, false);
    if Names(taken, moduleName) then taken else taken + [Definition(false, moduleName, [], NoFactory)]
  }

  lemma {:induction false} FirstOfSum(a: seq<Definition>, b: seq<Definition>, n: string)
    ensures Names(a + b, n) <==> Names(a, n) || Names(b, n)
    ensures Names(a + b, n) ==> First(a + b, n) == if Names(a, n) then First(a, n) else First(b, n)
  {
    if a == [] {
      assert a + b == b;
    } else {
      FirstOfSum(a[1..], b, n);
      assert (a + b)[1..] == a[1..] + b;
    }
  }

  // ---------- declarations ----------

  ghost predicate Has(c: Ctx, id: Id, ds: seq<Dep>, f: Factory) {
    id in c.deps && id in c.factory && c.deps[id] == ds && c.factory[id] == f
  }

  /** Between `c` and `c'` exactly the modules named in `defs` were initialised, those that were new each with
      its first definition. */
  ghost predicate Took(c: Ctx, c': Ctx, defs: seq<Definition>) {
    && (forall n {:trigger Named(n) in c'.inited} :: Named(n) in c'.inited <==> Named(n) in c.inited || Names(defs, n))
    && (forall n {:trigger Named(n) in c'.inited} {:trigger Names(defs, n)} ::
          Names(defs, n) && Named(n) !in c.inited ==> Has(c', Named(n), First(defs, n).deps, First(defs, n).factory))
    && (forall k: nat {:trigger Internal(k) in c'.inited} :: Internal(k) in c'.inited <==> Internal(k) in c.inited)
  }

  lemma TookNothing(c: Ctx, c': Ctx)
    requires c'.inited == c.inited
    ensures Took(c, c', [])
  {
  }

  lemma TookOne(c: Ctx, c': Ctx, d: Definition)
    requires c'.inited == c.inited + {Named(d.name)}
    requires Named(d.name) !in c.inited ==> Has(c', Named(d.name), d.deps, d.factory)
    ensures Took(c, c', [d])
  {
    forall n ensures Names([d], n) <==> n == d.name {
      assert [d][1..] == [];
    }
  }

  lemma HasKept(b: Ctx, c: Ctx, id: Id, ds: seq<Dep>, f: Factory)
    requires Later(b, c) && id in b.inited && Has(b, id, ds, f)
    ensures Has(c, id, ds, f)
  {
  }

  lemma TookTransitive(a: Ctx, b: Ctx, c: Ctx, d: seq<Definition>, e: seq<Definition>)
    requires Took(a, b, d) && Took(b, c, e) && Later(b, c)
    ensures Took(a, c, d + e)
  {
    hide Has, Later, Names, First;
    forall n ensures Named(n) in c.inited <==> Named(n) in a.inited || Names(d + e, n) {
      FirstOfSum(d, e, n);
      assert Named(n) in b.inited <==> Named(n) in a.inited || Names(d, n);
    }
    forall n | Names(d + e, n) && Named(n) !in a.inited
      ensures Has(c, Named(n), First(d + e, n).deps, First(d + e, n).factory)
    {
      FirstOfSum(d, e, n);
      assert Named(n) in b.inited <==> Names(d, n);
      if Names(d, n) {
        HasKept(b, c, Named(n), First(d, n).deps, First(d, n).factory);
      }
    }
    forall k: nat ensures Internal(k) in c.inited <==> Internal(k) in a.inited {
      assert Internal(k) in b.inited <==> Internal(k) in a.inited;
    }
  }

  // ---------- the steps of a load event ----------

  lemma TakenStart(moduleName: string, queue: seq<Definition>)
    ensures !Names([], moduleName)
    ensures [] + Taken(moduleName, queue, false) == Taken(moduleName, queue, false)
  {
  }

  lemma TakenEnd(moduleName: string, queue: seq<Definition>, found: bool, taken: seq<Definition>)
    requires queue == [] || (queue[0].anonymous && found)
    ensures taken + Taken(moduleName, queue, found) == taken
  {
  }

  /** One more definition is taken. */
  lemma TakenOne(moduleName: string, queue: seq<Definition>, taken: seq<Definition>, left: seq<Definition>, found: bool,
          one: Definition)
    requires left != [] && !(left[0].anonymous && found)
    requires one == left[0].(anonymous := false, name := if left[0].anonymous then moduleName else left[0].name)
    requires taken + Taken(moduleName, left, found) == Taken(moduleName, queue, false)
    requires found <==> Names(taken, moduleName)
    ensures (taken + [one]) + Taken(moduleName, left[1..], found || one.name == moduleName) == Taken(moduleName, queue,
        false)
    ensures Names(taken + [one], moduleName) <==> found || one.name == moduleName
  {
    FirstOfSum(taken, [one], moduleName);
    assert [one][1..] == [];
    assert Names([one], moduleName) <==> one.name == moduleName;
    hide Names, First;
    assert Taken(moduleName, left, found) == [one] + Taken(moduleName, left[1..], found || one.name == moduleName);
  }

  lemma TakenOffered(moduleName: string, queue: seq<Definition>)
    ensures Taken(moduleName, queue, false) <= Offers(moduleName, queue)
  {
  }

  /** What has been taken, with or without the empty definition, is what the script offers. */
  lemma LoadTook(c: Ctx, taken: Ctx, loaded: Ctx, moduleName: string, queue: seq<Definition>, found: bool, empty: bool)
    requires Quiet(taken) && Took(c, taken, Taken(moduleName, queue, false)) && Later(taken, loaded)
    requires found <==> Names(Taken(moduleName, queue, false), moduleName)
    requires var id := Named(moduleName); empty <==>
          !found && id !in taken.exported && id in taken.registry && id !in taken.inited
    requires !empty ==> loaded == taken
    requires empty ==>
      loaded.inited == taken.inited + {Named(moduleName)} && Has(loaded, Named(moduleName), [], NoFactory)
    requires Quiet(loaded)
    ensures Named(moduleName) in loaded.deps ==> Named(moduleName) in loaded.inited
    ensures Took(c, loaded, if Named(moduleName) in loaded.deps then Offers(moduleName, queue)
        else Taken(moduleName, queue, false))
  {
    var id := Named(moduleName);
    var defs := Taken(moduleName, queue, false);
    var fallback := Definition(false, moduleName, [], NoFactory);
    RegistryFacts(taken, id);
    RegistryFacts(loaded, id);
    assert id in taken.inited <==> id in c.inited || Names(defs, moduleName);
    hide Quiet, Later, Names, First, Has, Taken;
    assert fallback.deps == [] && fallback.factory == NoFactory && fallback.name == moduleName;
    if empty {
      TookOne(taken, loaded, fallback);
      TookTransitive(c, taken, loaded, defs, [fallback]);
    } else if id in loaded.deps && !found {
      LaterRefl(loaded);
      TookOne(loaded, loaded, fallback);
      TookTransitive(c, taken, loaded, defs, [fallback]);
    }
  }

  /** A module that exists is in the registry, exported or a call; an exported or initialised one exists. */
  lemma RegistryFacts(c: Ctx, id: Id)
    requires Quiet(c)
    ensures id in c.deps && (id in c.exported || id !in c.registry) ==> id in c.inited
    ensures id in c.inited ==> id in c.deps
    ensures id in c.registry ==> id in c.deps
    ensures id in c.exported ==> id in c.inited
  {
    hide DepsOk, MatchedOk, CountsOk, LinksOk, ListenersOk, HandlersOk, UsesOk, ExportsOk, ExportedOk, OrderOk,
         ForcedOk, HandedOk, RootsOk, SettledExcept, LinksEnabled, ForcedUpTo, RequiresRun;
    ExportedInited(c, id);
  }

  lemma CascadeTook(a: Ctx, b: Ctx, c: Ctx, moduleName: string, queue: seq<Definition>)
    requires Cascade(b, c)
    requires Took(a, b, if Named(moduleName) in b.deps then Offers(moduleName, queue)
        else Taken(moduleName, queue, false))
    requires Named(moduleName) in b.deps ==> Named(moduleName) in b.inited
    ensures Took(a, c, if Named(moduleName) in c.deps then Offers(moduleName, queue)
        else Taken(moduleName, queue, false))
    ensures Named(moduleName) in c.deps ==> Named(moduleName) in c.inited
  {
    hide Names, First, Offers, Taken;
  }

  lemma CascadeKept(c: Ctx, c': Ctx)
    requires Cascade(c, c')
    ensures c'.inited == c.inited
  {
  }

  // ---------- a run ----------

  /** Some script of the run offers definition `d`. */
  ghost predicate Offered(events: seq<Event>, d: Definition) {
    exists k {:trigger events[k]} ::
          0 <= k < |events| && events[k].ScriptLoaded? && d in Offers(events[k].moduleName, events[k].queue)
  }

  function Calls(events: seq<Event>): (calls: seq<Event>)
    ensures forall e :: e in calls <==> e in events && e.RequireCall?
  {
    if events == [] then [] else
      var last := events[|events| - 1];
      assert events == events[..|events| - 1] + [last];
      Calls(events[..|events| - 1]) + if last.RequireCall? then [last] else []
  }

  /** Every module initialised between `c` and `c'` has a declaration that some script of the run offered. */
  ghost predicate FromOffers(c: Ctx, c': Ctx, events: seq<Event>) {
    forall n {:trigger Named(n) in c'.inited} :: Named(n) in c'.inited && Named(n) !in c.inited ==>
      exists d {:trigger Offered(events, d)} ::
            Offered(events, d) && d.name == n && Has(c', Named(n), d.deps, d.factory)
  }

  /** Call number `k` of the run has the id `n + k` and its own declaration. */
  ghost predicate MadeAs(c: Ctx, n: nat, calls: seq<Event>, k: nat)
    requires forall e :: e in calls ==> e.RequireCall?
    requires k < |calls|
  {
    Internal(n + k) in c.inited && Has(c, Internal(n + k), calls[k].deps, calls[k].callback)
  }

  /** The `require` calls of the run got the ids from `n` on, in their order. */
  ghost predicate CallsMade(c: Ctx, c': Ctx, n: nat, calls: seq<Event>)
    requires forall e :: e in calls ==> e.RequireCall?
  {
    && (forall k {:trigger MadeAs(c', n, calls, k)} :: 0 <= k < |calls| ==> MadeAs(c', n, calls, k))
    && (forall k: nat {:trigger Internal(k) in c'.inited} :: Internal(k) in c'.inited ==>
            Internal(k) in c.inited || n <= k < n + |calls|)
  }

  /** A loader as the events made it: declarations and calls come from them and from nowhere else. */
  ghost predicate Reflects(c: Ctx, c': Ctx, n: nat, events: seq<Event>) {
    FromOffers(c, c', events) && CallsMade(c, c', n, Calls(events))
  }

  lemma ReflectsNothing(c: Ctx, n: nat)
    ensures Reflects(c, c, n, [])
  {
  }

  lemma OfferedMore(events: seq<Event>, e: Event, d: Definition)
    requires Offered(events, d) || (e.ScriptLoaded? && d in Offers(e.moduleName, e.queue))
    ensures Offered(events + [e], d)
  {
    hide Offers;
    var more := events + [e];
    if Offered(events, d) {
      var k :| 0 <= k < |events| && events[k].ScriptLoaded? && d in Offers(events[k].moduleName, events[k].queue);
      assert more[k] == events[k];
    } else {
      assert more[|events|] == e;
    }
  }

  lemma OffersKept(a: Ctx, b: Ctx, c: Ctx, events: seq<Event>, e: Event)
    requires FromOffers(a, b, events) && Later(b, c)
    requires forall n {:trigger Named(n) in c.inited} :: Named(n) in c.inited && Named(n) !in b.inited ==>
               exists d :: e.ScriptLoaded? && d in Offers(e.moduleName, e.queue) && d.name == n
                           && Has(c, Named(n), d.deps, d.factory)
    ensures FromOffers(a, c, events + [e])
  {
    hide Has, Later, Offers, Offered;
    forall n | Named(n) in c.inited && Named(n) !in a.inited
      ensures exists d :: Offered(events + [e], d) && d.name == n && Has(c, Named(n), d.deps, d.factory)
    {
      if Named(n) in b.inited {
        var d :| Offered(events, d) && d.name == n && Has(b, Named(n), d.deps, d.factory);
        OfferedMore(events, e, d);
        HasKept(b, c, Named(n), d.deps, d.factory);
      } else {
        var d :| e.ScriptLoaded? && d in Offers(e.moduleName, e.queue) && d.name == n
            && Has(c, Named(n), d.deps, d.factory);
        OfferedMore(events, e, d);
      }
    }
  }

  lemma CallsKept(a: Ctx, b: Ctx, c: Ctx, n: nat, calls: seq<Event>)
    requires forall e :: e in calls ==> e.RequireCall?
    requires CallsMade(a, b, n, calls) && Later(b, c)
    requires forall k: nat {:trigger Internal(k) in c.inited} :: Internal(k) in c.inited ==> Internal(k) in b.inited
    ensures CallsMade(a, c, n, calls)
  {
    hide Has;
    forall k | 0 <= k < |calls| ensures MadeAs(c, n, calls, k) {
      assert MadeAs(b, n, calls, k);
      HasKept(b, c, Internal(n + k), calls[k].deps, calls[k].callback);
    }
  }

  lemma NoCalls()
    ensures Calls([]) == []
  {
  }

  lemma CallAdded(events: seq<Event>, e: Event)
    ensures Calls(events + [e]) == Calls(events) + if e.RequireCall? then [e] else []
  {
    assert (events + [e])[..|events|] == events;
  }

  /** A script adds its definitions. */
  lemma ScriptReflects(a: Ctx, b: Ctx, c: Ctx, n: nat, events: seq<Event>, e: Event, defs: seq<Definition>)
    requires Reflects(a, b, n, events) && e.ScriptLoaded? && Took(b, c, defs) && Later(b, c)
    requires defs <= Offers(e.moduleName, e.queue)
    ensures Reflects(a, c, n, events + [e])
  {
    hide Has, Later, Offers, Names, First, Offered, Calls, CallsMade;
    forall m | Named(m) in c.inited && Named(m) !in b.inited
      ensures exists d :: e.ScriptLoaded? && d in Offers(e.moduleName, e.queue) && d.name == m
                          && Has(c, Named(m), d.deps, d.factory)
    {
      assert Names(defs, m);
      assert First(defs, m) in defs;
    }
    OffersKept(a, b, c, events, e);
    CallAdded(events, e);
    CallsKept(a, b, c, n, Calls(events));
    assert Calls(events + [e]) == Calls(events);
  }

  /** A call adds itself. */
  lemma CallReflects(a: Ctx, b: Ctx, c: Ctx, n: nat, events: seq<Event>, e: Event)
    requires Reflects(a, b, n, events) && e.RequireCall? && Later(b, c)
    requires var id := Internal(n + |Calls(events)|);
             c.inited == b.inited + {id} && Has(c, id, e.deps, e.callback)
    ensures Reflects(a, c, n, events + [e])
  {
    hide Offers, Offered, Calls, Later, Has;
    var calls := Calls(events);
    OffersKept(a, b, c, events, e);
    CallAdded(events, e);
    var more := calls + [e];
    forall k | 0 <= k < |more| ensures MadeAs(c, n, more, k) {
      if k < |calls| {
        assert MadeAs(b, n, calls, k);
        HasKept(b, c, Internal(n + k), calls[k].deps, calls[k].callback);
      }
    }
    forall k: nat | Internal(k) in c.inited ensures Internal(k) in a.inited || n <= k < n + |more| {
      if k != n + |calls| {
        assert Internal(k) in b.inited;
      }
    }
    assert Calls(events + [e]) == more;
  }

  /** A check for finished modules declares nothing. */
  lemma RecheckReflects(a: Ctx, b: Ctx, c: Ctx, n: nat, events: seq<Event>, e: Event)
    requires Reflects(a, b, n, events) && e.Recheck? && Later(b, c) && c.inited == b.inited
    ensures Reflects(a, c, n, events + [e])
  {
    hide Offers, Offered, Calls, Later, Has;
    OffersKept(a, b, c, events, e);
    CallAdded(events, e);
    CallsKept(a, b, c, n, Calls(events));
    assert Calls(events + [e]) == Calls(events);
  }
}
