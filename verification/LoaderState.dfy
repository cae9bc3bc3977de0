/** The state of a RequireJS context as a value, the single updates the loader makes to it, and the
    invariant that every update keeps.

    The state is kept by columns: one set or map for each field of the Module objects.  `Ctx.deps.Keys`
    is the set of all modules ever created, also of those that have left the registry. */
module LoaderState {

  /** A named module, or the internal id of a `require` call. */
  datatype Id = Named(name: string) | Internal(n: nat)

  /** A dependency: another module, or one of the three handler names. */
  datatype Dep = OnModule(name: string) | RequireFn | ExportsObject | ModuleObject

  /** Values that flow between modules: the objects the loader makes, and whatever else a factory returns. */
  datatype Value =
    | Undefined
    | Lit(tag: int)
    | RequireOf(id: Id)
    | ExportsOf(id: Id)
    | ModuleOf(id: Id)

  /** What a call of a factory comes to: the value it returns and the one it assigns to `module.exports`, each
      undefined if there is none. */
  datatype Reply = Reply(value: Value, moduleExports: Value)

  /** What a module is defined with: nothing, a literal value, or a function of its arguments. */
  datatype Factory = NoFactory | Literal(tag: int) | Callback(run: seq<Value> -> Reply)

  /** Dependency number `index` of module `parent`; also the "defined" listener that fills it. */
  datatype Slot = Slot(parent: Id, index: nat)

  datatype Ctx = Ctx(
    deps: map<Id, seq<Dep>>,
    factory: map<Id, Factory>,
    inited: set<Id>,
    enabled: set<Id>,
    enabling: set<Id>,
    fetched: set<Id>,
    defined: set<Id>,
    emitComplete: set<Id>,
    usingExports: set<Id>,
    mapped: map<Id, nat>,            // slots below this index are wired
    depCount: map<Id, int>,
    depMatched: set<Slot>,
    depExports: map<Slot, Value>,
    listeners: map<Id, seq<Slot>>,
    exports: map<Id, Value>,
    registry: set<Id>,
    enabledRegistry: set<Id>,
    exported: map<Id, Value>,        // the context's `defined` table
    order: seq<Id>,                  // history: modules in the order they were defined
    forced: set<Slot>)               // history: slots the cycle breaker filled

  // ---------- modules ----------

  /** The slots counted in `depCount` that are not filled yet. */
  function Pending(c: Ctx, m: Id): set<nat>
    requires m in c.deps && m in c.mapped && c.mapped[m] <= |c.deps[m]|
  {
    set i: nat | i < c.mapped[m] && c.deps[m][i].OnModule? && Slot(m, i) !in c.depMatched
  }

  /** What a handler name stands for inside module `id`. */
  function Handled(id: Id, d: Dep): Value
    requires !d.OnModule?
  {
    match d
    case RequireFn => RequireOf(id)
    case ExportsObject => if id.Named? then ExportsOf(id) else Undefined
    case ModuleObject => ModuleOf(id)
  }

  function Args(c: Ctx, m: Id): (args: seq<Value>)
    requires m in c.deps
    ensures |args| == |c.deps[m]|
  {
    seq(|c.deps[m]|, i requires 0 <= i =>
      if Slot(m, i) in c.depExports then c.depExports[Slot(m, i)] else Undefined)
  }

  /** The exports of module `id` with the given dependencies, factory and arguments. */
  function Outcome(id: Id, deps: seq<Dep>, factory: Factory, args: seq<Value>): Value {
    match factory
    case NoFactory => Undefined
    case Literal(tag) => Lit(tag)
    case Callback(run) =>
      var reply := run(args);
      var own := if id.Named? && ExportsObject in deps then ExportsOf(id) else Undefined;
      if id.Named? && ModuleObject in deps && reply.moduleExports != Undefined && reply.moduleExports != own
          then reply.moduleExports
      else if reply.value == Undefined then own
      else reply.value
  }

  // ---------- the graph ----------

  ghost predicate Edge(deps: map<Id, seq<Dep>>, a: Id, b: Id) {
    a in deps && b.Named? && OnModule(b.name) in deps[a]
  }

  ghost predicate Path(deps: map<Id, seq<Dep>>, p: seq<Id>) {
    |p| > 0 && forall k {:trigger Edge(deps, p[k], p[k + 1])} :: 0 <= k < |p| - 1 ==> Edge(deps, p[k], p[k + 1])
  }

  ghost predicate Reaches(deps: map<Id, seq<Dep>>, a: Id, b: Id) {
    exists p {:trigger Path(deps, p)} :: Path(deps, p) && p[0] == a && p[|p| - 1] == b
  }

  ghost predicate Acyclic(deps: map<Id, seq<Dep>>) {
    forall a, b {:trigger Edge(deps, a, b)} :: Edge(deps, a, b) ==> !Reaches(deps, b, a)
  }

  /** Slot `i` of module `p` waits for, or has been given, module `d`. */
  ghost predicate Wired(c: Ctx, p: Id, i: nat, d: string) {
    p in c.deps && p in c.mapped && i < c.mapped[p] && i < |c.deps[p]| && c.deps[p][i] == OnModule(d)
  }

  // ---------- the invariant ----------

  ghost predicate TablesOk(c: Ctx) {
    && c.factory.Keys == c.deps.Keys && c.mapped.Keys == c.deps.Keys && c.depCount.Keys == c.deps.Keys
    && c.listeners.Keys == c.deps.Keys && c.exports.Keys == c.deps.Keys
    && c.inited <= c.deps.Keys && c.fetched <= c.deps.Keys && c.usingExports <= c.deps.Keys
    && c.emitComplete <= c.defined <= c.enabled * c.inited
    && c.enabled <= c.deps.Keys && c.enabling <= c.enabled - c.defined
    && c.registry == c.deps.Keys - c.defined
    && c.enabledRegistry == c.enabled - c.defined
  }

  ghost predicate DepsOk(c: Ctx)
    requires TablesOk(c)
  {
    forall m {:trigger c.mapped[m]} {:trigger m in c.deps} :: m in c.deps ==>
      && c.mapped[m] <= |c.deps[m]|
      && (m !in c.inited ==> c.deps[m] == [])
      && (m !in c.enabled ==> c.mapped[m] == 0)
      && (m in c.defined ==> c.mapped[m] == |c.deps[m]|)
  }

  ghost predicate MatchedOk(c: Ctx) {
    forall s {:trigger s in c.depMatched} :: s in c.depMatched ==>
      s.parent in c.deps && s.index < |c.deps[s.parent]| && c.deps[s.parent][s.index].OnModule?
      && Wired(c, s.parent, s.index, c.deps[s.parent][s.index].name)
  }

  /** `depCount` counts the wired module slots that are still empty, and a defined module has none. */
  ghost predicate CountsOk(c: Ctx)
    requires TablesOk(c) && DepsOk(c)
  {
    forall m {:trigger Pending(c, m)} :: m in c.deps ==>
      && c.depCount[m] == |Pending(c, m)|
      && (m in c.defined ==> Pending(c, m) == {})
  }

  /** An empty slot has its listener on a module that has yet to announce itself; a slot filled by
      the event holds the exports of a defined module. */
  ghost predicate LinksOk(c: Ctx)
    requires TablesOk(c)
  {
    forall p, i, d {:trigger Wired(c, p, i, d)} :: Wired(c, p, i, d) ==>
      && Named(d) in c.deps
      && (Slot(p, i) !in c.depMatched ==> Slot(p, i) in c.listeners[Named(d)] && Named(d) !in c.emitComplete)
      && (Slot(p, i) in c.depMatched && Slot(p, i) !in c.forced ==>
            Named(d) in c.defined && Slot(p, i) in c.depExports
            && c.depExports[Slot(p, i)] == c.exports[Named(d)])
  }

  ghost predicate ListenersOk(c: Ctx)
    requires TablesOk(c)
  {
    forall d, s {:trigger s in c.listeners[d]} :: d in c.deps && s in c.listeners[d] ==>
      d.Named? && Wired(c, s.parent, s.index, d.name)
  }

  ghost predicate HandlersOk(c: Ctx)
    requires TablesOk(c) && DepsOk(c)
  {
    forall m, i: nat {:trigger c.deps[m][i]} {:trigger c.depExports[Slot(m, i)]} ::
      m in c.deps && i < c.mapped[m] && !c.deps[m][i].OnModule? ==>
      Slot(m, i) in c.depExports && c.depExports[Slot(m, i)] == Handled(m, c.deps[m][i])
  }

  ghost predicate UsesOk(c: Ctx)
    requires TablesOk(c) && DepsOk(c)
  {
    forall m {:trigger m in c.usingExports} :: m in c.deps ==>
      (m in c.usingExports <==> ExportsObject in c.deps[m][..c.mapped[m]])
  }

  ghost predicate ExportsOk(c: Ctx)
    requires TablesOk(c) && DepsOk(c)
  {
    forall m {:trigger c.exports[m]} :: m in c.deps ==>
      && (m !in c.defined ==>
            c.exports[m] == if m in c.usingExports && m.Named? then ExportsOf(m) else Undefined)
      && (m in c.defined ==> c.exports[m] == Outcome(m, c.deps[m], c.factory[m], Args(c, m)))
  }

  ghost predicate ExportedOk(c: Ctx)
    requires TablesOk(c)
  {
    && (forall m {:trigger m in c.exported} :: m in c.exported <==> m.Named? && (m in c.defined || m in c.usingExports))
    && (forall m {:trigger m in c.exported} :: m in c.exported ==> m in c.deps && c.exported[m] == c.exports[m])
  }

  /** Modules are defined once, and after every dependency whose slot was not forced. */
  ghost predicate OrderOk(c: Ctx) {
    && (forall j, k :: 0 <= j < k < |c.order| ==> c.order[j] != c.order[k])
    && (forall m :: m in c.order <==> m in c.defined)
    && (forall k, i, d {:trigger Wired(c, c.order[k], i, d)} ::
          (0 <= k < |c.order| && Wired(c, c.order[k], i, d) && Slot(c.order[k], i) !in c.forced)
          ==> Named(d) in c.order[..k])
  }

  /** Slot `s` is an edge of a cycle of the graph. */
  ghost predicate OnCycle(deps: map<Id, seq<Dep>>, s: Slot) {
    && s.parent in deps && s.index < |deps[s.parent]| && deps[s.parent][s.index].OnModule?
    && Reaches(deps, Named(deps[s.parent][s.index].name), s.parent)
  }

  /** A slot is filled by force only across an edge of a cycle. */
  ghost predicate ForcedOk(c: Ctx) {
    forall s {:trigger s in c.forced} :: s in c.forced ==> OnCycle(c.deps, s)
  }

  /** What an initialised module that is not defined yet exports so far. */
  function SoFar(id: Id, deps: seq<Dep>): Value {
    if ExportsObject in deps then ExportsOf(id) else Undefined
  }

  /** Slot `s` was given what its module exported so far. */
  ghost predicate Handed(c: Ctx, s: Slot) {
    && s in c.depMatched && s in c.depExports
    && s.parent in c.deps && s.index < |c.deps[s.parent]| && c.deps[s.parent][s.index].OnModule?
    && var d := Named(c.deps[s.parent][s.index].name);
       d in c.deps && d in c.inited && c.depExports[s] == SoFar(d, c.deps[d])
  }

  ghost predicate HandedOk(c: Ctx) {
    forall s {:trigger s in c.forced} {:trigger Handed(c, s)} :: s in c.forced ==> Handed(c, s)
  }

  /** Module `m` hangs below some enabled `require` call. */
  ghost predicate Rooted(c: Ctx, m: Id) {
    exists r {:trigger Reaches(c.deps, r, m)} :: r in c.enabled && r.Internal? && Reaches(c.deps, r, m)
  }

  ghost predicate RootsOk(c: Ctx) {
    forall m {:trigger Rooted(c, m)} :: m in c.enabled ==> Rooted(c, m)
  }

  ghost predicate Inv(c: Ctx) {
    && TablesOk(c) && DepsOk(c) && MatchedOk(c) && CountsOk(c) && LinksOk(c) && ListenersOk(c)
    && HandlersOk(c) && UsesOk(c) && ExportsOk(c) && ExportedOk(c) && OrderOk(c) && ForcedOk(c)
    && HandedOk(c) && RootsOk(c)
  }

  // ---------- between events ----------

  /** Module `m` has nothing left to do by itself. */
  ghost predicate Settled(c: Ctx, m: Id)
    requires TablesOk(c)
  {
    m in c.enabled && m !in c.enabling ==>
      && c.mapped[m] == |c.deps[m]|
      && (m in c.inited ==> c.depCount[m] >= 1 || m in c.defined)
      && (m !in c.inited ==> m in c.fetched)
  }

  ghost predicate SettledExcept(c: Ctx, x: set<Id>)
    requires TablesOk(c)
  {
    forall m {:trigger Settled(c, m)} :: m in c.deps && m !in x ==> Settled(c, m)
  }

  /** Every wired dependency is enabled, but for links to the modules in `x`. */
  ghost predicate LinksEnabled(c: Ctx, x: set<Id>) {
    forall p, i, d {:trigger Wired(c, p, i, d)} :: Wired(c, p, i, d) && Named(d) !in x ==> Named(d) in c.enabled
  }

  /** A slot was filled by force for a module that is defined by now or still in `stack`. */
  ghost predicate ForcedUpTo(c: Ctx, stack: set<Id>) {
    forall s {:trigger s in c.forced} ::
      s in c.forced && s.parent in c.deps && s.index < |c.deps[s.parent]| && c.deps[s.parent][s.index].OnModule? ==>
        Named(c.deps[s.parent][s.index].name) in c.defined || Named(c.deps[s.parent][s.index].name) in stack
  }

  // ---------- the updates ----------

  const EMPTY := Ctx(map[], map[], {}, {}, {}, {}, {}, {}, {}, map[], map[], {}, map[], map[], map[],
                     {}, {}, map[], [], {})

  /** A new Module object enters the registry. */
  function Created(c: Ctx, id: Id): Ctx {
    c.(deps := c.deps[id := []], factory := c.factory[id := NoFactory], mapped := c.mapped[id := 0],
       depCount := c.depCount[id := 0], listeners := c.listeners[id := []],
       exports := c.exports[id := Undefined], registry := c.registry + {id})
  }

  /** `init` stores the dependencies and the factory. */
  function Declared(c: Ctx, id: Id, ds: seq<Dep>, f: Factory): Ctx {
    c.(deps := c.deps[id := ds], factory := c.factory[id := f], inited := c.inited + {id})
  }

  function Enabled(c: Ctx, id: Id): Ctx {
    c.(enabled := c.enabled + {id}, enabledRegistry := c.enabledRegistry + {id}, enabling := c.enabling + {id})
  }

  /** `enable` resolves the next slot, a handler name. */
  function HandlerFilled(c: Ctx, id: Id): Ctx
    requires id in c.deps && id in c.mapped && c.mapped[id] < |c.deps[id]|
    requires !c.deps[id][c.mapped[id]].OnModule?
  {
    var i := c.mapped[id];
    var d := c.deps[id][i];
    var e := d.ExportsObject? && id.Named?;
    c.(mapped := c.mapped[id := i + 1],
       depExports := c.depExports[Slot(id, i) := Handled(id, d)],
       usingExports := if d.ExportsObject? then c.usingExports + {id} else c.usingExports,
       exports := if e then c.exports[id := ExportsOf(id)] else c.exports,
       exported := if e then c.exported[id := ExportsOf(id)] else c.exported)
  }

  /** `enable` wires the next slot to module `d`: filled at once if `d` is defined, else listening. */
  function SlotWired(c: Ctx, id: Id, d: Id): Ctx
    requires id in c.mapped && id in c.depCount && d in c.listeners
    requires d in c.defined ==> d in c.exported
  {
    var s := Slot(id, c.mapped[id]);
    var now := d in c.defined;
    c.(mapped := c.mapped[id := c.mapped[id] + 1],
       depCount := if now then c.depCount else c.depCount[id := c.depCount[id] + 1],
       depMatched := if now then c.depMatched + {s} else c.depMatched,
       depExports := if now then c.depExports[s := c.exported[d]] else c.depExports,
       listeners := if now then c.listeners else c.listeners[d := c.listeners[d] + [s]])
  }

  function EnablingDone(c: Ctx, id: Id): Ctx {
    c.(enabling := c.enabling - {id})
  }

  function Fetched(c: Ctx, id: Id): Ctx {
    c.(fetched := c.fetched + {id})
  }

  /** `defineDep` fills an empty slot; `byForce` tells whether the cycle breaker asked for it. */
  function Filled(c: Ctx, s: Slot, v: Value, byForce: bool): Ctx
    requires s.parent in c.depCount
  {
    c.(depMatched := c.depMatched + {s}, depCount := c.depCount[s.parent := c.depCount[s.parent] - 1],
       depExports := c.depExports[s := v], forced := if byForce then c.forced + {s} else c.forced)
  }

  /** `check` runs the factory. */
  function Ran(c: Ctx, id: Id): Ctx
    requires id in c.deps && id in c.factory
  {
    var v := Outcome(id, c.deps[id], c.factory[id], Args(c, id));
    c.(defined := c.defined + {id}, exports := c.exports[id := v],
       exported := if id.Named? then c.exported[id := v] else c.exported,
       registry := c.registry - {id}, enabledRegistry := c.enabledRegistry - {id}, order := c.order + [id])
  }

  /** The "defined" event of `id` has reached every listener. */
  function Announced(c: Ctx, id: Id): Ctx {
    c.(emitComplete := c.emitComplete + {id})
  }
}
