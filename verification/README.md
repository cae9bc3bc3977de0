# Models of the account web app's runtimes and of the C++ codecs

This project models the parts of the repository that keep state or transform data in a way that is easy to get wrong,
and proves what they promise. Each model follows the branches, the edge cases and the constants of the code it names.

- **The RequireJS module loader.** `LoaderState` holds the state of a context by columns, one set or map for each field
  of the Module objects, and the invariant; `LoaderSteps` shows that every single update keeps it; `LoaderCascade`,
  `LoaderEnable`, `LoaderCycles` and `LoaderEvents` build up the larger steps; `ModuleLoader` is the context object with
  its methods; `LoaderTheorems` draws the conclusions about order and exports, `LoaderScripts` says which declarations
  scripts bring, and `LoaderAgreement` compares loaders that saw the same in different orders.
- **jQuery callback lists, deferreds and Sizzle's combinators.** `CallbackState` and `CallbackQueue` specify a list and
  show that it refines a queue, `CallbackOptions` says what its options mean, `Callbacks` is the object.
  `DeferredState`, `DeferredTheorems`, `DeferredProgress` and `Deferreds` do the same for a deferred made of three
  lists. `Combinators` is the ancestor search with its shared cache cells.
- **Backbone collections and models.** `CollectionState` specifies list and index; `CollectionTheorems`,
  `CollectionOrder`, `CollectionSet`, `CollectionRoles`, `CollectionRuns` and `CollectionPlaces` prove what its
  operations do; `Collections` is the object. `ModelState`, `ModelTheorems`, `ModelEvents` and `Models` are `Model.set`
  with listeners that nest further sets.
- **The JSON printer.** `JsonText` has the printer and a reader written from RFC 8259, `JsonRoundTrip` and
  `JsonTheorems` the round trip, `JsonLayout` the layout, `JsonPrinter` the object with its shared indentation.
- **Byte streams.** `BufferedReader` is the Rio reader over a descriptor that answers with short reads, interruptions
  and failures. `Connection` is a connection of the rot13 line server.
- **Base64.** `Base64` specifies the encoder and both decoders and proves the round trips, `Base64Text` says which bits
  each character and each octet holds, `Base64Codec` has their loops.
- **Smaller ones.** `TrimDots` normalises a path in place, `Throttle` is a timed state machine, `LinearFit` the slope of
  a least-squares line over the reals.

What happens outside is a parameter: factories are arbitrary functions of their arguments, callbacks and listeners are
arbitrary scripts of further calls, and what `read`, `recv`, `send`, the clock and the timers answer is an arbitrary
schedule. Where an object changes its fields in place there is a class whose methods are proved to compute a
specification function, and the theorems are about that function.

A callback list is observed at each entry into a callback: from there on any operation can happen to the list until the
callback returns, which is an operation of its own. In the same way a run of a model's listeners is a tree of calls.

Places where the code does less than its description or its callers may expect, each with its exact condition:

- The comment on `JSON.stringify` offers `'&nbsp;'` as an indentation. The result is then not a JSON text that reads
  back; `JsonTheorems.LosslessExactly` gives the condition.
- The default `Collection.set` repeats a model object without an id that is given twice;
  `CollectionSet.SetAgreesExactly` gives the condition. `CollectionRuns.IdChangeAgreesExactly` does so for ids.
- `splice` counts a negative position from the end of a list that grows, so that `add` does not put several models there
  together; `CollectionPlaces.InsertedExactly` says where they go.
- `unset` with a value that is not undefined leaves `changed` wrong, and the id too; `ModelTheorems.CallExactly`,
  `ModelTheorems.ChangedExactly`, `ModelTheorems.IdCallExactly` and `ModelTheorems.IdExactly` give the conditions.
- `empty` does not move the firing index, so a firing passes over callbacks added after it; `CallbackQueue.EmptyExactly`
  gives the condition and `CallbackQueue.EmptyPassesOver` what happens otherwise.
- A module on a cycle may get its dependency's exports before they are final; `LoaderTheorems.Arguments` says what it
  gets and `LoaderTheorems.EarlyIsFinal` when that is what the dependency exports in the end.
- The comment on `_.throttle` says that `{leading: false}` disables the execution on the leading edge. It does so for
  the first call only: `Throttle.LeadingOffRuns` is a run, `Throttle.LeadingOffExactly` the condition.
- `trimDots` gives up at some segments; `TrimDots.StopsAt` is the condition on the path given.
- The size check of `base64_decode` does not cover texts of length 5, 9, 13 and so on; `Base64.RoomEnough` and
  `Base64.RoomShort` together give the condition.
- The size check of `base64_encode` leaves out the final 0, which is written behind a buffer of exactly the length of
  the text; `Base64Codec.Encode` gives the condition.
- `rio_readlineb` returns one more than the number of bytes stored when a line is cut; see `BufferedReader.LineRead`.

To verify: `dafny verify dfyconfig.toml`.

## Model

| member | source | states |
|---|---|---|
| ModuleLoader.Context.BreakCycle | java/account/server/src/main/webapp/js/require.js:602-628 | On a calm loader, for a set of enabled, initialised modules closed under dependencies, the walk ends and leaves the module it was called on defined; with it everything marked processed is defined, the stack is as before, and a slot is handed over early only for a module still on the stack. The measure is the set of untraced modules. |
| ModuleLoader.Context.BreakSlot | java/account/server/src/main/webapp/js/require.js:608-626 | One dependency of the walk: afterwards its slot is filled, whatever the module it names was doing. |
| ModuleLoader.Context.Force | java/account/server/src/main/webapp/js/require.js:619-621 | Hands over, across an edge back to a module on the stack, what that module exports so far: its exports object if it asks for one, and otherwise nothing. Of all slots exactly this one is recorded as handed over early, and the loader is calm again. |
| ModuleLoader.Context.CheckLoaded | java/account/server/src/main/webapp/js/require.js:630-698 | Breaks cycles only when no enabled module waits for its script; if none waits afterwards, everything enabled is defined and nothing is left in the enabled registry. |
| ModuleLoader.Context.Survey | java/account/server/src/main/webapp/js/require.js:650-681 | The cycle check is wanted exactly when no enabled module waits for its script, and every open `require` call is found. |
| ModuleLoader.Context.Check | java/account/server/src/main/webapp/js/require.js:832-929 | Fetches, defines and announces: the whole cascade of definitions it sets off keeps the invariant, takes nothing back and forces no slot; nothing but this module had work left before, nothing has any after. |
| ModuleLoader.Context.ExecCb | java/account/server/src/main/webapp/js/require.js:855-905 | Runs the factory with the exports in its slots and picks what the module exports as `LoaderTheorems.ExportsExactly` says. |
| ModuleLoader.Context.Emit | java/account/server/src/main/webapp/js/require.js:922-926 | The "defined" event reaches every listener once and fills their slots, while listeners define and announce further modules. |
| ModuleLoader.Context.Deliver | java/account/server/src/main/webapp/js/require.js:784-792 | A listener's slot is filled, counted once, and its module is checked. |
| ModuleLoader.Context.Enable | java/account/server/src/main/webapp/js/require.js:1077-1142 | Enabling reaches everything below the module, wires every slot once and leaves no module with work undone; it ends on every graph, also a cyclic one. |
| ModuleLoader.Context.On | java/account/server/src/main/webapp/js/require.js:496-513 | A dependency that is defined fills its slot at once, any other gets a listener; the count of the slot's module stays the number of its empty slots. |
| ModuleLoader.Context.Init | java/account/server/src/main/webapp/js/require.js:734-782 | The first declaration of a module is kept and later ones are ignored; the loader comes to rest again. |
| ModuleLoader.Context.Require | java/account/server/src/main/webapp/js/require.js:1399-1415 | A `require` call gets an id and a module of its own, with the dependencies and the callback given, enabled and initialised; if nothing waits for a script afterwards, no call is open; no earlier definition or export changes. |
| ModuleLoader.Context.CompleteLoad | java/account/server/src/main/webapp/js/require.js:1507-1554 | The arrival of a script initialises exactly the modules it defines, each that is new with its first definition; the first anonymous definition counts as the script's own, and a script without its own stands for an empty one if its module was asked for. |
| ModuleLoader.Context.Run | java/account/server/src/main/webapp/js/require.js:1507-1554 | Any sequence of `require` calls and script arrivals: the invariant holds at the end, nothing is ever taken back, the loader holds exactly the calls made, in their order, and for each module a declaration that some script offered; when nothing waits every call has been answered. |
| LoaderSteps.FilledKeepsInv | java/account/server/src/main/webapp/js/require.js:784-792 | Filling an empty slot keeps the whole invariant: counts, listeners, arguments, order, and that only an edge of a cycle is forced. |
| LoaderSteps.RanKeepsInv | java/account/server/src/main/webapp/js/require.js:854-915 | Running a factory whose count is zero keeps the whole invariant; the module is new in the order of definitions and stands after all dependencies that were not forced. |
| LoaderSteps.SlotWiredKeepsInv | java/account/server/src/main/webapp/js/require.js:1098-1107 | Wiring a slot keeps the whole invariant. |
| LoaderSteps.WiredCount | java/account/server/src/main/webapp/js/require.js:1105-1107 | `depCount` remains the number of wired slots that are empty, whether the dependency is defined already or not. |
| LoaderSteps.HandlerFilledKeepsInv | java/account/server/src/main/webapp/js/require.js:556-594 | Resolving `require`, `exports` or `module` keeps the whole invariant; `exports` creates the entry other modules can see. |
| LoaderTheorems.AcyclicNeverForced | java/account/server/src/main/webapp/js/require.js:617-626 | In an acyclic graph the cycle breaker hands over nothing early. |
| LoaderTheorems.AcyclicInOrder | java/account/server/src/main/webapp/js/require.js:854-915 | In an acyclic graph every module is defined after everything it depends on, for every order of arrival. |
| LoaderTheorems.Arguments | java/account/server/src/main/webapp/js/require.js:617-626 | For every graph, a factory gets the final exports of a dependency that was defined before it. A slot that was handed over early lies on a cycle, and there the factory gets the exports object of the other module if that asks for one, and otherwise nothing. |
| LoaderTheorems.EarlyIsFinal | java/account/server/src/main/webapp/js/require.js:885-905 | What a module got early across a cycle is what the other module exports in the end if and only if its factory is a function that neither returns nor assigns anything but that value or undefined, or it has no factory and nothing was handed over. |
| LoaderTheorems.AcyclicArguments | java/account/server/src/main/webapp/js/require.js:855-905 | In an acyclic graph a factory gets the final exports of its dependencies. |
| LoaderTheorems.HandlerArguments | java/account/server/src/main/webapp/js/require.js:548-594 | For `require`, `module` and `exports` a factory gets the function, the object and the exports object of its own module; the callback of a `require` call has no exports object. |
| LoaderTheorems.ExportsExactly | java/account/server/src/main/webapp/js/require.js:855-905 | A literal is exported as it is. Of a function a module exports what it assigns to `module.exports` unless that is undefined or the exports object, otherwise what it returns unless that is undefined, otherwise the exports object if it asked for one. |
| LoaderTheorems.PassesOn | java/account/server/src/main/webapp/js/require.js:855-905 | In an acyclic graph a module, or the callback of a `require` call, that returns its i-th argument exports what its i-th dependency exports, unless that is undefined. |
| LoaderTheorems.ChainPassesOn | java/account/server/src/main/webapp/js/require.js:832-929 | The same along a chain of modules of any length: what the last exports comes through to the first. |
| LoaderTheorems.DefinedExactly | java/account/server/src/main/webapp/js/require.js:832-929 | In an acyclic graph an enabled module, so also a `require` call, is defined if and only if everything it reaches has been initialised, whatever else still waits. |
| LoaderScripts.TookTransitive | java/account/server/src/main/webapp/js/require.js:1519-1537 | Of all definitions of a module the first counts, from definition to definition and from script to script. |
| LoaderAgreement.SameExports | java/account/server/src/main/webapp/js/require.js:832-929 | The exports of a module depend on the declarations of named modules alone, also between two loaders that got differently far in different orders. |
| LoaderAgreement.ArrivalOrderIrrelevant | java/account/server/src/main/webapp/js/require.js:630-698 | Two finished loaders to which the same calls were made in any order, and which have the same acyclic declarations, define the same modules with the same exports. |
| LoaderAgreement.SameAnswers | java/account/server/src/main/webapp/js/require.js:855-905 | Calls with the same dependencies are answered with the same modules, whatever their numbers are. |
| LoaderAgreement.EventOrderIrrelevant | java/account/server/src/main/webapp/js/require.js:1399-1554 | Two loaders that saw the same calls and script arrivals in different orders, with no two scripts at odds about a module, end with the same modules and exports once both are finished. |
| LoaderTheorems.EnabledIsReachable | java/account/server/src/main/webapp/js/require.js:1109-1120 | Everything reachable from a `require` call is enabled once the loader is at rest. |
| LoaderTheorems.FinishedDefined | java/account/server/src/main/webapp/js/require.js:693-698 | A loader that waits for nothing has defined everything that is enabled, cycles included. |
| LoaderTheorems.RunsAreDefinitions | java/account/server/src/main/webapp/js/require.js:854-915 | As many factories have run as modules are defined: each ran at most once. |
| TrimDots.Segments.TrimDots | java/account/server/src/main/webapp/js/require.js:229-251 | Ends, and the array denotes the same path as before. The segments up to the first at which the search ends are reduced and the others left; with no empty segment, every "." and every ".." but one in front is out if and only if the search is given up nowhere. |
| TrimDots.DotDropped | java/account/server/src/main/webapp/js/require.js:233-235 | Taking a "." out does not change the path denoted. |
| TrimDots.PairDropped | java/account/server/src/main/webapp/js/require.js:245-247 | Taking a name and the ".." after it out does not change the path denoted. |
| CallbackQueue.RunRefines | java/account/server/src/main/webapp/js/jquery-1.11.2.js:3135-3259 | Whatever callbacks add, remove and fire while a repeatable list fires, the list with its repaired indexes calls what a plain queue calls. |
| CallbackQueue.RemoveRefines | java/account/server/src/main/webapp/js/jquery-1.11.2.js:3195-3213 | Removing during a firing, with the two indexes moved, is removing from the called and the pending part of the queue. |
| CallbackQueue.AddRefines | java/account/server/src/main/webapp/js/jquery-1.11.2.js:3164-3193 | Entries added during a firing join it; entries added to a list with memory start a firing of their own. |
| CallbackQueue.ReturnRefines | java/account/server/src/main/webapp/js/jquery-1.11.2.js:3142-3161 | The return of a callback takes the next entry of the queue, or starts the firing that waited longest. |
| CallbackQueue.CallsInListOrder | java/account/server/src/main/webapp/js/jquery-1.11.2.js:3142-3147 | In a firing from which nothing is removed the calls are the entries in list order, those added meanwhile last. |
| CallbackQueue.RemovalsSkipNobody | java/account/server/src/main/webapp/js/jquery-1.11.2.js:3195-3213 | Whatever else is added and removed, a callback that is neither is called exactly as often as it stands in the list. |
| CallbackQueue.FirstInFirstOut | java/account/server/src/main/webapp/js/jquery-1.11.2.js:3248-3259 | Over any run the firings begun and the firings waiting are together the firings asked for, in the order they were asked for; when the list is not firing none waits. |
| CallbackQueue.FiringCallsEveryEntry | java/account/server/src/main/webapp/js/jquery-1.11.2.js:3135-3161 | When such a firing of the list itself has nothing left to call, it has called every entry, old and new, once and in order. |
| CallbackQueue.ListStepKeepsInv | java/account/server/src/main/webapp/js/jquery-1.11.2.js:3110-3271 | Every operation, `empty`, `disable` and `lock` included, for every combination of `once`, `memory`, `unique` and `stopOnFalse`, keeps the list's flags and indexes consistent. |
| CallbackQueue.DisabledStays | java/account/server/src/main/webapp/js/jquery-1.11.2.js:3227-3231 | A disabled list begins no firing and makes no call in any run, unless `empty` gives it a list again. |
| CallbackQueue.FixedRun | java/account/server/src/main/webapp/js/jquery-1.11.2.js:3236-3242 | Once a list that fires once has fired, or a list that has fired is locked, every later call gets the arguments of that firing. |
| CallbackQueue.OnceOneArgument | java/account/server/src/main/webapp/js/jquery-1.11.2.js:3110-3271 | All calls that a list with the `once` option ever makes get the same arguments. |
| CallbackOptions.UniqueStays | java/account/server/src/main/webapp/js/jquery-1.11.2.js:3110-3271 | A `unique` list never holds a callback twice, in any run of all operations. |
| CallbackOptions.PushedExactly | java/account/server/src/main/webapp/js/jquery-1.11.2.js:3170-3182 | `add` puts all callbacks behind the list in their order; in a `unique` list those that it does not have, each once. |
| CallbackOptions.WithoutHas | java/account/server/src/main/webapp/js/jquery-1.11.2.js:3195-3213 | After `remove` the list has no occurrence of the callback, and all others. |
| CallbackOptions.FalseStops | java/account/server/src/main/webapp/js/jquery-1.11.2.js:3142-3161 | When a callback returns false in a `stopOnFalse` list nothing behind it is called in this firing and its arguments are forgotten; the firing that waited longest begins with the first entry, or the list is idle, or disabled if it fires once. |
| CallbackOptions.OnceFiresOnce | java/account/server/src/main/webapp/js/jquery-1.11.2.js:3110-3271 | A list with `once` and without `memory` begins at most one firing in any run, the first asked for. |
| CallbackOptions.IdleList | java/account/server/src/main/webapp/js/jquery-1.11.2.js:3164-3259 | Firing an idle list calls its first entry and a list with `memory` keeps the arguments; callbacks added to it then are called with them, from the first new one on; a list that has fired once ignores further firings. |
| CallbackQueue.FiringSkipsNobody | java/account/server/src/main/webapp/js/jquery-1.11.2.js:3195-3213 | The same for the list itself: when a firing has nothing left to call, an untouched callback has been called as often as it stood behind the firing index. |
| CallbackQueue.EmptyExactly | java/account/server/src/main/webapp/js/jquery-1.11.2.js:3221-3225 | After an `empty` inside a firing the list calls and fires what the emptied queue does, whatever is added and whether or not firings wait, if and only if the running callback and all entries before it had been removed. |
| CallbackQueue.EmptyPassesOver | java/account/server/src/main/webapp/js/jquery-1.11.2.js:3221-3225 | In all other cases the firing passes over as many of the entries added as there were entries up to the running callback and calls the one after them; if there is none it is over, and the firing that waited longest begins. |
| Callbacks.CallbackList.Return | java/account/server/src/main/webapp/js/jquery-1.11.2.js:3142-3161 | The firing loop on the object's fields computes the specified next state, recursion into waiting firings included. |
| Callbacks.CallbackList.Add | java/account/server/src/main/webapp/js/jquery-1.11.2.js:3164-3193 | `add` on the object's fields computes the specified state. |
| Callbacks.CallbackList.RemoveEach | java/account/server/src/main/webapp/js/jquery-1.11.2.js:3199-3210 | The search-and-splice loop removes every occurrence, and moves the firing index by the number removed at or before it. |
| Callbacks.CallbackList.FireWith | java/account/server/src/main/webapp/js/jquery-1.11.2.js:3248-3259 | Fires, waits or does nothing, as the flags say. |
| Callbacks.RemoveOne | java/account/server/src/main/webapp/js/jquery-1.11.2.js:3199-3210 | One splice with its index repair is one step from the old list and index to the new ones. |
| DeferredTheorems.FirstSettlementDecides | java/account/server/src/main/webapp/js/jquery-1.11.2.js:3320-3349 | After any run, calls from callbacks included, the state and arguments are those of the first resolve or reject; a deferred without one is pending. |
| DeferredTheorems.SettledStays | java/account/server/src/main/webapp/js/jquery-1.11.2.js:3333-3341 | A settled deferred keeps its state and arguments through every further run. |
| DeferredTheorems.CallbacksRunOnce | java/account/server/src/main/webapp/js/jquery-1.11.2.js:3320-3349 | The done callbacks, attached before, during or after settling, run exactly once, in the order of attachment and with the settling arguments, if and only if the deferred was resolved; likewise the fail callbacks. |
| DeferredTheorems.ProgressAfterSettled | java/account/server/src/main/webapp/js/jquery-1.11.2.js:3333-3348 | After a settlement `notify` begins no firing, and whatever else is done, every later progress call gets the arguments notified last before it. |
| DeferredTheorems.AttachedInOrder | java/account/server/src/main/webapp/js/jquery-1.11.2.js:3330-3331 | Callbacks are kept in the order in which they were attached. |
| DeferredProgress.NotificationsCall | java/account/server/src/main/webapp/js/jquery-1.11.2.js:3320-3349 | Over any run: while the deferred is pending the progress list holds the callbacks attached, in order, and the notifications begun and those waiting are together those made, in order. Each of them has called every callback attached until the next one began, once, in order and with its arguments, and the last one all, or all up to the one that is running, before and after a settlement; what waits at a settlement is dropped. |
| DeferredProgress.AttachTells | java/account/server/src/main/webapp/js/jquery-1.11.2.js:3164-3193 | A progress callback that is attached joins the running notification, or is called with the arguments of the last one if there was one. |
| DeferredProgress.ReturnTells | java/account/server/src/main/webapp/js/jquery-1.11.2.js:3142-3161 | When a progress callback returns, the next one is called with the same arguments, or the notification that waited longest begins with the first callback, or the list is idle. |
| DeferredTheorems.StepKeepsDInv | java/account/server/src/main/webapp/js/jquery-1.11.2.js:3277-3361 | Every operation on the three linked lists keeps the invariant: the own callbacks that set the state, disable the other list and lock the progress list stand in front of all user callbacks, and once the deferred is settled the progress list is locked. |
| Deferreds.DeferredObject.SettleWith | java/account/server/src/main/webapp/js/jquery-1.11.2.js:3333-3348 | `resolve`, `reject` and `notify` on the three list objects compute the state that `FirstSettlementDecides`, `CallbacksRunOnce` and `NotificationsCall` are about. |
| Deferreds.DeferredObject.AttachTo | java/account/server/src/main/webapp/js/jquery-1.11.2.js:3330-3331 | `done`, `fail` and `progress` compute the specified state, replay on a settled deferred included. |
| Combinators.Sizzle.Walk | java/account/server/src/main/webapp/js/jquery-1.11.2.js:2154-2171 | The walk that shares one cache cell among all nodes it passes answers what the plain search answers, whatever nested combinators leave in the same slots. |
| Combinators.Sizzle.Match | java/account/server/src/main/webapp/js/jquery-1.11.2.js:2123-2189 | A compiled matcher with its caches answers what it means without them, and every cell of the running search that is not open stays right. |
| Combinators.MatchesExactly | java/account/server/src/main/webapp/js/jquery-1.11.2.js:2123-2189 | What a matcher means, by its cases: a combinator without `first` matches if and only if some node on the chain along its direction is asked and passes, one with `first` if and only if the first node asked does; asked are elements, and every node where the base is a parent. |
| Combinators.ChainFollows | java/account/server/src/main/webapp/js/jquery-1.11.2.js:2128-2131 | The chain starts behind the node, each node on it follows the one before along the direction, and nothing follows the last. |
| Combinators.Sizzle.WalkXml | java/account/server/src/main/webapp/js/jquery-1.11.2.js:2144-2151 | The walk without caches answers the same. |
| Combinators.Sizzle.MatchClosest | java/account/server/src/main/webapp/js/jquery-1.11.2.js:2128-2136 | A `first` combinator asks the closest eligible node only. |
| Combinators.Sizzle.Select | java/account/server/src/main/webapp/js/jquery-1.11.2.js:2374-2410 | Over any number of elements and groups with one run number, and over any number of searches, the elements found are those that some group matches. |
| Combinators.SelectedExactly | java/account/server/src/main/webapp/js/jquery-1.11.2.js:2374-2410 | A search goes through the elements in order and keeps each that some group matches. |
| Combinators.AnyMatchesIsExists | java/account/server/src/main/webapp/js/jquery-1.11.2.js:2154-2171 | The plain search is true exactly if some eligible node strictly along the direction passes the inner matcher. |
| Combinators.ClosestMatchesIsFirst | java/account/server/src/main/webapp/js/jquery-1.11.2.js:2128-2136 | The `first` search is true exactly if the first eligible node along the direction passes. |
| CollectionRuns.AlwaysAgrees | java/account/server/src/main/webapp/js/backbone.js:642-772 | In every state of every run of add, remove, set, reset and id changes from an empty collection, list, length and index agree. |
| CollectionRuns.StepSound | java/account/server/src/main/webapp/js/backbone.js:642-772 | Each operation keeps list, length and index in agreement. |
| CollectionSet.SetAgreesExactly | java/account/server/src/main/webapp/js/backbone.js:668-756 | With its default options `set` keeps the agreement if and only if no model object without an id is given twice. |
| CollectionRoles.SetExactly | java/account/server/src/main/webapp/js/backbone.js:668-756 | With its default options `set` leaves exactly the valid models given, in the order given and each id once; those in the collection or given as objects are the same objects, the others are new. |
| CollectionSet.AddAgrees | java/account/server/src/main/webapp/js/backbone.js:709-733 | `add`, and `set` at a position, keep the agreement, wherever `splice` puts the models. |
| CollectionRuns.AddExactly | java/account/server/src/main/webapp/js/backbone.js:637-639 | `add` leaves the list a prefix and appends, in the order given, exactly the models of the valid items that are neither in the collection nor given before. |
| CollectionPlaces.AddAtExactly | java/account/server/src/main/webapp/js/backbone.js:730-733 | `add` at a position within the list or at its end leaves what is before and after it, and puts there together and in order the models that `add` would append. |
| CollectionPlaces.AtExactly | java/account/server/src/main/webapp/js/backbone.js:668-756 | `add` and `set` at any position: the models that join are placed into the old list, or for `set` into those of its models that some item stands for, as `Spread` says. |
| CollectionPlaces.InsertedExactly | java/account/server/src/main/webapp/js/backbone.js:730-733 | Where the splices put models, for every position: together at a position from the start, at the end for one beyond it; a negative one moves with each model, so that the models go to the front, then each in front of the next one of the list, and the rest in front of all. |
| CollectionPlaces.ResetExactly | java/account/server/src/main/webapp/js/backbone.js:762-773 | After `reset` the list has exactly the models of the valid items, in the order given, each object and each id once. |
| CollectionPlaces.GetExactly | java/account/server/src/main/webapp/js/backbone.js:804-807 | `get` finds the listed model that is the object or has its id, and nothing else. |
| CollectionRuns.IdChangeAgreesExactly | java/account/server/src/main/webapp/js/backbone.js:939-947 | A change of id keeps the agreement if and only if no other listed model has the new id. |
| CollectionTheorems.RemoveExactly | java/account/server/src/main/webapp/js/backbone.js:642-662 | `remove` takes exactly the models its arguments stand for out of list and index, and keeps the order of the others. |
| CollectionState.AddIndexed | java/account/server/src/main/webapp/js/backbone.js:922-927 | Referencing a model that was not found extends the index by that model alone. |
| Collections.Collection.Set | java/account/server/src/main/webapp/js/backbone.js:668-756 | The two loops and the assembly on the object's fields compute the list, length, index and ids that `SetExactly`, `AddExactly` and `AtExactly` describe, also when list and index have come to disagree. |
| Collections.Collection.Remove | java/account/server/src/main/webapp/js/backbone.js:642-662 | The removal loop on the object's fields computes the specified state. |
| ModelTheorems.OutermostSet | java/account/server/src/main/webapp/js/backbone.js:331-371 | When an outermost `set` returns, whatever sets its listeners nested, `changed` is exactly the difference between the attributes at its start and now, and every change that was not silent was followed by a "change" event. |
| ModelTheorems.NestedSet | java/account/server/src/main/webapp/js/backbone.js:341-362 | A nested `set` at any depth keeps `changed` the difference from the start of the outermost one, and leaves an unannounced change pending. |
| ModelTheorems.ChangedExactly | java/account/server/src/main/webapp/js/backbone.js:331-371 | After an outermost `set` with any listeners, `changed` is the difference from its start if and only if no attribute was last unset with a value. |
| ModelTheorems.CallExactly | java/account/server/src/main/webapp/js/backbone.js:331-371 | Without listeners that set, `changed` is the difference after a call if and only if the call does not unset an attribute with a value. |
| ModelTheorems.IdExactly | java/account/server/src/main/webapp/js/backbone.js:338-339 | The id stays the attribute it copies if and only if that attribute was not last unset with a value. |
| ModelTheorems.IdCallExactly | java/account/server/src/main/webapp/js/backbone.js:338-339 | Without listeners that set, the id is the attribute it copies after a call if and only if the call does not unset that attribute with a value. |
| ModelTheorems.Settled | java/account/server/src/main/webapp/js/backbone.js:363-369 | The `while` loop ends with nothing pending and everything announced. |
| ModelTheorems.SetFollows | java/account/server/src/main/webapp/js/backbone.js:308-371 | Attributes, id and `changed` are what the assignments of the history make of them, and a call assigns its own attributes first. |
| ModelEvents.EventsExactly | java/account/server/src/main/webapp/js/backbone.js:331-371 | Without listeners that set, a loud call fires exactly one event for each entry that gives an attribute another value, in the order of the entries, and then one "change" event if there is such an entry; a silent call fires none. |
| ModelEvents.ValuesExactly | java/account/server/src/main/webapp/js/backbone.js:337-351 | After such a call the attributes named have the values given, or are gone if it unsets, all others are as before, and the id is the value given for the attribute it copies. |
| ModelEvents.EventsBalance | java/account/server/src/main/webapp/js/backbone.js:353-371 | Whatever sets listeners nest, each loud change is told by one event of its own, in order and those of a nested set first; a "change" event is fired only when nothing is left to tell and something has changed since the last one, and at the end nothing is owed. |
| ModelEvents.ChangesRecorded | java/account/server/src/main/webapp/js/backbone.js:341-351 | Each assignment of the history, nested or not, counts as changed exactly the attributes that had another value just before it. |
| ModelEvents.ListenersRun | java/account/server/src/main/webapp/js/backbone.js:353-371 | What listeners set in answer to an event stands in the history behind that event, the first directly behind it. |
| Models.Model.Set | java/account/server/src/main/webapp/js/backbone.js:308-371 | `set` on the object's fields, recursion through listeners included, computes the state and the history that `EventsExactly`, `EventsBalance` and `OutermostSet` are about. |
| JsonTheorems.RoundTrip | java/account/server/src/main/webapp/js/json2.js:227-351 | Every value is read back by a reader written from sections 2 to 7 of RFC 8259, for every indentation made of blanks; absent members are dropped, absent items and numbers that are not finite become null. |
| JsonTheorems.LosslessExactly | java/account/server/src/main/webapp/js/json2.js:368-381 | Printing and reading is lossless for every value if and only if the indentation is made of space, tab, line feed and carriage return. |
| JsonTheorems.IndentMustBeBlank | java/account/server/src/main/webapp/js/json2.js:376-381 | With any other indentation the text of `[null]` is not read as `[null]`. |
| JsonTheorems.ValueRoundTrip | java/account/server/src/main/webapp/js/json2.js:227-351 | A printed value is read back and the text after it is left, at every depth of indentation. |
| JsonLayout.LayoutExactly | java/account/server/src/main/webapp/js/json2.js:267-348 | A text with an indentation is the compact text laid out outside its strings: each item and each closing bracket on a line of its own, indented as deep as it is in brackets, empty arrays and objects unbroken, one space behind each colon; the compact text has no blank outside strings. |
| JsonLayout.MeantExactly | java/account/server/src/main/webapp/js/json2.js:256-348 | Nothing is added, lost or moved: an array keeps its length and order, absent items and numbers that are not finite being null, and an object keeps its members in order without the absent ones. |
| JsonLayout.SymbolsExactly | java/account/server/src/main/webapp/js/json2.js:179-348 | Brackets, comma, colon, quotes, signs, blanks and the three words are those of RFC 8259. |
| JsonLayout.EscapedExactly | java/account/server/src/main/webapp/js/json2.js:172-224 | Seven characters are written as a backslash and a letter, the other control and format characters as four hexadecimal digits without capitals, and all others as they are. |
| JsonLayout.FormExactly | java/account/server/src/main/webapp/js/json2.js:259-263 | A number has an exponent if and only if it has more than 21 digits in front of the point or at least six zeros behind it in front of its digits, and a point if and only if its digits do not end in front of it. |
| JsonRoundTrip.StringRoundTrip | java/account/server/src/main/webapp/js/json2.js:209-224 | A quoted string is read back, whichever of its characters are escaped. |
| JsonRoundTrip.CharRoundTrip | java/account/server/src/main/webapp/js/json2.js:216-221 | Short and four-digit escapes stand for the character. |
| JsonRoundTrip.NumberRoundTrip | java/account/server/src/main/webapp/js/json2.js:259-263 | The text of a finite number, with all its digits, with a fraction or with an exponent, is read back. |
| JsonRoundTrip.NumberMeans | java/account/server/src/main/webapp/js/json2.js:259-263 | What is read is the number that the digits and the exponent stand for. |
| JsonRoundTrip.IntegersInFull | java/account/server/src/main/webapp/js/json2.js:259-263 | An integer below ten to the power of 21 is written with exactly its digits. |
| JsonPrinter.Printer.Str | java/account/server/src/main/webapp/js/json2.js:227-351 | `str` computes the printed text, and its shared gap is restored on every return. |
| JsonPrinter.Printer.StringifySpaces | java/account/server/src/main/webapp/js/json2.js:355-397 | A number of spaces gives an indentation of that many spaces, none for a negative number. |
| BufferedReader.Rio.ReadNB | cpp/cpp98/util/TinyRio.cpp:110-129 | For every schedule of short reads and interruptions the next min(n, remaining) bytes of the stream are stored and taken from it; it fails if and only if a read that it made failed, and then loses no byte. |
| BufferedReader.Rio.ReadLineB | cpp/cpp98/util/TinyRio.cpp:136-157 | Stores and takes exactly the line up to the first newline, the limit or the end, then a 0; the result counts the bytes of a line that ends in a newline, and one more of one that was cut. It fails if and only if a read that it made failed. |
| BufferedReader.Rio.Read | cpp/cpp98/util/TinyRio.cpp:66-91 | Delivered and unread bytes together stay the stream; 0 only at its end, -1 exactly if a read failed. |
| BufferedReader.Rio.Refill | cpp/cpp98/util/TinyRio.cpp:70-82 | Interrupted reads are tried again; the stream is unchanged. |
| BufferedReader.LineAtNewline | cpp/cpp98/util/TinyRio.cpp:141-147 | A line ends at the first newline within the limit. |
| BufferedReader.LinesFlatten | cpp/cpp98/util/TinyRio.cpp:136-157 | Read line by line, the lines put together are the stream. |
| BufferedReader.LinesAreProper | cpp/cpp98/util/TinyRio.cpp:136-157 | Every line has a newline only at its end and no more bytes than the limit, and only the last can be cut short otherwise. |
| Connection.FdState.DoWrite | cpp/cpp98/util/TinyServer.cpp:170-191 | What is sent is a prefix of the turned bytes received up to the last newline, as many more as `send` takes, and all of it exactly when `writing` is off, across partial sends and the reset of the buffer. |
| Connection.FdState.DoRead | cpp/cpp98/util/TinyServer.cpp:138-168 | Every byte received is recorded in order, and kept exactly as long as the buffer has room. |
| Connection.FdState.Accept | cpp/cpp98/util/TinyServer.cpp:149-156 | One byte keeps n_written, write_upto and buffer_used in order, and `writing` on exactly while something up to the mark is unsent. |
| Connection.Rot13Exactly | cpp/cpp98/util/TinyServer.cpp:93-104 | Letters turn thirteen places round the alphabet and keep their case, all other bytes stay, and turning twice gives the byte back. |
| Connection.FdState.Turn | cpp/cpp98/util/TinyServer.cpp:273-288 | One pass of the server keeps all this: it reads, then, if nothing went wrong and there was something to write before, sends as much as `send` takes, and closes the connection exactly when one of the two failed or the peer had closed. |
| Connection.ReadExactly | cpp/cpp98/util/TinyServer.cpp:138-168 | Reading goes on as long as there is data, and the first answer that is none decides the result: 1 for the end of the connection, -1 for an error, 0 otherwise. |
| Connection.WriteExactly | cpp/cpp98/util/TinyServer.cpp:170-191 | The bytes sent are as many as the answers of `send` take together, at most all there are; the result is -1 exactly if an error comes before that. |
| Connection.KeptOfTagged | cpp/cpp98/util/TinyServer.cpp:149-151 | Of the bytes that arrive as many are kept as there is room for, turned and in order. |
| Connection.UptoOfTagged | cpp/cpp98/util/TinyServer.cpp:152-155 | The mark moves to the last newline that arrived, even when that newline itself was not kept. |
| Base64.RoundTrip | cpp/cpp98/util/TinyUtil.cpp:458-597 | The decoder gives back every sequence of octets from the encoder's text. |
| Base64.StrictRoundTrip | cpp/cpp98/src/util.c:145-185 | The decoder by blocks gives back the same octets, reads the whole text, and reports (3 - n mod 3) mod 3 missing characters. |
| Base64.EncodedLength | cpp/cpp98/util/TinyUtil.cpp:462-463 | The text of n octets has 4 times n/3, rounded up, characters. |
| Base64Text.EncodedExactly | cpp/cpp98/util/TinyUtil.cpp:458-503 | Character i of the text is the symbol of bits 6i to 6i + 5 of the octets, with zero bits behind the last, as long as there are bits left, and then the padding. |
| Base64Text.AlphabetExactly | cpp/cpp98/util/TinyUtil.cpp:460-461 | The symbols are the alphabet of RFC 4648, section 4, and the padding is `=`. |
| Base64Text.ValueExactly | cpp/cpp98/util/TinyUtil.cpp:505-530 | Both decoders take a character for the value whose symbol it is, and any other for none. |
| Base64Text.DecodedExactly | cpp/cpp98/util/TinyUtil.cpp:551-597 | Whatever text is decoded, the octets are the bits of its symbols one after the other; bits that do not fill an octet are dropped. |
| Base64.RoomEnough | cpp/cpp98/util/TinyUtil.cpp:532-549 | The room asked for in the decoder's pre-check is enough for every text whose length is not 5, 9, 13 and so on. |
| Base64.RoomShort | cpp/cpp98/util/TinyUtil.cpp:532-549 | For each of these lengths there is a text that decodes to more octets than the pre-check asks room for. |
| Base64Text.RoomExactly | cpp/cpp98/util/TinyUtil.cpp:532-549 | For each length the pre-check asks for the most octets a text of it can decode to, for one more if two characters are over, for two more if three are, and for one octet alone if one is. |
| Base64Text.BlockExactly | cpp/cpp98/src/util.c:145-165 | The octets of a block are the bits of its values, one octet fewer for each character that is no symbol, but at least one. |
| Base64Codec.Encode | cpp/cpp98/util/TinyUtil.cpp:458-503 | The loop stores the text and a 0 and nothing behind it, returns the length, and refuses a buffer shorter than the text. All writes stay within the length given if and only if that is greater than the length of the text, or the byte behind was 0 already. |
| Base64Codec.Decode | cpp/cpp98/util/TinyUtil.cpp:505-597 | The loop over the accumulator stores the octets that the symbols stand for, whatever else is between them, and a 0 after them. |
| Base64Codec.StringToOctets | cpp/cpp98/src/util.c:167-185 | The loop over blocks stores the octets up to the first block with a character that is no symbol, and refuses lengths that are not multiples of four. |
| Base64Codec.BlockToOctets | cpp/cpp98/src/util.c:145-165 | One block: its octets and the number of its characters that are no symbols. |
| Base64Codec.EncodeDecode | cpp/cpp98/util/TinyUtil.cpp:458-597 | What the encoder writes into a buffer both decoders turn back into the octets it was given, in buffers of the room that the pre-check asks for. |
| Throttle.AtLeastWaitApart | java/account/server/src/main/webapp/js/underscore.js:659-685 | Any two invocations of any run are at least `wait` apart, for all options and however late timers fire. |
| Throttle.NothingLost | java/account/server/src/main/webapp/js/underscore.js:659-685 | A pending timer is due exactly `wait` after `previous`; with trailing calls the latest arguments have been passed on or a timer is pending. |
| Throttle.TrailingCall | java/account/server/src/main/webapp/js/underscore.js:664-668 | When the timer fires the function gets the arguments of the latest call. |
| Throttle.ArgsAreLatest | java/account/server/src/main/webapp/js/underscore.js:673-674 | The arguments kept are those of the latest call of the run. |
| Throttle.CallPassedOn | java/account/server/src/main/webapp/js/underscore.js:669-684 | A call is passed on at once exactly if `wait` has passed since the last invocation, or for a first call as the options say. |
| Throttle.LeadingOffExactly | java/account/server/src/main/webapp/js/underscore.js:669-684 | With `leading` off a call is passed on at once if and only if there was a call before and `wait` has passed since `previous`. |
| Throttle.StepKeepsInv | java/account/server/src/main/webapp/js/underscore.js:659-685 | Every call and timer keeps the invariant. |
| Throttle.Throttled.Call | java/account/server/src/main/webapp/js/underscore.js:669-684 | The closure's variables change as specified. |
| LinearFit.NoneExactly | vc/WinConsoleApp/WebrtcSnippet.h:49-50 | There is no slope if and only if all packets arrived at the same time, or there is no packet. |
| LinearFit.SlopeIsBest | vc/WinConsoleApp/WebrtcSnippet.h:28-50 | The slope has a smaller sum of squared residuals than every other slope through the centre of mass. |
| LinearFit.FitIsBest | vc/WinConsoleApp/WebrtcSnippet.h:28-50 | Of all lines, whatever their slope and height, the one through the centre of mass with the slope computed has the smallest sum of squared residuals, and no other has as small a one. |
| LinearFit.SlopeOfLine | vc/WinConsoleApp/WebrtcSnippet.h:28-50 | Points on a line y = a + b x have the slope b. |
| LinearFit.LinearFitSlope | vc/WinConsoleApp/WebrtcSnippet.h:28-50 | The two loops compute the slope. |

## Left out

- The loader's plugins, shim configuration, script tags, timeouts, path fallbacks, `undef`, configuration and module name normalisation apart from `trimDots`: modules have names that are normalised already.
- Factories that throw or that call `require` themselves; error listeners. Factories are functions of their arguments that do not re-enter the loader.
- ModuleLoader.Context.On: the counter of a slot that is filled at once is not raised and lowered again; the two changes cancel before anything can see them.
- The identity of Module objects and of the maps in the loader: a module is a row of the tables in one record, so aliasing between objects is not modelled. The transfer from the global queue is not either; a script arrives together with its queue of definitions.
- ModuleLoader.Context.Run: what a script leaves queued behind a second anonymous definition is not carried over to the next event.
- `then`, `pipe`, `always` and `jQuery.when`, nested arrays of callbacks, callbacks that throw, and the context objects callbacks are called on.
- Sizzle's parser, its filters and its set matchers; the matchers inside a combinator have no effects of their own.
- Sorting collections with a comparator, merging attributes into models that are found, the events a collection fires, and `add: false`.
- CollectionRuns.IdChangeAgreesExactly: covers an id changed by a `set` that is not silent and not nested in another one of the same model, since the listener learns of no other change.
- Validation of a `set` is a given answer; the deep comparison of values is equality.
- `toJSON` methods and replacers in the JSON printer, and the whole of `JSON.parse`.
- JsonRoundTrip.NumberRoundTrip: a number is given by the decimal digits and the exponent that section 9.8.1 of ECMA-262 (edition 5.1) picks for it; how they are picked from its binary form is not modelled.
- BufferedReader.Rio.ReadLineB: counts are unbounded, so a limit beyond the range of `int` is not modelled; the same holds for the lengths in base64.
- Sockets, `select`, `accept` and the other servers with the same connection code.
- Base64Codec.Decode: the caller's buffer has room for the decoded text and one byte more for the final 0. The bytes of the accumulator are read lowest first, so the machine is a little-endian one.
- Base64Codec.Encode: a buffer with no byte behind a text of exactly the length given is left out, since the 0 would be written outside it.
- LinearFit.LinearFitSlope: rounding of floating point numbers is not modelled.
- The chart, the configuration reader, the web service and all other code of the repository, which is input and output or would only add easy members.
