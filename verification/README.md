# Front-end machinery of BGERP: a verified model

The project models the stateful parts of the web client, and the walks over the group hierarchy on the server. Each
part has a specification on values, a method for every operation that the program performs in place, proved against
that specification, and lemmas that state what the operations are for.

- **Callback lists and Deferreds** (`Callbacks`, `CallbackLists`, `Deferreds`, `DeferredRuns`, `DeferredObjects`,
  `Then`, `When`). A callback list is a machine whose steps are the public operations and the turns of the firing loop.
  Whatever a running callback does is the operations that come before the next turn, so re-entrant use is included. A
  Deferred is six such lists and a stack of the loops in progress. The laws compare what is called with the calls that
  the run makes, and loops are proved to end. `Then` numbers the closures of `then` by depth, splits their calls where
  foreign code runs, and compares the depth counter with the resolution procedure of Promises/A+, where every adopted
  thenable has a flag of its own.
- **Page loads** (`ContentLoads`, `ContentLoadEnds`, `ContentLoaders`). Root loads are chained by
  `contentLoad`; the loads inside a root load are resolved from the inside out. The `Loader` object keeps a ghost
  history, and each method says what its caller may rely on as long as the history has no call inside a call, or no
  nested load registered too late.
- **Selectors** (`Selectors`, `SelectorEngines`, `NthChild`). The meaning of a selector is given by section 8 of
  Selectors Level 3; the compiled matchers, the memoised search with its shared cache records, and the seeded and
  unseeded loops are proved to compute it. A cache record is an object that stays shared and is completed later.
- **The tree table** (`Forests`, `Branches`, `Surgery`, `TableRows`, `TableLoads`, `TableOrders`,
  `TreeTables`, `TreeViews`, `TreeTableViews`). Parent ids, children arrays, node list and table rows are changed in
  place; nodes are represented by their ids. A ghost map from each node to its ancestors says that the forest is acyclic.
- **The check box tree** (`CheckTrees`, `CheckBoxes`), **the group hierarchy** (`UserCaches`), **Base64 and UTF-8**
  (`Base64s`, `Base64Codecs`), and **the split of request parameters** (`PostParams`).

`Common` holds the optional value. The whole project can be checked with `dafny verify dfyconfig.toml`.

## Where the code does not do what it promises

In these cases the model follows the code, a lemma gives an input, and another one says exactly when the promise is kept.

- `:nth-last-child` looks for a child that has no counter yet from the child's own previous sibling, and leaves wrong
  counters on all earlier siblings (`NthChild.MiscountExample`). The results of a run are right if and only if no query
  is for a child before the first one queried (`NthChild.NthLastChildren`).
- A function of an adopted thenable that is called again after the promise has settled still calls the `then` method
  of a thenable passed to it, which Promises/A+ tells it to ignore; the outcome stays (`Then.RepeatedCallIsInert`).
- Such a function checks its depth before the property `then` of the value passed to it is read. If that is a getter
  which calls the same function again, the inner call passes the same check and settles the promise, where Promises/A+
  lets the first call take precedence (`Then.InterruptedExample`). The outcome is the standard's in all runs without
  such a call (`Then.FollowsStandard`), and the next call puts it at risk if and only if it is one
  (`Then.InterruptionDecides`).
- `when` counts calls, not arguments: a thenable that calls its callback twice makes `remaining` too small, and this is
  the only way (`When.RemainingIsUnresolved`, `When.DoubleResolveExample`). A thenable that resolves and then throws
  rejects the master although every argument gets resolved (`When.ThrowAfterResolveExample`). What decides in general
  is the first rejection or the n-th update call, whichever comes first (`When.FirstDecides`,
  `When.PendingUntilDecided`).
- `contentLoad` replaces its variable after it has started the load. A call made from inside the synchronous part of
  another call therefore starts while the outer load goes on (`ContentLoads.CallInsideExample`), and since the outer
  load becomes the current one again, a later call from outside can overlap the inner load as well
  (`ContentLoads.LaterOverlapExample`). As long as no call was made inside another one, the next call leads to an
  overlap, at once or through a later call, if and only if another call has not returned yet
  (`ContentLoads.CallOverlaps`).
- A nested load registered after the after-load script of its parent is not waited for by it
  (`ContentLoads.LateLoadExample`). A resolved load has an unresolved one below it if and only if it, or a load below
  it, was resolved without waiting for a child that is unresolved still (`ContentLoads.UndoneBelow`,
  `ContentLoads.RootUndone`), and a child is waited for if and only if it was registered before its parent's after-load
  script (`ContentLoads.RegisteredInTime`).
- `getUserGroupChildFullSet` does not descend into a group whose stored child count is not positive
  (`UserCaches.UncountedExample`, `UserCaches.ReachedExactly`, `UserCaches.CompleteWhenCounted`).
- A URL that starts with a searched name keeps every parameter of that name (`PostParams.StartExample`,
  `PostParams.NothingLeft`).

## Model

| member | source | states |
|---|---|---|
| `Callbacks.RegisteredSeesEveryValue` | webapps/lib/jquery-3.3.1.js:3255-3409 | In a memory list, whatever operations come before and after, also from inside running callbacks, a registered callback that is not removed is called with exactly the consecutive fired values from the one being fired or last fired on, in order, none skipped or repeated |
| `Callbacks.ApplyKeeps` | webapps/lib/jquery-3.3.1.js:3255-3409 | Every operation and every turn of the loop keeps the invariant: distinct registrations, a firing index inside the list, control variables that agree, and each entry owed at most the value being fired |
| `Callbacks.RunInv` | webapps/lib/jquery-3.3.1.js:3255-3409 | The invariant holds after every run of operations and turns |
| `Callbacks.RemoveOwes` | webapps/lib/jquery-3.3.1.js:3334-3347 | With the firing index stepped back, the loop owes every entry left by a removal the same value as before, so none is skipped or called twice |
| `Callbacks.AddKeeps` | webapps/lib/jquery-3.3.1.js:3303-3331 | Adding to a list with memory, firing or at rest, gives each new callback the current value first and keeps the invariant |
| `Callbacks.EverySendFires` | webapps/lib/jquery-3.3.1.js:3255-3402 | In every run of a list without `once` that is neither locked nor disabled, a list at rest has fired exactly the values of the `fireWith` calls of the run, in order, those made from inside callbacks included; while it fires, the first of them |
| `Callbacks.EveryValueReaches` | webapps/lib/jquery-3.3.1.js:3303-3402 | In such a run of a list with memory, a callback that is not removed was called, once the list is at rest, with every value sent from the one fired last before it was added, in order |
| `Callbacks.RemovedForGood` | webapps/lib/jquery-3.3.1.js:3334-3347 | After a removal, also one made while the list is being fired, the removed registration is never called again in any run that follows |
| `Callbacks.RemovedSeesNoMore` | webapps/lib/jquery-3.3.1.js:3263-3301 | A registration number that is not in the list stays out of it and sees nothing more in any run |
| `Callbacks.AllSeen` | webapps/lib/jquery-3.3.1.js:3255-3301 | In every run without removals and without `disable`, a list at rest has called each registration ever made with exactly the values fired since it was made, in a memory list from the value current then |
| `Callbacks.OnceFiresFirst` | webapps/lib/jquery-3.3.1.js:3255-3402 | A list with the option `once` fires nothing but the first value sent in the run, and does fire it unless the list is locked or disabled |
| `Callbacks.LockEnds` | webapps/lib/jquery-3.3.1.js:3380-3386 | After `lock` no further value is fired in any run, neither queued ones nor later ones |
| `Callbacks.LockedListens` | webapps/lib/jquery-3.3.1.js:3380-3386 | A locked list with memory goes on to take callbacks, for the value last fired, if and only if it has fired one |
| `Callbacks.SpentForGood` | webapps/lib/jquery-3.3.1.js:3303-3409 | A spent list takes no callback and fires nothing in any run |
| `Callbacks.DisableEnds` | webapps/lib/jquery-3.3.1.js:3368-3372 | After `disable` nothing more is called, fired or registered in any run, also when it came from inside a callback |
| `Callbacks.ComesToRest` | webapps/lib/jquery-3.3.1.js:3263-3297 | Left alone, the loop ends, after exactly as many turns as the queue and the entries not yet called make |
| `Callbacks.RegisteredSeesLater` | webapps/lib/jquery-3.3.1.js:3255-3409 | In a list without memory a callback added at rest sees exactly the values fired later |
| `CallbackLists.CallbackList.Add` | webapps/lib/jquery-3.3.1.js:3303-3331 | The object's new state is the specified one, and stays valid |
| `CallbackLists.CallbackList.Remove` | webapps/lib/jquery-3.3.1.js:3334-3347 | All entries of the callback are cut out by the search loop and the firing index is kept in step |
| `CallbackLists.CallbackList.Splice` | webapps/lib/jquery-3.3.1.js:3335-3344 | The loop cuts out every entry of the callback, in any position relative to the firing index, and leaves the index on the entry it stood on, or before |
| `CallbackLists.CallbackList.FireWith` | webapps/lib/jquery-3.3.1.js:3392-3402 | On an unlocked list the value joins those accepted and the list is firing, by this call or already; a locked list is left as it is |
| `CallbackLists.CallbackList.Lock` | webapps/lib/jquery-3.3.1.js:3380-3386 | Locks the list, drops queued values, and keeps the callbacks of a list that fires or remembers a value; any other list is spent |
| `CallbackLists.CallbackList.Disable` | webapps/lib/jquery-3.3.1.js:3368-3372 | Drops list, memory and queue for good |
| `CallbackLists.CallbackList.Next` | webapps/lib/jquery-3.3.1.js:3263-3297 | One turn of the loop calls the entry behind the firing index, or goes on to the next queued value, or ends the firing with memory and list as the options demand |
| `CallbackLists.RemovalTurn` | webapps/lib/jquery-3.3.1.js:3337-3344 | One turn of the removal loop changes neither the final list nor the final firing index |
| `Deferreds.DeferredLaw` | webapps/lib/jquery-3.3.1.js:3692-3744 | For every callback added to a Deferred, before, during or after settlement, and every run of user calls and turns of the loops around it: it is called only when the state is resolved for `done`, rejected for `fail`; once all is quiet it was called exactly once, with the arguments of the first settling call, if that call is of its kind, and never otherwise |
| `Deferreds.ListenRegisters` | webapps/lib/jquery-3.3.1.js:3303-3331 | Adding a callback registers it under exactly one new number of its own, unless the Deferred is settled in the other way; then it registers nothing |
| `Deferreds.RunNamed` | webapps/lib/jquery-3.3.1.js:3692-3744 | In every run a registration number keeps its callback |
| `Deferreds.OpLists` | webapps/lib/jquery-3.3.1.js:3692-3744 | Whatever happens to a Deferred, each of its lists goes through operations of a callback list without any removal |
| `Deferreds.ApplyKeeps` | webapps/lib/jquery-3.3.1.js:3692-3744 | Every user call and every turn keeps the invariant that ties the six lists, the state and the loops in progress together |
| `Deferreds.SettlesOnce` | webapps/lib/jquery-3.3.1.js:3702-3708 | A settled Deferred keeps its state, and the call that settled it stays the first |
| `Deferreds.StateBeforeCallbacks` | webapps/lib/jquery-3.3.1.js:3703-3730 | A callback of `done`, or a fulfilled handler of `then`, is called only when the state is resolved; one of `fail`, or a rejected handler, only when it is rejected |
| `Deferreds.NeverBoth` | webapps/lib/jquery-3.3.1.js:3711-3717 | Callbacks of `done` and of `fail` are never both called |
| `Deferreds.EachRunsOnce` | webapps/lib/jquery-3.3.1.js:3692-3744 | At rest the state is resolved after `resolve` and rejected after `reject`, each registered callback of that kind was called exactly once with the first settling value, each registered one of the other kind never |
| `Deferreds.OwnActsPart` | webapps/lib/jquery-3.3.1.js:3703-3730 | Each of the Deferred's own callbacks takes the list it acts on to its next stage: the opposite lists shut, the progress lists locked, the handlers fired |
| `Deferreds.FirstSendKeeps` | webapps/lib/jquery-3.3.1.js:3743 | The first `resolve` or `reject` starts the Deferred's own callbacks before any user callback |
| `DeferredRuns.FirstOfRun` | webapps/lib/jquery-3.3.1.js:3392-3402 | The first settling call is the first `resolve` or `reject` among the calls of the run, with its arguments |
| `DeferredRuns.FinalState` | webapps/lib/jquery-3.3.1.js:3692-3708 | In every run, once all is quiet, the state is resolved if and only if the first settling call was `resolve`, rejected if and only if it was `reject`, and pending if and only if there was none |
| `DeferredRuns.CalledInState` | webapps/lib/jquery-3.3.1.js:3703-3717 | In every run, a called callback of `done` or fulfilled handler means that the state is resolved, one of `fail` or rejected handler that it is rejected |
| `DeferredRuns.CallbackMayCall` | webapps/lib/jquery-3.3.1.js:3263-3290 | While a user callback is called, it may make any call on the Deferred |
| `DeferredRuns.ComesToRest` | webapps/lib/jquery-3.3.1.js:3263-3297 | Left alone, all loops in progress around a Deferred end, own callbacks and the loops they start included |
| `DeferredRuns.ProgressLaw` | webapps/lib/jquery-3.3.1.js:3733-3743 | Until the Deferred is settled, when all is quiet the progress callbacks and the progress handlers were fired with exactly the values of the `notify` calls of the run, in order |
| `DeferredRuns.NoProgressAfterwards` | webapps/lib/jquery-3.3.1.js:3719-3730 | Once the Deferred is settled and a user callback or later code runs, `notify` has no effect for good |
| `DeferredObjects.DeferredObject.constructor` | webapps/lib/jquery-3.3.1.js:3462-3474 | A new Deferred is pending, with six lists of its own and its own callbacks registered first |
| `DeferredObjects.DeferredObject.Listen` | webapps/lib/jquery-3.3.1.js:3696-3699 | Adding a callback, also during or after settlement, has the specified effect on all six list objects and the loops in progress |
| `DeferredObjects.DeferredObject.Send` | webapps/lib/jquery-3.3.1.js:3740-3743 | `notifyWith`, `resolveWith` and `rejectWith` have the specified effect |
| `DeferredObjects.DeferredObject.PerformOwn` | webapps/lib/jquery-3.3.1.js:3703-3730 | The own callbacks make the state resolved in the `done` list and rejected in the `fail` list, and shut, lock or fire exactly the list object they name |
| `DeferredObjects.DeferredObject.Turn` | webapps/lib/jquery-3.3.1.js:3255-3297 | One turn of the innermost loop over shared list objects is the specified step |
| `Then.FollowsStandard` | webapps/lib/jquery-3.3.1.js:3518-3681 | For every order of nested and later calls, rejections, exceptions and notifications at any depth in which no closure passes its check between the check of another one and its effect, the outcome is that of the Promises/A+ resolution procedure, section 2.3.3.3, with a called-flag per thenable, and so are the values notified |
| `Then.InterruptionDecides` | webapps/lib/jquery-3.3.1.js:3530-3570 | As long as there was no interruption, a call of a closure can lead to another outcome than the standard's if and only if it passes its check while a closure that passed the same check has not taken effect yet |
| `Then.InterruptedExample` | webapps/lib/jquery-3.3.1.js:3534-3579 | A thenable resolves with another one whose `then` getter resolves it with 7: the promise is fulfilled with 7, where the standard follows the other thenable |
| `Then.AdoptedIsReached` | webapps/lib/jquery-3.3.1.js:3567-3579 | The state from which the examples start is reached when the handler returns a thenable |
| `Then.FirstResolutionCounts` | webapps/lib/jquery-3.3.1.js:3527-3532 | Once a source has been used and its call is over, nothing that it and older sources do in any further run changes the outcome, and while the promise is pending they do not get a `then` method called |
| `Then.SettledForGood` | webapps/lib/jquery-3.3.1.js:3584-3624 | Once settled, the promise keeps its first outcome through all further calls and throws, and notifies no more |
| `Then.RepeatedCallIsInert` | webapps/lib/jquery-3.3.1.js:3527-3579 | A repeated call with a thenable is ignored altogether if and only if a newer thenable has been adopted |
| `Then.RepeatedCallExample` | webapps/lib/jquery-3.3.1.js:3567-3578 | A thenable that resolves with a value and then with another thenable has the latter's `then` called in vain |
| `Then.HandlerSettles` | webapps/lib/jquery-3.3.1.js:3536-3624 | A handler that returns a plain value fulfils the promise with it; one that throws, returns a thenable whose `then` cannot be read, or returns the promise itself rejects it |
| `Then.ThenableSettles` | webapps/lib/jquery-3.3.1.js:3567-3624 | An adopted thenable fulfils the promise with a plain value, and rejects it when its `then` throws before any of its functions was called |
| `Then.ThenPromise.Enter` | webapps/lib/jquery-3.3.1.js:3524-3534 | A call of a closure changes no outcome before its effect; the run stays without interruption unless the call passes its check while another one has passed it |
| `Then.ThenPromise.MightThrow` | webapps/lib/jquery-3.3.1.js:3536-3595 | Takes the effect of a closure at its depth; either the state is the specified one or an exception is raised whose handling gives it |
| `Then.ThenPromise.Process` | webapps/lib/jquery-3.3.1.js:3598-3625 | After the effect and the `catch`, the outcome is the standard's for the calls made so far if none interrupted another, and a settled promise stays as it is |
| `Then.ThenPromise.ThenEnded` | webapps/lib/jquery-3.3.1.js:3567-3624 | An exception of a `then` method leaves the promise as the standard has it: rejected only if that thenable has not been used |
| `Then.ThenPromise.NotifyAt` | webapps/lib/jquery-3.3.1.js:3558-3592 | A progress closure passes on the value its handler returns and leaves the outcome as the standard has it; a settled promise or an older closure notifies nothing |
| `When.FirstDecides` | webapps/lib/jquery-3.3.1.js:3776-3803 | For two or more arguments and every sequence of their calls, repeated and contradictory ones included, the first call that rejects or is the n-th update call decides the master for good, in the latter case with the last value given to each slot so far |
| `When.PendingUntilDecided` | webapps/lib/jquery-3.3.1.js:3776-3803 | The master is pending if and only if there has been no such call |
| `When.ThrowAfterResolveExample` | webapps/lib/jquery-3.3.1.js:3427-3460 | A thenable that resolves and then throws rejects the master although all arguments get resolved |
| `When.WhenLaw` | webapps/lib/jquery-3.3.1.js:3759-3805 | For two or more promises, which settle at most once each, the master is resolved exactly when all are, each value in its argument's place, and is rejected with the first rejection; `remaining` is the number of unresolved arguments |
| `When.OrderDoesNotMatter` | webapps/lib/jquery-3.3.1.js:3776-3784 | Two orders of completion with the same values give the same result |
| `When.RemainingIsUnresolved` | webapps/lib/jquery-3.3.1.js:3776-3784 | `remaining` equals the number of arguments not resolved if and only if no update function was called twice |
| `When.DoubleResolveExample` | webapps/lib/jquery-3.3.1.js:3776-3784 | A thenable that resolves twice resolves the master although another argument is still waiting |
| `When.RemainingCountsCalls` | webapps/lib/jquery-3.3.1.js:3776-3784 | In every run `remaining` is the number of arguments less the number of update calls |
| `When.InitialCallsOnce` | webapps/lib/jquery-3.3.1.js:3799-3802 | The loop itself settles each argument at most once |
| `When.AdoptedAtOnce` | webapps/lib/jquery-3.3.1.js:3427-3460 | When the loop over the arguments has ended, each value or resolved promise is in its place and `remaining` is the number of the others; the master is resolved with all of them if there is no other, rejected with the reason of the last rejected argument if there is one, and pending otherwise |
| `When.Aggregation.constructor` | webapps/lib/jquery-3.3.1.js:3762-3802 | The loop goes over the arguments from the last to the first: values and resolved promises are in their places at once, `remaining` is the number of the others, the last rejected argument rejects the master, and all resolved ones resolve it |
| `When.Aggregation.UpdateFunc` | webapps/lib/jquery-3.3.1.js:3776-3784 | After any history of calls, `remaining` is at most the number of unresolved arguments; as long as each settled at most once it is that number, and the master is resolved, in argument order, just when it is zero; a settled master stays |
| `When.Aggregation.RejectWith` | webapps/lib/jquery-3.3.1.js:3801 | After any history of calls, only the first rejection counts, and only while the master is pending |
| `ContentLoads.OneAtATime` | webapps/js/kernel.shell.js:123-137 | In every run in which no call is made from inside another call's synchronous part, two root loads never overlap, they go in call order, and only the running one owns `loadDfd` |
| `ContentLoads.CallOverlaps` | webapps/js/kernel.shell.js:126-137 | In every run so far without a call inside a call, the next call leads to overlapping loads, at once or through later calls from outside, if and only if it is made while another call has not returned |
| `ContentLoads.CallInsideExample` | webapps/js/kernel.shell.js:126-137 | Two loads run at the same time when the second call is made inside the first |
| `ContentLoads.LaterOverlapExample` | webapps/js/kernel.shell.js:126-137 | After a call inside a call, a call from outside overlaps the inner load |
| `ContentLoads.InOrderKeeps` | webapps/js/kernel.shell.js:126-137 | Every step but a call made inside a call keeps the order: a load has started only if all called before it are finished |
| `ContentLoads.OwnedKeeps` | webapps/js/kernel.ajax.js:102-145 | As long as no call was made inside another one, every step keeps `loadDfd` with the root load that is loading or running its callbacks |
| `ContentLoads.UndoneBelow` | webapps/js/kernel.ajax.js:118-131 | In every run, a resolved load has an unresolved one somewhere below it if and only if it, or a load below it, was resolved without waiting for a child that is unresolved still |
| `ContentLoads.RootUndone` | webapps/js/kernel.ajax.js:105-139 | In every run, a root load is resolved while one of its loads is not if and only if one of them was resolved without waiting for a child that is unresolved still |
| `ContentLoads.RegisteredInTime` | webapps/js/kernel.ajax.js:118-131 | In every run a parent waits for a child if and only if the child was registered before the parent's after-load script |
| `ContentLoads.RootWaitsForNested` | webapps/js/kernel.ajax.js:105-139 | When nested loads are registered in time, a root load's Deferred is resolved only after those of all loads nested in its subtree, at any depth and in any order of completion |
| `ContentLoads.AroundDone` | webapps/js/kernel.ajax.js:118-131 | When all loads are waited for by their parents, a resolved load has only resolved loads below it, at any depth |
| `ContentLoads.LateLoadExample` | webapps/js/kernel.ajax.js:118-131 | A load registered after its parent's after-load script is not waited for |
| `ContentLoadEnds.EveryLoadEnds` | webapps/js/kernel.ajax.js:102-145 | In every run without a call inside a call, some load can go on until all are finished, every step that goes on takes the run nearer to that, and it can be reached: no order of completions leaves a load waiting for good |
| `ContentLoadEnds.NeverStuck` | webapps/js/kernel.shell.js:123-137 | A load that waits always waits for one that can go on |
| `ContentLoaders.Loader.ContentLoad` | webapps/js/kernel.shell.js:126-133 | A load called from outside starts at once only if all earlier ones are finished, and waits for the one before it otherwise; the call leads to an overlap if and only if another one has not returned |
| `ContentLoaders.Loader.EndContentLoad` | webapps/js/kernel.shell.js:134-136 | The next call from outside waits for the load called last |
| `ContentLoaders.Loader.ContentLoadAsync` | webapps/js/kernel.shell.js:131-133 | A load that waited starts when all before it are finished and none behind it has started |
| `ContentLoaders.Loader.Load` | webapps/js/kernel.ajax.js:102-145 | A load with a Deferred gets a `loadDfd` that nobody holds, while no other root load is going on |
| `ContentLoaders.Loader.LoadInside` | webapps/js/kernel.ajax.js:160-181 | A nested load is below its parent, and is not waited for by a parent past its after-load script |
| `ContentLoaders.Loader.EndCallbacks` | webapps/js/kernel.ajax.js:141-144 | When a root load ends, `loadDfd` is free, all loads up to it are finished and all later ones waiting |
| `ContentLoaders.Loader.RunAfterLoad` | webapps/js/kernel.ajax.js:118-131 | The loop makes the load wait for exactly the loads whose containers are inside its own |
| `ContentLoaders.Loader.ResolveLoad` | webapps/js/kernel.ajax.js:128-133 | If all were registered in time, everything below the load is resolved; the Deferred of a root load is resolved with its container |
| `NthChild.AcceptsFormula` | webapps/lib/jquery-3.3.1.js:1757-1762 | A position is accepted if and only if it is a*n+b for some n >= 0 (section 6.6.5.2 of Selectors Level 3), with JavaScript's remainder and division, for all a and b |
| `NthChild.Parent.NthChild` | webapps/lib/jquery-3.3.1.js:1792-1823 | Whatever was queried before in the run, the search from the cached index with its wrap-around ends at the element with its 1-based position among element siblings, and leaves a right counter |
| `NthChild.Parent.NthLastChild` | webapps/lib/jquery-3.3.1.js:1825-1872 | What a query from the end answers and caches, as a function of the child queried first |
| `NthChild.NthLastChildren` | webapps/lib/jquery-3.3.1.js:1825-1872 | The answers of a run of queries from the end are all right if and only if none is for a child before the first one queried |
| `NthChild.RightFromFirstOn` | webapps/lib/jquery-3.3.1.js:1842-1870 | After a first query, a child gets its right position from the end if and only if it is that child or a later one |
| `NthChild.MiscountExample` | webapps/lib/jquery-3.3.1.js:1842-1870 | Of two element children, queried last first, the first is said to be the last one |
| `NthChild.PositionsCount` | webapps/lib/jquery-3.3.1.js:1801-1815 | The position of a child is the number of element children up to it, and from the end the number from it on |
| `Selectors.CompileCorrect` | webapps/lib/jquery-3.3.1.js:2409-2465 | The closures compiled from the tokens accept exactly the elements the selector represents (section 8 of Selectors Level 3): some chain of ancestors or previous siblings satisfies the compounds |
| `Selectors.SimpleMeaning` | webapps/lib/jquery-3.3.1.js:1709-1750 | A simple selector alone represents all nodes, those with the tag name, those of the class, or those that pass the attribute test |
| `Selectors.CompoundMeaning` | webapps/lib/jquery-3.3.1.js:2409-2465 | A compound represents what all its parts represent; a combinator asks for a related element that the selector before it represents |
| `Selectors.CombinatorMeaning` | webapps/lib/jquery-3.3.1.js:1625-1630 | A child has the element as its parent, an adjacent one is the only one of its kind and of the same parent; descendants and siblings come from repeating these two (sections 8.1 to 8.3 of Selectors Level 3) |
| `Selectors.FoundIsRelated` | webapps/lib/jquery-3.3.1.js:2226-2269 | Walking up or back finds an accepted element if and only if one stands in the relation of the combinator |
| `Selectors.NearestIsRelated` | webapps/lib/jquery-3.3.1.js:2215-2224 | A child or adjacent combinator relates an element to the nearest element in its direction only |
| `Selectors.NearestDecides` | webapps/lib/jquery-3.3.1.js:2215-2224 | Asking the nearest element alone decides a child or adjacent combinator |
| `SelectorEngines.Engine.Search` | webapps/lib/jquery-3.3.1.js:2226-2269 | The memoised search gives the answer of the uncached one for every element and every order of queries in a run, and leaves every cache record right, although one record object is shared by all elements visited and written last |
| `SelectorEngines.Engine.MatchNearest` | webapps/lib/jquery-3.3.1.js:2215-2224 | The search of a child or adjacent combinator asks the nearest element only, and no farther one |
| `SelectorEngines.Engine.Match` | webapps/lib/jquery-3.3.1.js:2272-2284 | The conjunction of matchers, asked from the last to the first, answers as specified and keeps all caches right |
| `SelectorEngines.Engine.SuperMatcher` | webapps/lib/jquery-3.3.1.js:2470-2506 | The loop collects exactly the accepted elements, once each and in order, in a run of its own |
| `SelectorEngines.Engine.MatcherFromTokens` | webapps/lib/jquery-3.3.1.js:2409-2465 | Compiles tokens with a new cache name for each combinator |
| `SelectorEngines.Engine.CompileGroup` | webapps/lib/jquery-3.3.1.js:2589-2597 | The matchers of a group share no cache name and accept exactly the elements of the group |
| `SelectorEngines.Engine.Select` | webapps/lib/jquery-3.3.1.js:2617-2685 | For every document and selector group of the standard's grammar, scanned or seeded from the last compound, the result is exactly the elements represented by one of the selectors, once each in document order |
| `SelectorEngines.Engine.SelectFromSeed` | webapps/lib/jquery-3.3.1.js:2645-2683 | Filtering the elements found for one simple selector by the remaining tokens gives the same result |
| `SelectorEngines.SelectionIsUnique` | webapps/lib/jquery-3.3.1.js:2617-2685 | There is only one such result, so scan and seed agree |
| `SelectorEngines.SeedSplits` | webapps/lib/jquery-3.3.1.js:2654-2669 | A simple selector of the last compound may be taken out and tested first |
| `SelectorEngines.CompileChain` | webapps/lib/jquery-3.3.1.js:2433-2436 | Compiled matchers have a combinator only in first place and use each cache name once |
| `TableLoads.EveryRunInStep` | webapps/lib/treetable/jquery.treetable.js:281-398 | From a table in pre-order, after any run of moves, sorts and removals parent ids and children arrays are a consistent acyclic forest and every branch is one contiguous block of rows headed by its own row |
| `TableRows.RunKeepsRows` | webapps/lib/treetable/jquery.treetable.js:309-337 | A run of moves and sorts loses no row and makes none: the same rows are listed in another order, and the node list is untouched |
| `TableRows.AppliedInStep` | webapps/lib/treetable/jquery.treetable.js:309-398 | Each operation keeps forest, nodes and rows in step; a move that the guard refuses changes nothing |
| `TableRows.MovedInStep` | webapps/lib/treetable/jquery.treetable.js:309-337 | After any move to a node outside the branch the forest is acyclic, parent ids and children arrays agree, rows list every node once, and every branch is one block of rows headed by its own row |
| `TableRows.SortedInStep` | webapps/lib/treetable/jquery.treetable.js:371-379 | The same after sorting the children of a node in any way |
| `TableRows.CutInStep` | webapps/lib/treetable/jquery.treetable.js:339-356 | The same after cutting whole branches out of forest, node list and rows |
| `TableRows.UnderwayStep` | webapps/lib/treetable/jquery.treetable.js:405-410 | Moving one more child in the backward loop puts its branch in front of the later ones, in pre-order |
| `TableLoads.LoadedInStep` | webapps/lib/treetable/jquery.treetable.js:281-307 | A table in pre-order gives forest, node list and rows in step |
| `TableOrders.LoadedOrder` | webapps/lib/treetable/jquery.treetable.js:281-307 | From a table in pre-order, the pre-order of every branch of the loaded forest is the rows of the branch in table order; children stand in their array as in the table |
| `TableOrders.MovedOrder` | webapps/lib/treetable/jquery.treetable.js:168-175 | The moved node becomes the last child of its new parent; all other children keep their order |
| `TableOrders.MovedRowOrder` | webapps/lib/treetable/jquery.treetable.js:309-337 | A move changes neither the order of the rows outside the branch nor, against the branch's own pre-order, that inside it |
| `TableOrders.FirstMoveKeepsOrder` | webapps/lib/treetable/jquery.treetable.js:281-337 | The first move after loading a table in pre-order keeps the order of the moved rows, and of the others |
| `TableOrders.MoveDone` | webapps/lib/treetable/jquery.treetable.js:309-337 | A move is refused exactly for the node itself, a node below it, and its parent. Otherwise only the node's parent changes, it becomes the last child, and its rows stand in pre-order directly behind the destination's row, the other rows as before |
| `TableOrders.SortDone` | webapps/lib/treetable/jquery.treetable.js:371-379 | Sorting changes one children array and no parent; what is below the node stands behind its row in the new pre-order, the other rows as before |
| `Surgery.MovedWf` | webapps/lib/treetable/jquery.treetable.js:168-175 | Hanging a branch under a node outside it keeps the forest acyclic and its links consistent |
| `Surgery.MovedBranch` | webapps/lib/treetable/jquery.treetable.js:168-175 | The branches inside the moved one stay the same; every other branch gives it up, or gains it with its new parent |
| `Surgery.CutTwice` | webapps/lib/treetable/jquery.treetable.js:381-390 | Cutting twice is cutting both sets at once |
| `Forests.BelowIsUnderChild` | webapps/lib/treetable/jquery.treetable.js:121-127 | A node below another lies in the branch of one of its children |
| `Forests.SiblingsApart` | webapps/lib/treetable/jquery.treetable.js:121-127 | The branches of siblings have nothing in common |
| `Branches.PreorderBlock` | webapps/lib/treetable/jquery.treetable.js:400-411 | In the pre-order of a branch each branch within it is one block headed by its own row |
| `TreeTables.Splice` | webapps/lib/treetable/jquery.treetable.js:129-132 | Takes out the item found; a failed search takes the last one |
| `TreeTables.TreeTable.constructor` | webapps/lib/treetable/jquery.treetable.js:241-249 | A new tree has no nodes |
| `TreeTables.TreeTable.LoadRows` | webapps/lib/treetable/jquery.treetable.js:281-307 | Reads rows into nodes, children under known parents; for a table in pre-order the result is in step, and all children arrays are in table order |
| `TreeTables.TreeTable.Ancestors` | webapps/lib/treetable/jquery.treetable.js:40-48 | Exactly the proper ancestors, nearest first, by a loop that ends |
| `TreeTables.TreeTable.SetParent` | webapps/lib/treetable/jquery.treetable.js:168-175 | Takes the node out of its old parent's array, adds it to the new one's, and changes no other link |
| `TreeTables.TreeTable.MoveRows` | webapps/lib/treetable/jquery.treetable.js:400-411 | Outside its branch: the old rows without the branch, with the branch in pre-order directly behind the destination's row. Onto itself: the branch in exact pre-order behind its own row |
| `TreeTables.TreeTable.InsertAfter` | webapps/lib/jquery-3.3.1.js:4800-4806 | A row inserted behind itself stays where it is |
| `TreeTables.TreeTable.Move` | webapps/lib/treetable/jquery.treetable.js:309-337 | If the destination is outside the branch and not already the parent, hangs the node there as the last child, with its rows in pre-order directly behind the destination's and everything else in its old order; changes nothing otherwise, and keeps all in step |
| `TreeTables.TreeTable.SortBranch` | webapps/lib/treetable/jquery.treetable.js:371-379 | Gives the node its children in the new order, brings the rows below it into the new pre-order behind its own, leaves the others as they were and keeps all in step |
| `TreeTables.TreeTable.UnloadBranch` | webapps/lib/treetable/jquery.treetable.js:381-398 | Removes exactly what lies below the node from rows, node list and id map |
| `TreeTables.TreeTable.RemoveNode` | webapps/lib/treetable/jquery.treetable.js:339-356 | Removes exactly the branch from rows, node list, id map and children arrays; every other node keeps its parent and its children their order, and all stays in step |
| `TreeViews.VisibleLaw` | webapps/lib/treetable/jquery.treetable.js:50-101 | With all rows in place, a row is visible if and only if all its proper ancestors are expanded |
| `TreeViews.SameExpandedSameRows` | webapps/lib/treetable/jquery.treetable.js:50-101 | What is visible depends on what is expanded alone, not on the calls that led there |
| `TreeViews.AllShown` | webapps/lib/treetable/jquery.treetable.js:226-235 | Once the branches of all children are shown in place, the branch of a visible expanded node is |
| `TreeViews.ShownStays` | webapps/lib/treetable/jquery.treetable.js:50-101 | A change inside one branch that leaves the branch in place keeps the whole table in place |
| `TreeTableViews.TableView.Hide` | webapps/lib/treetable/jquery.treetable.js:97-101 | Hides exactly the rows of the branch and changes nothing else |
| `TreeTableViews.TableView.Show` | webapps/lib/treetable/jquery.treetable.js:177-186 | Shows the row and puts its branch in place, initialising only nodes not yet initialised, to the initial state |
| `TreeTableViews.TableView.Expand` | webapps/lib/treetable/jquery.treetable.js:73-91 | Marks the node, shows the branch if the row is visible, and touches no class of an initialised node below |
| `TreeTableViews.TableView.Collapse` | webapps/lib/treetable/jquery.treetable.js:50-65 | Marks the node and hides exactly what is below, unless it was collapsed |
| `TreeTableViews.TableView.Initialize` | webapps/lib/treetable/jquery.treetable.js:208-224 | Gives a node its initial state on first show and keeps its branch ready |
| `TreeTableViews.TableView.Render` | webapps/lib/treetable/jquery.treetable.js:358-369 | From untouched rows, whatever their display, rendering puts every row in place; a row that was shown starts expanded or collapsed as the settings say, and a node not shown is untouched |
| `TreeTableViews.TableView.ExpandRow` | webapps/lib/treetable/jquery.treetable.js:73-91 | Expands the node with all rows in place; other nodes change only by being shown for the first time |
| `TreeTableViews.TableView.CollapseRow` | webapps/lib/treetable/jquery.treetable.js:50-65 | Collapses the node with all rows in place; other nodes change only by being shown for the first time |
| `TreeTableViews.TableView.Toggle` | webapps/lib/treetable/jquery.treetable.js:188-195 | Expands the node if and only if it was not expanded, with all rows in place; other nodes change only by being shown for the first time |
| `TreeTableViews.TableView.Reveal` | webapps/lib/treetable/jquery.treetable.js:161-166 | Afterwards the node and all its ancestors are expanded, and it and its children are visible; other nodes change only by being shown for the first time |
| `TreeTableViews.TableView.ExpandNode` | webapps/lib/treetable/jquery.treetable.js:494-508 | Initialises an untouched node before it is expanded, with all rows in place; other nodes change only by being shown for the first time |
| `TreeTableViews.TableView.ExpandAll` | webapps/lib/treetable/jquery.treetable.js:262-271 | With all rows in place, a node ends up expanded if it was initialised before, or nodes start expanded, or no ancestor of it is listed behind it |
| `TreeTableViews.TableView.CollapseAll` | webapps/lib/treetable/jquery.treetable.js:251-260 | No node is expanded afterwards, with all rows in place |
| `TreeTableViews.TableView.Use` | webapps/lib/treetable/jquery.treetable.js:358-369 | After rendering an untouched table and any calls of the user, a row is visible if and only if all its ancestors are expanded |
| `CheckBoxes.CheckTree.Click` | webapps/lib/tree/jquery.tree.js:124-142 | Every click gives its box's new state to the whole branch, changes otherwise only the boxes above, and keeps: an inner box is checked if and only if all boxes below are, and its label is partial exactly when some but not all are |
| `CheckBoxes.CheckTree.CheckCheckbox` | webapps/lib/tree/jquery.tree.js:247-254 | Gives the box's state to the boxes of its branch and corrects the boxes above |
| `CheckBoxes.CheckTree.CheckParentCheckboxes` | webapps/lib/tree/jquery.tree.js:205-239 | Corrects exactly the boxes above, from the nearest up |
| `CheckBoxes.CheckTree.CheckNodeSelected` | webapps/lib/tree/jquery.tree.js:159-195 | Returns 0, 1 or 2 for none, some or all of the leaves checked; in the branch, a node with all leaves checked gets its box checked and the full label, one with some the partial label, one with none keeps its empty label, and no box is unchecked; nothing changes outside |
| `CheckBoxes.NodeValueIsLeaves` | webapps/lib/tree/jquery.tree.js:159-178 | The recursive value is 0 if no leaf of the branch is checked, 2 if all are, 1 otherwise |
| `CheckBoxes.MarkedTells` | webapps/lib/tree/jquery.tree.js:180-192 | The marking, whatever boxes and labels were before, checks a box and sets full, partial or empty labels by the leaves of the branch, and touches no node outside |
| `CheckBoxes.LabelsTellValue` | webapps/lib/tree/jquery.tree.js:159-195 | With all boxes right, box and label show what the recursive check computes |
| `CheckBoxes.SelectedRight` | webapps/lib/tree/jquery.tree.js:180-192 | With all boxes right the recursive check changes nothing |
| `CheckTrees.LabelsTellLeaves` | webapps/lib/tree/jquery.tree.js:197-239 | With all boxes right, an inner box is checked exactly when all leaves below are, and partial exactly when some but not all are |
| `CheckTrees.GivenRight` | webapps/lib/tree/jquery.tree.js:247-252 | After the branch got its top's state only the boxes above may be wrong |
| `CheckTrees.ParentRight` | webapps/lib/tree/jquery.tree.js:209-235 | Correcting a parent's box disturbs none that is not above it |
| `UserCaches.UserCache.constructor` | src/ru/bgcrm/cache/UserCache.java:337-342 | The map holds every group of the list under its id; with distinct ids in a hierarchy the cache is valid |
| `UserCaches.UserCache.GetUserGroupChildSet` | src/ru/bgcrm/cache/UserCache.java:132-142 | Exactly the groups whose parent it is |
| `UserCaches.UserCache.GetUserGroupChildFullSet` | src/ru/bgcrm/cache/UserCache.java:144-159 | Exactly the groups the descent reaches, by a recursion that ends |
| `UserCaches.UserCache.GetGroupPath` | src/ru/bgcrm/cache/UserCache.java:193-204 | The groups from the top down to the given one, or no result when an unknown parent is met, by a loop that ends |
| `UserCaches.UserCache.AddGroupConfig` | src/ru/bgcrm/cache/UserCache.java:500-512 | Appends the configurations of the known groups on the path, from the top down, and nothing else |
| `UserCaches.ReachedIsOnPath` | src/ru/bgcrm/cache/UserCache.java:144-204 | With right child counts and known parents, h is in the full set of g if and only if g is the root or stands strictly above h on its path |
| `UserCaches.ReachedExactly` | src/ru/bgcrm/cache/UserCache.java:144-159 | The descent from g gets to h if and only if g is strictly above h and every group strictly between has a positive child count |
| `UserCaches.CompleteWhenCounted` | src/ru/bgcrm/cache/UserCache.java:148-156 | All full sets are complete if and only if each group with a child has a positive child count |
| `UserCaches.UncountedExample` | src/ru/bgcrm/cache/UserCache.java:148-156 | A group under one whose child count is 0 is missed from the full set of the group above both |
| `UserCaches.AboveIsPath` | src/ru/bgcrm/cache/UserCache.java:193-204 | The ids strictly above a group are the root and those before it on its path |
| `UserCaches.PathLinks` | src/ru/bgcrm/cache/UserCache.java:193-204 | The path ends with the group itself, each group on it is the parent of the next, and the first has no known parent |
| `UserCaches.CompleteFromRoot` | src/ru/bgcrm/cache/UserCache.java:199-202 | There is a path without an unknown parent if and only if the first group found on it is a root, with parent id 0 |
| `UserCaches.ConfigsInOrder` | src/ru/bgcrm/cache/UserCache.java:500-512 | The configuration of a group comes behind those of all groups above it and before those below it, each with a line end |
| `Base64s.RoundTrip` | webapps/lib/jquery.base64.js:92-140 | Decoding what was encoded gives every sequence of code units back, with LF for each CR LF |
| `Base64s.Utf8ReadsBack` | webapps/lib/jquery.base64.js:50-90 | Every sequence of code units is read back from its bytes, surrogates and units above 2047 included |
| `Base64s.BytesReadBack` | webapps/lib/jquery.base64.js:98-136 | Decoding undoes encoding on all byte sequences |
| `Base64s.ExactInverse` | webapps/lib/jquery.base64.js:98-136 | Encoding undoes decoding on exactly the canonical texts: whole groups, pads only at the end, no bits lost before them |
| `Base64s.EncodedLength` | webapps/lib/jquery.base64.js:98-112 | The encoding of n bytes has 4*ceil(n/3) characters |
| `Base64s.Padding` | webapps/lib/jquery.base64.js:106-110 | Pads stand at the very end only, as many as the last group lacks bytes (section 4 of RFC 4648) |
| `Base64s.GroupIs24Bits` | webapps/lib/jquery.base64.js:102-105 | The four numbers are the 24 bits of three bytes, six at a time (section 4 of RFC 4648) |
| `Base64s.Utf8Form` | webapps/lib/jquery.base64.js:55-64 | Every unit below 128 is one byte, below 2048 two, others three, with the leading and continuation marks and the payload bits of section 3 of RFC 3629 |
| `Base64s.KeyOrder` | webapps/lib/jquery.base64.js:48 | The key string holds A to Z, a to z, 0 to 9, plus and slash in the order of section 4 of RFC 4648, and then the pad |
| `Base64s.AlphabetOfString` | webapps/lib/jquery.base64.js:120 | The characters that decoding keeps are exactly those of the key string |
| `Base64s.ForeignLeftOut` | webapps/lib/jquery.base64.js:120 | Decoding leaves out every character that is not in the key string, wherever it stands, and keeps the others in order |
| `Base64s.NewLinesReplaced` | webapps/lib/jquery.base64.js:51 | A CR LF anywhere in the text becomes an LF, and the text around it is treated on its own |
| `Base64s.NewLinesKept` | webapps/lib/jquery.base64.js:51 | A text without CR LF is left as it is |
| `Base64Codecs.ReplaceNewLines` | webapps/lib/jquery.base64.js:51 | Replaces every CR LF, from left to right |
| `Base64Codecs.Utf8Encode` | webapps/lib/jquery.base64.js:50-67 | The loop computes the UTF-8 bytes of the text with its line ends replaced |
| `Base64Codecs.Utf8Decode` | webapps/lib/jquery.base64.js:69-90 | The loop reads the units from the bytes, also from broken ones |
| `Base64Codecs.Encode` | webapps/lib/jquery.base64.js:93-114 | The loop computes the specified encoding |
| `Base64Codecs.Decode` | webapps/lib/jquery.base64.js:115-139 | For every input, broken or with foreign characters, the loop computes the specified decoding |
| `PostParams.Separation` | webapps/js/kernel.ajax.js:218-259 | For every URL and names without an ampersand: the segments of the URL are those left in it, in order, and those in the data, by pass and in order within each; none is lost or made |
| `PostParams.NothingLeft` | webapps/js/kernel.ajax.js:239-249 | Neither `&data` nor `&name=` for any of the names is left in the URL, if and only if the URL does not start with it; then that one at the start remains |
| `PostParams.PassMoves` | webapps/js/kernel.ajax.js:239-240 | One pass moves exactly the matching segments, in order, unless the URL starts with the pattern; then it moves nothing |
| `PostParams.SearchedMove` | webapps/js/kernel.ajax.js:237-249 | If the URL starts with none of the names, the data are exactly its parameters that start with `&data`, then those that start with `&name=`, name by name, and the URL keeps exactly the others in order |
| `PostParams.TypeIsParameter` | webapps/js/kernel.ajax.js:251-256 | A URL that has a question mark behind its first character gets the response type with an ampersand, any other one with a question mark |
| `PostParams.StartExample` | webapps/js/kernel.ajax.js:239-240 | A URL that starts with `&data` keeps both its data parameters |
| `PostParams.Request.Move` | webapps/js/kernel.ajax.js:226-236 | Cuts the parameter at the position out of the URL, up to the next ampersand, and appends it to the data |
| `PostParams.Request.MoveAll` | webapps/js/kernel.ajax.js:239-240 | The loop ends, with URL and data as specified |
| `PostParams.Request.SeparatePostParams` | webapps/js/kernel.ajax.js:218-259 | If the URL starts with none of the names, the data are exactly its parameters that start with `&data`, then those that start with `&name=`, name by name, and the URL keeps exactly the others in order; in every case all passes are made in turn and the response type appended with the right separator |

## Left out

- CallbackLists.CallbackList.Next: the options `stopOnFalse` and `unique`, `empty` and callbacks that throw out of a plain list are not modelled; Deferreds do not use the options.
- DeferredRuns.ComesToRest: the loops end as long as no running callback makes further calls; a callback that notifies in answer to each value can keep its loop going, in the source too.
- DeferredRuns.ProgressLaw: values still queued when the settling call locks the list are dropped (`Callbacks.LockEnds`); which ones these are is not stated for the Deferred.
- DeferredObjects.DeferredObject.Listen: `pipe`, `always` and the hook functions are not modelled; a context with its arguments is one value.
- Then.FollowsStandard: handlers are given by what they return or throw and by the calls made meanwhile; timers are left out, so calls may come in any order the stack allows.
- Then.ThenPromise.NotifyAt: a progress closure runs in one step, and a thenable returned by a progress handler is not followed.
- When.WhenLaw: arguments settle at most once each, and `When.FirstDecides` covers those that call back more often; `when` with fewer than two arguments, which adopts its argument, and the resolve contexts are not modelled.
- ContentLoads.RootWaitsForNested: containers are distinct and never reloaded, and requests do not fail; that all loads end is stated for requests that get their answer (`ContentLoadEnds.EveryLoadEnds`).
- NthChild.Parent.NthChild: `of-type`, first, last and only tests and the XML path without caches are not modelled.
- SelectorEngines.Engine.Select: tokenising, positional selectors, the ID shortcut, the compiler cache, the `legend` skip, selectors that start with a combinator, and searches from other contexts than the document are not modelled; the document does not change during a run, and each run has a new number.
- TreeTables.TreeTable.LoadRows: rows without an id are no part of the model; for a table that is not in pre-order, or with parents that are not loaded, only the fields are specified.
- TreeTables.TreeTable.SortBranch: the sorting itself is the engine's; any permutation of the children may result.
- TreeTables.TreeTable.Move: expander, indentation and the branch and leaf classes are not modelled, nor is the `roots` array, which the code does not maintain.
- TreeTableViews.TableView.ExpandAll: nothing is claimed about a node that was never shown, starts collapsed and is listed before an ancestor, which only a move can bring about; its first show may collapse it again.
- TreeTableViews.TableView.Render: rows carry no expanded or collapsed class before it and the table itself is displayed; user callbacks, `loadBranch`, and the display of rows after a move are not modelled.
- CheckBoxes.CheckTree.CheckNodeSelected: setting the `checked` attribute is taken to check the box, which a browser does only until the user has clicked it; with all boxes right it makes no difference.
- CheckBoxes.CheckTree.Click: selection of a single box, the first marking of the labels, folding and filtering are not modelled.
- UserCaches.UserCache.GetUserGroupChildFullSet: groups have distinct positive ids and no group is above itself; with a cycle the code would not end.
- UserCaches.UserCache.GetGroupPath: the exception for an unknown parent is the missing result.
- PostParams.Separation: names that contain an ampersand are excluded; how the URL is built from forms is not modelled.
- The DOM, XHR, timers and history are an abstract tree, a row list, sets of visible rows and steps in any order.
- Permissions and titles in `UserCache`, the scheduler, the other caches and the data access classes would add only easy members.
