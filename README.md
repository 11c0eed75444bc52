# Scope change detection, modelled in Dafny

This project models the `Scope` object of the nomo repository (`src/scope.js`). That object is the
dirty-checking engine of an AngularJS-style framework. It covers:

- registration with `$watch` and its remover, and `$watchGroup` with its deregistrar;
- the pass `$$digestOnce`, which visits the watchers newest-last and short-circuits at `$$lastDirtyWatch`;
- the loop `$digest`, with its `ttl` of ten re-runs, the flush of a pending `$applyAsync` batch,
  the drain of `$$asyncQueue` and the post-digest queue;
- the comparator `$$isEqual`;
- `$eval`, `$evalAsync`, `$apply`, `$applyAsync`, `$$flushApplyAsync`, `$$postDigest`,
  `$beginPhase` and `$clearPhase`.

The project has two layers.

- **Semantics** (`semantics.dfy`) defines every operation as a pure function over a `State` value.
  The value holds the object's properties (`$$watchers`, `$$lastDirtyWatch`, the three queues,
  `$$applyAsyncId` and `$$phase`), plus the closures' private variables for each `$watchGroup`.
  It also holds what the host provides: the pending `setTimeout` callbacks, the console, and the
  record of calls that the test suite's spies observe.
- **Scopes** (`scope.dfy`) is a `class Scope` with those fields. Its methods follow the source
  step by step (the `while` drains of the queues, the `do … while` of `$digest`, the `_.forEachRight`
  pass over a registry that shrinks under it). Each method is proved to leave exactly the state the
  Semantics function gives.

Watch functions, listeners and queued expressions are data: a `Fn` is a list of actions
(assign a property, call `$watch`, call a remover, queue with `$evalAsync` and the like, throw)
followed by a result expression. So the model covers user code that changes the scope or the
registry while a digest is running. Watchers are known by their registration number, and a
remover is `Deregister(id)`.

The lemma modules prove, about the Semantics functions:

- what a visit, a pass, the loop and a digest do (`DigestFacts`, `ShortCircuit`);
- that the registry, timer and group invariants hold in every state a program can reach
  (`Invariants`, `Preservation`, `Client`);
- how removers and groups behave (`RegistryFacts`, `GroupFacts`);
- the comparator's laws (`Values`);
- the traces of the test suite's digest scenarios (`Scenarios`, `ShortCircuit`, `ListenerScenarios`);
- two inputs on which a `$digest` as written returns with a watcher still dirty (`StaleWatchers`).
  With two corrections (`Corrected`), a digest that returns leaves every watcher clean. For the
  code as written this holds when no listener throws or queues a task (`FixedPoint`).

## Model

| member | source | states |
|---|---|---|
| Values.ReferenceEquality | src/scope.js:149-156 | Reference mode counts two arrays equal exactly when they are the same array object, whatever their contents. It counts any other two values equal exactly when they are the same value, so NaN equals NaN. |
| Values.IsEqualReflexive | src/scope.js:146-157 | In both modes every value, NaN included, equals itself. So a watch function that keeps returning the same value is clean after its first evaluation. |
| Values.IsEqualSymmetric | src/scope.js:146-157 | The comparator does not depend on the order of its arguments. |
| Values.IsEqualTransitive | src/scope.js:146-157 | Both modes are transitive. |
| Values.ModesOnArrays | src/scope.js:146-157 | A copy of an array under another reference is equal by value and unequal by reference. Pushing onto an array in place is seen by value and missed by reference. |
| Values.ModesAgreeOnScalars | src/scope.js:146-157 | On values that are not arrays, the two modes agree. |
| Scopes.Scope.constructor | src/scope.js:5-13 | A new scope has an empty registry and empty queues, and no last dirty watcher, pending flush or phase. |
| Scopes.Scope.Log | src/scope.js:103 | `console.log(e)` and `console.error(e)` (lines 103, 126, 141 and 201) append the caught error to the log and change nothing else. |
| Scopes.Scope.SetTimeout | src/scope.js:166-170 | `setTimeout` (lines 166 and 213) queues the callback behind the pending ones, under a fresh handle, and returns that handle. |
| Scopes.Scope.ClearTimeout | src/scope.js:116 | `clearTimeout(h)` drops the pending callback with handle `h`, and only it. |
| Scopes.Scope.Perform | src/scope.js:19-221 | One step of user code: it assigns a property or calls one of the scope's operations (`$watch`, a remover, `$watchGroup`, a deregistrar, `$evalAsync`, `$applyAsync`, `$$postDigest`), and the new state is that operation's. |
| Scopes.Scope.RunFn | src/scope.js:160 | Calling a user callable runs its steps in order. On a throw it stops there and reports the exception, and the earlier steps keep their effect. Otherwise it returns the callable's value. |
| Scopes.Scope.RunListener | src/scope.js:96 | `watcher.listenerFn(newValue, oldValue)` records the call with its two arguments. It then runs the user listener, or the `$watchGroup` member closure for a group watcher. |
| Scopes.Scope.Watch | src/scope.js:19-28 | The new watcher is put in front of the registry, never evaluated. The old registry follows it unchanged, and the returned remover names the new registration. |
| Scopes.Scope.IndexOf | src/scope.js:30 | Returns the first slot holding the registration, or -1 when no slot holds it. |
| Scopes.Scope.Deregister | src/scope.js:29-35 | Performs the remover's steps: find the watcher, splice it out, and null `$$lastDirtyWatch`. |
| Scopes.Scope.WatchGroup | src/scope.js:38-83 | Performs `$watchGroup`'s steps. The returned deregistrar names the new group. |
| Scopes.Scope.DeregisterGroup | src/scope.js:78-82 | Performs the deregistrar's steps: each member's remover in turn, or clearing `shouldCall` for a group without watch functions. |
| Scopes.Scope.GroupMemberChanged | src/scope.js:68-75 | Performs the steps of a component watcher's listener. |
| Scopes.Scope.BeginPhase | src/scope.js:185-190 | Performs `$beginPhase`, including the throw when a phase is already set. |
| Scopes.Scope.ClearPhase | src/scope.js:192-194 | Nulls the phase and nothing else. |
| Scopes.Scope.EvalAsync | src/scope.js:163-173 | Performs `$evalAsync`: arm a wake-up when needed, then queue the task. |
| Scopes.Scope.ApplyAsync | src/scope.js:207-217 | Performs `$applyAsync`: queue the wrapper, and arm a flush when none is pending. |
| Scopes.Scope.PostDigest | src/scope.js:219-221 | Appends the callback to the post-digest queue. |
| Scopes.Scope.Eval | src/scope.js:159-161 | Calls the expression with `locals`. Its outcome, and the state it leaves, are those of the call. |
| Scopes.Scope.RunTask | src/scope.js:124 | Runs one queued task: an `$evalAsync` expression, the call of a group without watch functions, or a group's `watchGroupListener`. |
| Scopes.Scope.Visit | src/scope.js:88-105 | One iteration of `_.forEachRight` over the live registry. An empty slot is skipped, a throw is caught and logged, and the iteratee returning false is reported as `stop`. |
| Scopes.Scope.DigestOnce | src/scope.js:85-107 | A loop over slot indices from the length taken on entry down to 0. It ends at the first `stop`, and its result is the `dirty` flag. |
| Scopes.Scope.DrainAsync | src/scope.js:121-128 | Shifts and runs tasks until `$$asyncQueue` is empty, logging what they throw. Tasks queued meanwhile run too. |
| Scopes.Scope.FlushApplyAsync | src/scope.js:196-205 | Drains `$$applyAsyncQueue` the same way, then nulls `$$applyAsyncId`. |
| Scopes.Scope.DrainPostDigest | src/scope.js:137-143 | Drains the post-digest queue the same way. |
| Scopes.Scope.Pass | src/scope.js:121-129 | One round of the `do` body: drain the async queue, then `$$digestOnce`. |
| Scopes.Scope.DigestLoop | src/scope.js:120-134 | The `do … while` loop with its `ttl` check, clearing the phase when it gives up. |
| Scopes.Scope.Digest | src/scope.js:109-144 | Performs `$digest` in the source's order. |
| Scopes.Scope.Apply | src/scope.js:175-183 | Performs `$apply`, with its `finally` block. |
| Scopes.Scope.FireTimer | src/scope.js:166-170 | The host runs the oldest pending `setTimeout` callback: a digest wake-up, or the flush that `$applyAsync` armed. |
| Client.ReachableWf | src/scope.js:5-13 | Every scope that a sequence of public calls can reach from a new scope keeps all the invariants. |
| Client.RemovedWatcherNeverRuns | src/scope.js:29-35 | After its remover has run, a watcher's watch function and listener are never called again, whatever the program does next. |
| Client.AtMostOneFlushPending | src/scope.js:212-216 | At most one flush callback is ever pending, and none is pending while `$$applyAsyncId` is null. |
| Client.AtMostOneReactionQueued | src/scope.js:71-74 | A `$watchGroup` never has more than one call of its listener queued. |
| Client.RegistrationsUnique | src/scope.js:19-28 | The registry never holds the same watcher twice, and holds only registrations that were made. |
| DigestFacts.VisitWatchThrows | src/scope.js:102-104 | A watch function that throws is logged. The pass goes on without calling the listener and without counting the watcher dirty. |
| DigestFacts.VisitUnchanged | src/scope.js:98-100 | An unchanged watcher does not call its listener and keeps its stored value. The pass stops at it only if it is `$$lastDirtyWatch`, and exactly then when its watch function did not reset that pointer. |
| DigestFacts.VisitChanged | src/scope.js:93-97 | A changed watcher becomes the last dirty watcher and stores the new value. Its listener gets the new value and the previous one, or the new one again on the first evaluation. If the listener throws, the error is logged and the watcher does not count as dirty. |
| DigestFacts.QuietScan | src/scope.js:88-105 | Over clean watchers with no last dirty watcher, a pass calls every watch function once, oldest registration first, and changes nothing else. |
| DigestFacts.QuietLoop | src/scope.js:120-134 | With nothing queued and every watcher clean, the loop ends after one pass. |
| DigestFacts.SettledDigest | src/scope.js:109-144 | A digest of a settled scope calls each watch function once and no listener. It changes nothing but `$$lastDirtyWatch`. |
| DigestFacts.LoopOutcome | src/scope.js:120-134 | The loop gives up exactly when `ttl + 1` passes in a row leave work. When it settles, the async queue is empty. |
| DigestFacts.SettleOutcome | src/scope.js:115-143 | After `$beginPhase`, a digest ends outside any phase. It throws exactly when the passes never settle. When it returns, the post-digest queue is drained. |
| DigestFacts.DigestOutcome | src/scope.js:109-144 | `$digest` refuses to start inside a phase. Otherwise it ends outside any phase. It throws "10 $digest iterations reached" exactly when eleven passes in a row leave work, and then leaves the post-digest queue undrained. When it returns, every post-digest callback has run. |
| DigestFacts.DigestCancelsPendingFlush | src/scope.js:115-118 | A digest cancels a pending `$applyAsync` callback, which no longer fires. |
| DigestFacts.BeginPhaseGuard | src/scope.js:185-194 | `$beginPhase` throws "<phase> already in progress." exactly when a phase is set, and then changes nothing. Otherwise it sets the phase, and `$clearPhase` undoes exactly that. |
| DigestFacts.ApplyOutcome | src/scope.js:175-183 | `$apply` always ends outside any phase. It returns the expression's value only when no phase was set. It throws the digest's error, else the phase error, else the expression's. |
| DigestFacts.EvalAsyncSchedules | src/scope.js:163-173 | `$evalAsync` queues the task last. It arms exactly one digest wake-up when no phase is set and the queue was empty, and arms nothing otherwise. |
| DigestFacts.ApplyAsyncArmsOnce | src/scope.js:207-217 | `$applyAsync` queues the expression last. It arms a flush only when none is pending, and otherwise keeps the pending handle. |
| FixedPoint.ReactsFrame | src/scope.js:96 | A listener that only assigns properties, throws, or queues such tasks with `$evalAsync` leaves the registry, `$$lastDirtyWatch`, the log and the other queues alone. |
| FixedPoint.AssignsFrame | src/scope.js:96 | A listener that only assigns properties returns normally and changes only the properties. |
| FixedPoint.PlainVisit | src/scope.js:88-105 | Corrected visit of a plain watcher. A quiet watcher is passed over, or stops the pass if it is `$$lastDirtyWatch`. A watcher that is not quiet becomes `$$lastDirtyWatch` and makes the pass dirty, even when its listener throws. |
| FixedPoint.ScanSettles | src/scope.js:88-105 | Corrected pass: a pass that ends clean leaves every watcher quiet. Any pass leaves only quiet watchers newer than `$$lastDirtyWatch`. |
| FixedPoint.DrainSettles | src/scope.js:121-128 | The corrected drain empties `$$asyncQueue` and keeps the scope plain. After any task it leaves no `$$lastDirtyWatch`. |
| FixedPoint.LoopSettles | src/scope.js:120-134 | A corrected loop that converges ends with nothing queued and every watcher quiet. |
| FixedPoint.CorrectedDigestSettles | src/scope.js:109-144 | On a plain scope, a corrected `$digest` that returns leaves every watcher quiet, nothing queued and no phase. |
| FixedPoint.QuietScanAgrees | src/scope.js:88-105 | Over quiet watchers the corrected pass is the pass as written. |
| FixedPoint.QuietLoopAgrees | src/scope.js:120-134 | Over quiet watchers with nothing queued, the corrected loop is the loop as written. |
| FixedPoint.SettledCorrectedDigest | src/scope.js:109-144 | A corrected digest of a settled scope calls each watch function once, oldest first, and no listener. |
| FixedPoint.CorrectedDigestIsFixedPoint | src/scope.js:109-144 | After a corrected digest that returned, a second corrected digest calls no listener. Its state is a fixed point. |
| FixedPoint.TameVisit | src/scope.js:93-97 | When the listener only assigns, the visit as written is the corrected one: the listener cannot throw. |
| FixedPoint.TameScan | src/scope.js:88-105 | The same for a whole pass. |
| FixedPoint.TameLoop | src/scope.js:120-134 | The same for the loop, when nothing is queued: no task runs, so `$$lastDirtyWatch` is never stale. |
| FixedPoint.TameDigestSettles | src/scope.js:109-144 | As written, `$digest` leaves every watcher quiet when it returns, provided no listener throws or queues a task and nothing is queued. |
| StaleWatchers.ThrowPass | src/scope.js:96-97 | The pass of the throw counterexample: the only listener that runs bumps `x` and throws, and the pass ends clean. |
| StaleWatchers.ThrowDigest | src/scope.js:109-144 | The whole digest of the throw counterexample is that one pass, and it returns. |
| StaleWatchers.StaleAfterThrow | src/scope.js:96-97 | As written, `$digest` returns while the watcher of `x` still holds the value `x` had before the throwing listener bumped it. |
| StaleWatchers.TaskPass1 | src/scope.js:93-97 | First pass of the task counterexample: watcher 0 fires and queues `b++`, and watcher 1 is clean. |
| StaleWatchers.TaskPass2 | src/scope.js:121-128 | Second pass: the task bumps `b`, and the pass stops at watcher 0, the stale `$$lastDirtyWatch`, before reaching the watcher of `b`. |
| StaleWatchers.TaskDigest | src/scope.js:109-144 | The whole digest of the task counterexample is those two passes. |
| StaleWatchers.StaleAfterTask | src/scope.js:121-128 | As written, `$digest` returns while the watcher of `b` still holds the value `b` had before the queued task bumped it. |
| ListenerScenarios.NestedPass1 | test/scope_spec.js:179-199 | The outer listener registers the inner watcher during the first pass, which also clears `$$lastDirtyWatch`. |
| ListenerScenarios.NestedPass2 | test/scope_spec.js:179-199 | The next pass runs the inner watcher for the first time, and its listener bumps the counter. |
| ListenerScenarios.NestedPass3 | test/scope_spec.js:179-199 | The third pass finds both watchers clean. |
| ListenerScenarios.ListenerRegistersWatcher | test/scope_spec.js:179-199 | A watcher registered by a listener runs in the same `$digest`: the counter goes up by exactly one, and the digest returns. |
| ListenerScenarios.AsyncPass1 | test/scope_spec.js:466-484 | The listener queues the task, then reads `asyncEvaluated` while it is still false. |
| ListenerScenarios.AsyncPass2 | test/scope_spec.js:466-484 | The next pass runs the task, which sets `asyncEvaluated`, and then finds the watcher clean. |
| ListenerScenarios.EvalAsyncLaterInDigest | test/scope_spec.js:466-484 | A task queued by a listener runs after the listener returns and before `$digest` returns: afterwards `asyncEvaluated` is true and `asyncEvaluatedImmediately` is false. |
| GroupFacts.MemberChangeCoalesces | src/scope.js:68-75 | A component's change records the new and old value of its slot. It queues the group listener only when no call is queued yet. |
| GroupFacts.ReactionCallsListener | src/scope.js:57-65 | `watchGroupListener` calls the listener once with `newValues`. The old values are `newValues` again on the first run and `oldValues` afterwards. The scheduled flag is cleared only when the listener returns normally. |
| GroupFacts.EmptyGroupCallsOnce | src/scope.js:45-51 | A group without watch functions registers nothing. It queues one call that passes the empty `newValues` as both arguments. |
| GroupFacts.EmptyGroupCancelled | src/scope.js:52-54 | Calling the deregistrar before that call runs turns it into a no-op. |
| Invariants.InitialWf | src/scope.js:5-13 | A new scope satisfies every invariant. |
| Invariants.WatchStep | src/scope.js:19-28 | `$watch` adds a watcher, changes no existing one, and keeps the invariants. |
| Invariants.Removal | src/scope.js:32 | `splice(i, 1)` keeps the other watchers in order and keeps registrations unique. |
| Invariants.DeregisterStep | src/scope.js:29-35 | A remover only removes, and keeps the invariants. |
| Invariants.RegisterMembersStep | src/scope.js:67-76 | Registering a group's component watchers keeps the invariants. |
| Invariants.DeregisterAllStep | src/scope.js:78-82 | Calling the components' removers keeps the invariants. |
| Invariants.SetTimeoutEvolves | src/scope.js:213-215 | Arming a timer hands out a fresh, larger handle. Arming the flush while none is pending keeps the timer invariant once its handle is recorded. |
| Invariants.EvalAsyncStep | src/scope.js:163-173 | `$evalAsync` keeps the invariants. |
| Invariants.ApplyAsyncStep | src/scope.js:207-217 | `$applyAsync` keeps the invariants. |
| Invariants.WatchGroupStep | src/scope.js:38-83 | `$watchGroup` keeps the invariants. |
| Invariants.DeregisterGroupStep | src/scope.js:78-82 | A group's deregistrar keeps the invariants. |
| Preservation.ClearTimeoutMoves | src/scope.js:116 | `clearTimeout` only drops a pending callback, and keeps the others in order. |
| Preservation.ClearFlushTimer | src/scope.js:115-117 | `clearTimeout($$applyAsyncId)` leaves no flush callback pending and keeps the invariants. |
| Preservation.EvalAsyncReactionMoves | src/scope.js:73 | Queueing `watchGroupListener` touches only the queue and the timers. |
| Preservation.EvalAsyncReactionWf | src/scope.js:71-74 | Queueing it while the group is scheduled and has none queued keeps the invariants. |
| Preservation.GroupMemberChangedMoves | src/scope.js:68-75 | A component's listener touches neither the registry nor the call record. |
| Preservation.GroupMemberChangedWf | src/scope.js:68-75 | A component's listener keeps the invariants. |
| Preservation.RunListenerMoves | src/scope.js:96 | Calling a listener records exactly one listener call and keeps the phase and the pending flush. |
| Preservation.RunListenerWf | src/scope.js:96 | Calling a listener keeps the invariants. |
| Preservation.SetLastKeeps | src/scope.js:95 | Storing a watcher's value keeps the registry's registrations and their order. |
| Preservation.MarkedMoves | src/scope.js:94-95 | Marking a watcher dirty and storing its value makes no call and keeps the invariants. |
| Preservation.ListenerBranch | src/scope.js:93-97 | The changed branch records exactly one listener call, and keeps the invariants whether or not the listener throws. |
| Preservation.VisitMoves | src/scope.js:88-105 | A visit runs at most the visited watcher's watch function and listener, and never runs a watcher that was already removed. |
| Preservation.VisitWf | src/scope.js:88-105 | A visit keeps the invariants. |
| Preservation.ScanFromMoves | src/scope.js:88-105 | The rest of a pass has the same two properties. |
| Preservation.RunTaskMoves | src/scope.js:124 | A queued task runs no removed watcher and keeps the phase. |
| Preservation.RunTaskWf | src/scope.js:124 | A queued task keeps the invariants. |
| Preservation.ShiftWf | src/scope.js:123 | Shifting the head of `$$asyncQueue` keeps the invariants. |
| Preservation.DrainAsyncMoves | src/scope.js:121-128 | The async drain terminates, runs no removed watcher, and keeps the invariants. |
| Preservation.FlushMoves | src/scope.js:196-205 | `$$flushApplyAsync` ends with an empty queue and a null `$$applyAsyncId`, and keeps the phase. |
| Preservation.FlushWf | src/scope.js:196-205 | When called with the flush cancelled, it keeps the invariants. |
| Preservation.DrainPostDigestMoves | src/scope.js:137-143 | The post-digest drain terminates with an empty queue and keeps the phase. |
| Preservation.DrainPostDigestWf | src/scope.js:137-143 | The post-digest drain keeps the invariants. |
| Preservation.PassMoves | src/scope.js:121-129 | One round of the loop runs no removed watcher and keeps the invariants. |
| Preservation.LoopMoves | src/scope.js:120-134 | The loop clears the phase exactly when it gives up, and otherwise keeps it. It keeps the post-digest queue's contents and the invariants. |
| Preservation.FlushFirstMoves | src/scope.js:115-118 | The flush at the start of `$digest` keeps the phase and the invariants. |
| Preservation.DigestMoves | src/scope.js:109-144 | A digest never runs a removed watcher. |
| Preservation.SettleWf | src/scope.js:115-143 | Whatever the number of passes to spare, the part of `$digest` after `$beginPhase` keeps the invariants. |
| Preservation.DigestWf | src/scope.js:109-144 | `$digest` keeps the invariants. |
| Preservation.ApplyMoves | src/scope.js:175-183 | `$apply` never runs a removed watcher. |
| Preservation.ApplyWf | src/scope.js:175-183 | `$apply` keeps the invariants. |
| Preservation.FireTimerMoves | src/scope.js:166-170 | A timer callback never runs a removed watcher. |
| Preservation.FireTimerWf | src/scope.js:213-215 | A timer callback, the flush included, keeps the invariants. |
| RegistryFacts.IndexOfFinds | src/scope.js:30 | `indexOf` yields the first slot holding the registration, and -1 exactly when the registration is absent. |
| RegistryFacts.WithoutSlot | src/scope.js:30-32 | Splicing out the found slot is filtering that registration out. |
| RegistryFacts.DeregisterRemoves | src/scope.js:29-35 | The remover takes out exactly its own watcher and keeps the others in order. It nulls `$$lastDirtyWatch` only when it removed something, and changes nothing else. |
| RegistryFacts.DeregisterIdempotent | test/scope_spec.js:289-313 | Calling a remover a second time changes nothing. |
| RegistryFacts.WatchThenRemove | src/scope.js:19-35 | Calling the remover `$watch` returned gives back the registry as it was before the registration. |
| RegistryFacts.DeregisterAllRemoves | src/scope.js:78-82 | Calling removers in turn filters out exactly their registrations. |
| RegistryFacts.RegisterMembersShape | src/scope.js:67-76 | `_.map` registers one watcher per function, in order, so the last function's watcher comes first. Each has the group-member listener of its slot. |
| RegistryFacts.WatchGroupRegisters | src/scope.js:38-83 | A group with watch functions registers them all. It records their numbers, starts unscheduled and on its first run, and queues nothing. |
| RegistryFacts.WatchGroupMembers | src/scope.js:67-76 | The watchers a group registers are exactly those whose numbers it records, and none of the old ones. |
| RegistryFacts.WatchGroupThenDeregister | src/scope.js:78-82 | A group's deregistrar gives back the registry as it was before `$watchGroup`. |
| Scenarios.LoopSettles | src/scope.js:120-134 | Given its passes, a loop whose last pass leaves no work ends at that pass's state. |
| Scenarios.BusyFrom | src/scope.js:130-133 | A loop whose passes all leave work ends after its last pass, with the phase cleared and not converged. |
| Scenarios.DigestSettles | src/scope.js:109-144 | Given its passes, a digest that settles within eleven of them returns undefined after the post-digest drain. |
| Scenarios.DigestGivesUp | src/scope.js:130-133 | A digest whose first eleven passes all leave work throws, with the phase cleared. |
| Scenarios.DestroyPass1 | test/scope_spec.js:315-345 | The first pass of that test: the self-removing watcher still counts as changed, and the watcher after it is visited in the freed slot. |
| Scenarios.DestroyPass2 | test/scope_spec.js:315-345 | The second pass finds both remaining watchers clean and stops at the newest. |
| Scenarios.DestroyDuringDigest | test/scope_spec.js:315-345 | A watch function that removes itself during a digest: the watch functions run in the order 0, 1, 2, 0, 2. |
| Scenarios.AnotherVisit0 | test/scope_spec.js:347-374 | The first watcher fires, and its listener removes the second watcher. That removal also nulls `$$lastDirtyWatch`. |
| Scenarios.AnotherVisit1 | test/scope_spec.js:347-374 | The first watcher is revisited in the freed slot. It is clean, and it no longer stops the pass. |
| Scenarios.AnotherVisit2 | test/scope_spec.js:347-374 | The third watcher fires and bumps the counter. |
| Scenarios.AnotherPass1 | test/scope_spec.js:347-374 | The whole first pass of that test. |
| Scenarios.AnotherPass2 | test/scope_spec.js:347-374 | The second pass finds both remaining watchers clean and stops at the third. |
| Scenarios.DestroyAnotherDuringDigest | test/scope_spec.js:347-374 | A listener that removes another watcher: the watch functions run in the order 0, 0, 2, 0, 2, and the counter ends at 1. |
| Scenarios.SeveralPass1 | test/scope_spec.js:376-398 | The oldest watcher empties the registry from its watch function and still counts as changed. The other watcher's slot is then empty. |
| Scenarios.DestroySeveralDuringDigest | test/scope_spec.js:376-398 | A watch function that removes both watchers: one watch call in all, the counter stays 0, and the registry ends empty. |
| Scenarios.PingPongVisitA | src/scope.js:93-97 | The watcher of `counterA` fires and bumps `counterB`. |
| Scenarios.PingPongVisitB | src/scope.js:93-97 | The watcher of `counterB` fires and bumps `counterA`. |
| Scenarios.PingPongFirstPass | src/scope.js:88-105 | Two watchers that bump each other's counter both fire on the first pass. |
| Scenarios.PingPongPass | src/scope.js:88-105 | Every later pass finds both counters changed by the other watcher's listener. |
| Scenarios.PingPongStep | src/scope.js:120-134 | Each pass of that loop leaves the watchers dirty. |
| Scenarios.PingPongDigestThrows | src/scope.js:130-133 | Watchers that keep changing each other make `$digest` throw "10 $digest iterations reached" with the phase cleared, after eleven passes with both listeners run in each. |
| Scenarios.TwinFirstPass | test/scope_spec.js:127-149 | Both watchers of that test fire on the first pass. |
| Scenarios.TwinSecondPass | test/scope_spec.js:127-149 | The second pass finds both clean. |
| Scenarios.TwinDigestSettles | test/scope_spec.js:127-149 | As written, that test's watchers watch a property that neither listener changes. So `$digest` returns after two passes, with each counter at 1. |
| Scenarios.CountingChangedPass | src/scope.js:93-97 | For the one-watcher scope of the counting tests, a pass over a changed value runs the listener once. |
| Scenarios.CountingQuietPass | src/scope.js:98-100 | A pass over an unchanged value calls the watch function only. |
| Scenarios.CountingDigestChanged | test/scope_spec.js:42-62 | A digest over a changed value bumps the counter once and passes the previous value as the old value. |
| Scenarios.CountingDigestQuiet | test/scope_spec.js:42-62 | A digest over an unchanged value leaves the counter alone. |
| Scenarios.FirstDigestFires | test/scope_spec.js:74-86 | For any watched value, undefined included, the first digest calls the listener once, with the new value as the old value too. |
| Scenarios.DigestAgainQuiet | test/scope_spec.js:224-244 | Digesting again while the value is the one last seen does not call the listener, whatever the value; NaN included. |
| Scenarios.ChangedStringFires | test/scope_spec.js:42-62 | Assigning another string makes the next digest call the listener with the new and the previous string. |
| Scenarios.ArrayPushByValue | test/scope_spec.js:201-222 | With a by-value watcher, pushing onto the watched array makes the next digest call the listener. |
| Scenarios.ArrayPushByReference | src/scope.js:150 | With a by-reference watcher, the same push goes unnoticed. |
| ShortCircuit.ChangedCallsCount | src/scope.js:88-105 | A pass over changed watchers makes one watch call per watcher. |
| ShortCircuit.ChangedVisit | src/scope.js:93-97 | The visit of a changed plain watcher stores the value, marks the watcher last dirty, and calls its listener once. |
| ShortCircuit.ChangedScan | src/scope.js:88-105 | A pass over plain watchers that all changed refreshes them all and calls each once. It leaves the newest as the last dirty watcher. |
| ShortCircuit.CleanScan | src/scope.js:88-105 | A pass over clean watchers, none of which is the last dirty one before slot 0, calls each watch function once and changes nothing else. |
| ShortCircuit.CleanStop | src/scope.js:98-100 | A clean watcher that is the last dirty one ends the pass where it stands. |
| ShortCircuit.FirstPass | src/scope.js:85-107 | The first pass over plain watchers that were never evaluated finds all of them changed. |
| ShortCircuit.SecondPass | src/scope.js:98-100 | The second pass finds them clean, calls every watch function once, and stops at the newest. |
| ShortCircuit.RefreshedQuiet | src/scope.js:95 | Watchers that stored what they read are clean on the same variables. |
| ShortCircuit.FirstDigest | src/scope.js:109-144 | The first digest of `n` plain watchers makes `2n` watch calls. |
| ShortCircuit.OldestChangedPass | src/scope.js:88-105 | When only the oldest watcher changed, one pass fires it and calls every other watch function once. |
| ShortCircuit.OldestChangedPassCount | src/scope.js:88-105 | That pass makes `n` watch calls. |
| ShortCircuit.OldestChangedDigest | src/scope.js:98-100 | When only the oldest of `n` plain watchers sees a new value, a digest makes `n + 1` watch calls. |
| ShortCircuit.RegisterElementsShape | test/scope_spec.js:161-169 | `_.times(n, …)` registers the element watchers, newest first. |
| ShortCircuit.ElementsFirstDigest | test/scope_spec.js:171-172 | The first digest of `n` element watchers makes `2n` watch calls, and each watcher then holds its item. |
| ShortCircuit.ElementsFirstItemChanged | test/scope_spec.js:174-176 | Changing the first item in place makes the next digest make `n + 1` watch calls. |
| ShortCircuit.LastDirtyShortCircuit | test/scope_spec.js:151-177 | For `n` watchers over at least `n` items: `2n` watch calls after the first digest, and `3n + 1` after the second digest, once the first item has changed. |

## Left out

- Nested `$digest`, `$apply` and `$eval` called from inside a watch function, listener or queued
  expression are not modelled. Such user code can call back into the scope, and a nested digest
  can recurse without bound. The model's callables can change the scope, register and remove
  watchers and groups, and queue work; they cannot start a digest.
- The scope argument is not passed to callables. They read and write the scope's properties
  directly, which is what `scope.x` inside them amounts to.
- Numbers are integers, plus NaN. Floating point, Infinity and string operations (the
  `toUpperCase`/`substring` of test/scope_spec.js:97-125) are not modelled.
- `Callables.Increment` (the value `x++` stores) follows ToNumber only on numbers, null and
  booleans. A number goes up by one, null and false give 1, and true gives 2. Undefined, NaN,
  strings and arrays give NaN. In JavaScript, `[]` and `""` give 1, and `"5"` and `[7]` give
  6 and 8; numeric strings and arrays are not modelled.
- Reading an element of something that is not an array gives undefined. In JavaScript, reading
  an element of undefined or null throws a TypeError.
- lodash `_.isEqual` is modelled as equality of values after erasing array references.
  `_.cloneDeep` is the value itself, since values are immutable here and arrays are compared by
  their reference in reference mode.
- Mutation of arrays in place is not modelled. The `newValues` and `oldValues` arrays of a
  `$watchGroup` (src/scope.js:40-41, 49, 60, 62 and 69-70) are single live arrays, written slot by
  slot and handed to the group listener by reference. The model hands the listener snapshots
  `Arr(NewValuesOf(g), …)` and `Arr(OldValuesOf(g), …)` with the contents at call time. So a
  listener that keeps the array and reads it after a later member change sees the old contents
  here. A listener that writes into the arrays is not modelled.
- `setTimeout`/`clearTimeout` are a queue of pending callbacks that the host fires oldest first
  (`FireTimer`). Real time, and interleaving with other macrotasks, are not modelled.
- `console.log` and `console.error` become an append-only log.
- The drains of `$$asyncQueue`, `$$applyAsyncQueue` and the post-digest queue terminate in the
  model by a weight measure: running a callable queues less than its own size. Because callables
  are finite data, a callable cannot keep re-queueing itself forever, as a JavaScript closure can.
- `$digest` gives up after eleven passes that leave work: `ttl` starts at 10 and is
  post-decremented. The message still says "10 $digest iterations reached". The model follows the
  code, not the "ten iterations" wording.
- test/scope_spec.js:127-149 as written does not exercise the limit. Both watch functions read
  `testValue`, which neither listener changes, so `Scenarios.TwinDigestSettles` shows that digest
  returning. The limit is shown instead on two watchers that really feed each other
  (`Scenarios.PingPongDigestThrows`).
- A `$watchGroup` listener that throws leaves `changeReactionScheduled` set. After that, no further
  component change queues it again. This is modelled as written (`GroupFacts.ReactionCallsListener`).
- The scenario lemmas are generic in the watched values, counters and call record rather than
  fixed to the tests' literals. `ShortCircuit.LastDirtyShortCircuit` covers the 100 watchers and
  `_.range(100)` of test/scope_spec.js:151-177 as one instance of `n` and `items`.
- The tests at test/scope_spec.js:246-287 (exceptions in watch functions and listeners) have no
  scenario lemmas. What they check for one visit, that the exception is logged and the pass goes
  on, is stated by `DigestFacts.VisitWatchThrows` and `DigestFacts.VisitChanged`. The end-to-end
  outcome of those tests is not proved. The test at 179-199 is replayed by
  `ListenerScenarios.ListenerRegistersWatcher`.
- The `$eval` and `$apply` tests (test/scope_spec.js:401-464) have no scenario lemmas. One call
  of each is stated by `Scopes.Scope.Eval` and `DigestFacts.ApplyOutcome`. The end-to-end values
  those tests expect are not proved. The `$evalAsync` test at 466-484 is replayed by
  `ListenerScenarios.EvalAsyncLaterInDigest`.
- DigestFacts.SettledDigest: assumes every watcher is quiet; it does not show that a `$digest`
  that returned leaves the scope in that state. As written the code does not promise this (see
  Findings). The promise is proved for the corrected digest (`FixedPoint.CorrectedDigestSettles`)
  on plain scopes: watch functions that only read, and listeners that only assign, throw or queue
  assigning tasks. For the code as written it is proved only when no listener throws or queues
  a task (`FixedPoint.TameDigestSettles`). Scopes whose callables register or remove watchers,
  use groups, `$applyAsync` or `$$postDigest` are outside both theorems.
- The corrected digest of module `Corrected` is used only by `FixedPoint` and the findings below.
  The `Scope` class and the other lemma modules model the code as written.

## Findings

| source | as written | input that shows it | evidently intended | confidence | as-written member | corrected member |
|---|---|---|---|---|---|---|
| src/scope.js:121-128 | The drain of `$$asyncQueue` never resets `$$lastDirtyWatch`, so after a task runs, the pass can stop at the stale pointer before reaching a watcher the task changed. `$digest` then returns with that watcher dirty. | Watcher 0 watches `a`, and its listener does `$evalAsync(function() { scope.b++; })`. Watcher 1, registered later, watches `b`. Change `a`, then `$digest`. | A digest that returns leaves every watcher clean; reset `$$lastDirtyWatch` after each task. | not executed | StaleWatchers.StaleAfterTask | FixedPoint.CorrectedDigestSettles |
| src/scope.js:96-97 | `dirty = true` comes after the listener call, so a listener that writes a watched property and then throws leaves the pass clean. `$digest` then returns with the watcher of that property dirty. | Watcher 0 watches `x` and has seen it. Watcher 1 watches `y`, and its listener does `scope.x++` and then throws. Change `y`, then `$digest`. | A watcher that changed makes the pass dirty whether or not its listener throws; set `dirty` before the listener call. | not executed | StaleWatchers.StaleAfterThrow | FixedPoint.CorrectedDigestSettles |
