# pyroflow in Dafny

A model of the coordination core of pyroflow, with proofs.

1. **Listeners across sessions.** Any number of sessions share a registry from listener keys to
   tokens. Each holds its own table of waiting listeners, and cancel signals travel between them
   asynchronously, late, out of order, or not at all. `ListenerSteps` says what one session does in
   one critical section; `ListenerProtocol` lets all sessions take such steps in any order and proves
   the invariant; `ListenerTheorems`, `ListenerConvergence` and `MemoryProtocol` draw the consequences.
   `TokenSafety` repeats the question with one Redis command per step and locks that may lapse. The
   classes in `UpdateListeners`, `RedisListenerCoordinators` and `MemoryListenerCoordinators` are the
   methods themselves, each proved equal to its step function, and `ListenerRefinement` and
   `ListenerObjects` show that each method of an object is a step, or a few, of the protocol.
2. **Coordinated updates.** `CoordinationProtocol` interleaves any number of `handle_update` calls
   with the early settlements that `mark_handled` schedules; `ExactlyOnce` proves what that is worth, and
   `ClaimDiscipline` exactly when a claim is in time. `ThreadClaims` takes one
   call's settlement apart further, for claims made off the event loop.
   `HandlerGroups` and `Dispatchers` hold the group loop, the settlement object, `handle_listen` and
   `handle_update`; `SettlementRefinement` ties them to the protocol.
   `UpdateCoordinators` holds the in-process backend and its keys.
3. **The update history.** `Heaps` is the in-place binary heap, `HistoryStores` the store over it,
   proved to show the newest unexpired records of everything ever logged.
4. **Keys.** `KeyPlans` and `ListenerKeys` are the enumeration of candidate keys; `KeyCodec` (over
   `Texts`) is how keys and cancel messages are spelt and read back.
5. **Bot commands.** `BotCommands` is the grouped command list and its pruning; `CommandOrders` says
   exactly when removing a handler restores the list it was added to.

`dafny verify dfyconfig.toml` checks everything.

## Reading guide

- A token is a natural number drawn fresh; it stands for the `uuid4` string or the in-process counter
  value, and it also names the future created with it.
- A step of `ListenerProtocol` is one critical section under a chat lock, or one completion outside it
  (timeout, task cancellation, done-callback). A step of `TokenSafety` is one Redis command.
- A clock reading, the decisions of `is_listenable`, `is_bypass`, `extract_key`, `extract_update_id`
  and `is_coordinatable`, and what a handler's check and callback do are parameters. The theorems
  hold for all of them.
- Lemmas whose names end in `Keeps` are the inductive steps; the table lists the results.

Where the code and its documentation differ, the model follows the code:

- `resolve` on an empty table returns normally, delivering nothing (pyroflow/update_listener/update_listener.py:370),
  and the dispatcher then stops propagation (pyroflow/dispatcher.py:474-475): `Dispatchers.StopsAt`.
- `on_unresolved` runs after the chat lock is released (pyroflow/update_listener/update_listener.py:409), so it is no part of
  the critical section.
- `_cancel` answers True when it held nothing (pyroflow/update_listener/update_listener.py:190); the in-process `cancel` always
  answers True (pyroflow/listener_coordinator/memory_listener_coordinator.py:38-41) where Redis reports absence. The two
  backends are proved to change the registry alike, not to answer `cancel` alike.
- `_cancel` pops a listener before completing it, so a listener that was already completed makes it
  raise before the coordinator is told (pyroflow/update_listener/update_listener.py:184-188): `Err(InvalidState)`.
- "Handled by exactly one session" needs discipline the code does not enforce: a `mark_handled` made
  while the update's identity is still being extracted gives the lock up before the handled check, and
  two sessions may process one update (`OverlapExact` says exactly when), or an update is recorded that no
  handler saw (`UnseenExact` says exactly when). A claim made from another thread just as the
  dispatcher settles reports success and decides nothing (`LateClaimDecidesNothing`).
- `settle` is documented to wait out an early settlement that won (pyroflow/dispatcher.py:94). A claim from
  another thread looks, submits and assigns in three steps; caught in between, it lets the dispatcher end
  while the submitted settlement still holds the lock (`ThreadClaims.EndsEarlyExactly` says exactly when).
- An update is documented to be recorded when at least one handler ran (pyroflow/dispatcher.py:602-606). A
  handler that passes the update on is not counted, and an `UnhandledUpdate` from a later group undoes what
  was: the counts are lost with the exception (`HandlerGroups.RanExactly` says exactly when).
- Fencing is per key and generation. Two sessions that own different keys matching one update may both
  deliver it; nothing here says otherwise.

## Model

| member | source | states |
|---|---|---|
| `ListenerTheorems.FencedDelivery` | pyroflow/update_listener/update_listener.py:374-406 | Over every run of any number of sessions, whatever signals are lost, late or reordered: each delivery was made by the session that minted the listener's token, for a key matching the update, at a moment the registry mapped that key to exactly that token; no token is delivered twice. |
| `ListenerTheorems.NoTwoDeliverers` | pyroflow/update_listener/update_listener.py:382-405 | In no state could two sessions each deliver under the same key: any two delivering steps from it name one session and one token. |
| `ListenerTheorems.SupersededNeverDelivers` | pyroflow/update_listener/update_listener.py:389-392 | Once a token is out of the registry it never comes back, and nothing is ever delivered to it again. |
| `ListenerTheorems.OneOutcome` | pyroflow/update_listener/update_listener.py:312-323 | A waiter gets at most one outcome: a completed future keeps its value for the rest of every run. |
| `ListenerTheorems.NoOrphanedWaiter` | pyroflow/update_listener/update_listener.py:221-236 | Every pending future, in every reachable state, sits in its own session's table under its own key and token; replacement, the done-callback and the finally clause never push one out unfinished. |
| `ListenerTheorems.RegistrationsConserved` | pyroflow/update_listener/update_listener.py:325-334 | A registry entry always belongs to a `listen` that has not finished its finally clause, and its session has it on record. |
| `ListenerTheorems.StopRemovesExactlyOwn` | pyroflow/listener_coordinator/redis_listener_coordinator.py:321-342 | Stopping a session removes from the registry exactly the entries that session minted. |
| `ListenerTheorems.SignalsSpareOwners` | pyroflow/listener_coordinator/redis_listener_coordinator.py:345-354 | Applying any signal in flight changes no registration, and leaves a listener that still owns its registration stored and its future untouched. |
| `ListenerTheorems.StepDelivers` | pyroflow/update_listener/update_listener.py:380-406 | A step logs nothing, or one fenced delivery; nothing else ever writes the log. |
| `ListenerTheorems.StepIsOnward` | pyroflow/update_listener/update_listener.py:141-334 | No step changes a completed future, forgets a call, or puts a token minted earlier back into the registry. |
| `ListenerProtocol.NextKeeps` | pyroflow/update_listener/update_listener.py:141-406 | Every step of every session keeps the inductive invariant over registry, tables, ownership records, futures, signals and log. |
| `ListenerProtocol.RunKeeps` | pyroflow/update_listener/update_listener.py:141-406 | Hence the invariant holds in every reachable state. |
| `ListenerProtocol.CancelKeeps` | pyroflow/update_listener/update_listener.py:173-190 | `_cancel`, with any generation and with or without the coordinator, keeps the mid-step invariant, including where completing the future raises. |
| `ListenerProtocol.ListenKeeps` | pyroflow/update_listener/update_listener.py:279-307 | The entry section of `listen`, replacing or not, keeps it and adds exactly one waiting call when it succeeds. |
| `ListenerProtocol.ResolveKeeps` | pyroflow/update_listener/update_listener.py:374-406 | The candidate loop keeps it, with the log matching the resolved futures one to one. |
| `ListenerConvergence.ConvergenceExact` | pyroflow/listener_coordinator/redis_listener_coordinator.py:255-273 | "Every pending listener is registered or has a signal for its very key and token on the way" survives a step if and only if the step neither loses such a signal nor stops a session whose registered listener is still pending. |
| `ListenerConvergence.Convergence` | pyroflow/listener_coordinator/redis_listener_coordinator.py:345-400 | It therefore holds in every state of every run without such a loss. |
| `ListenerConvergence.DrainedOwn` | pyroflow/update_listener/update_listener.py:173-190 | Once the signals of such a run are drained, every pending listener owns its registry entry. |
| `ListenerConvergence.OutOfSyncNeedsLag` | pyroflow/update_listener/update_listener.py:291-292 | Without loss, the "out of sync" error means a stored listener that is already completed or whose signal is still on the way. |
| `ListenerConvergence.LossLeavesOutOfSync` | pyroflow/update_listener/update_listener.py:291-292 | Wherever a pending listener's signal is lost: it goes on waiting with no signal left for it, and a `listen` for its key on that session fails as "out of sync" if and only if nobody else has registered the key. |
| `ListenerConvergence.LossReachesOutOfSync` | pyroflow/update_listener/update_listener.py:291-292 | An instance: a run of three steps from the start to that error. |
| `MemoryProtocol.MemoryStaysInSync` | pyroflow/listener_coordinator/memory_listener_coordinator.py:23-47 | On the in-process backend, between start and stop, every stored listener's token is the registered one, and `listen` never raises "out of sync" whatever it is asked. |
| `MemoryProtocol.SyncExact` | pyroflow/listener_coordinator/memory_listener_coordinator.py:61-67 | A step leaves the two tables agreeing if and only if it is not a stop with a listener still stored. |
| `TokenSafety.SignalsNameDeadTokens` | pyroflow/listener_coordinator/redis_listener_coordinator.py:26-64 | One Redis command per step, locks lapsing at will: no signal, published or about to be, ever names a token that is in the registry. |
| `TokenSafety.ApplySparesOwners` | pyroflow/listener_coordinator/redis_listener_coordinator.py:345-354 | So applying a signal at any point of such a run changes neither a registration nor the listener that holds it. |
| `TokenSafety.DeadStaysDead` | pyroflow/listener_coordinator/redis_listener_coordinator.py:175-192 | A token that left the registry stays out of it for good. |
| `TokenSafety.LockedDeliveryIsFenced` | pyroflow/update_listener/update_listener.py:389-405 | With the chat lock honoured, command by command, every delivery finds its own token registered, or nobody's after its session's stop. |
| `TokenSafety.OneCheckerPerKey` | pyroflow/update_listener/update_listener.py:374-405 | With the lock honoured, two processes are never both between ownership check and delivery for one key. |
| `TokenSafety.LapsedLockBreaksFence` | pyroflow/listener_coordinator/redis_listener_coordinator.py:154-173 | The lock is needed, everywhere: from any state in which a process has checked and not yet delivered, a lapsed lock lets it deliver while any other session is registered under the key. |
| `ListenerSteps.FirstDecisiveDecides` | pyroflow/update_listener/update_listener.py:380-409 | `resolve` on every table: the first candidate that is owned or already completed decides. Owned, it gets the update (or is cancelled everywhere, if the update is bypassed); completed, it raises. Exactly the superseded listeners before it are discarded; nothing after it is touched. |
| `ListenerSteps.DiscardMeaning` | pyroflow/update_listener/update_listener.py:389-392 | Discarding removes exactly the named listeners and fails exactly their futures; registry, records and channel stay. |
| `ListenerSteps.CancelExactly` | pyroflow/update_listener/update_listener.py:173-190 | `_cancel` entry by entry: it answers False exactly when the listener there is another generation, and then changes nothing; it raises exactly when that listener was already completed; otherwise the listener goes, its future fails with the duplicate mark it was given, and the coordinator, if told, gives up the registration with one signal for the very token it held. |
| `ListenerSteps.ListenExactly` | pyroflow/update_listener/update_listener.py:283-307 | The entry section of `listen` under each policy: REJECT refuses a registered key and changes nothing; REPLACE hands it over, signals the old token and fails the listener here as a duplicate, or raises if that was completed; a free key is taken, unless a listener is left under it, which is the "out of sync" error. |
| `ListenerSteps.ResolveExactly` | pyroflow/update_listener/update_listener.py:380-406 | `resolve` entry by entry: which candidate decides, told by registry, table and futures alone; the result; and every listener, future, registration and signal afterwards. |
| `ListenerSteps.LeavesExactly` | pyroflow/update_listener/update_listener.py:325-334 | The finally clause lets go of table entry, registration and record exactly where they still hold the call's token, and of nothing else. |
| `ListenerSteps.StopsExactly` | pyroflow/listener_coordinator/redis_listener_coordinator.py:321-342 | The coordinator's stop empties exactly the entries that hold what it recorded, and then its record. |
| `UpdateListeners.UpdateListener.Cancel` | pyroflow/update_listener/update_listener.py:141-190 | The method on its dictionary and futures is the step function, result and raise included. |
| `UpdateListeners.UpdateListener.CleanupListen` | pyroflow/update_listener/update_listener.py:221-236 | The callback, which compares futures by identity, is the clean-up by token. |
| `UpdateListeners.UpdateListener.Register` | pyroflow/update_listener/update_listener.py:274-307 | The entry section of `listen` is its step function for both duplicate policies and all three errors; what that does under each policy is `ListenerSteps.ListenExactly`. |
| `UpdateListeners.UpdateListener.Finish` | pyroflow/update_listener/update_listener.py:325-334 | The finally clause is clean-up followed by the token-guarded unregistration. |
| `UpdateListeners.UpdateListener.Resolve` | pyroflow/update_listener/update_listener.py:364-409 | The loop over the generated candidates is the step function on the exact candidate list; it is skipped exactly on an empty table. |
| `UpdateListeners.UpdateListener.Stop` | pyroflow/update_listener/update_listener.py:124-139 | `stop` is a cancellation of every active key, in some order, then the coordinator's bulk unregistration. |
| `UpdateListeners.CancelAllMeaning` | pyroflow/update_listener/update_listener.py:125-131 | Those cancellations leave none of the named listeners stored or pending and touch no other future. |
| `UpdateListeners.CancelAllWithdraws` | pyroflow/update_listener/update_listener.py:125-131 | They give up the registration of every named key, whoever holds it, except where the listener was already completed. |
| `UpdateListeners.CancelAllAnnounces` | pyroflow/update_listener/update_listener.py:125-131 | Each registration given up is announced by the token it held, and nothing else is published. |
| `ListenerRefinement.StepSimulates` | pyroflow/update_listener/update_listener.py:141-406 | Each step function that a critical section was proved equal to is one step of the protocol: applied to a session's own view, which sees its share of the state, it gives a view that sees its share of the next state, having published what the step broadcasts. |
| `ListenerObjects.CancelInStep` | pyroflow/update_listener/update_listener.py:141-190 | Calling `_cancel` on an object that shows its session's share of a state is the protocol's cancel step, and leaves the object showing its share again. |
| `ListenerObjects.ReceiveInStep` | pyroflow/listener_coordinator/redis_listener_coordinator.py:345-354 | Applying a cancel signal is the receive step: it cancels the generation it names and does not tell the coordinator. |
| `ListenerObjects.RegisterInStep` | pyroflow/update_listener/update_listener.py:274-307 | The entry section of `listen` is the listen step, for an identifier nobody drew before. |
| `ListenerObjects.ResolveInStep` | pyroflow/update_listener/update_listener.py:364-409 | `resolve` is the resolve step, or no step at all on an empty table. |
| `ListenerObjects.CleanupInStep` | pyroflow/update_listener/update_listener.py:221-236 | The done-callback is the callback step. |
| `ListenerObjects.FinishInSteps` | pyroflow/update_listener/update_listener.py:325-334 | The finally clause is two steps: leaving the table, then releasing the registration. |
| `ListenerObjects.StopInSteps` | pyroflow/update_listener/update_listener.py:124-139 | `stop` is one cancel step for each active key, then the stop step. |
| `ListenerRefinement.StepSparesOthers` | pyroflow/update_listener/update_listener.py:141-406 | And every other session's object goes on seeing its own share: the step touched neither its tables nor its futures. |
| `ListenerRefinement.CommandsAgree` | pyroflow/listener_coordinator/redis_listener_coordinator.py:175-273 | `register`, the guarded `unregister` and `cancel` change the registry as the Redis commands of `TokenSafety` do, and `cancel` announces the entry that command deleted. |
| `ListenerRefinement.StopAgrees` | pyroflow/listener_coordinator/redis_listener_coordinator.py:321-342 | So does the bulk unregistration at `stop`. |
| `RedisListenerCoordinators.Redis.LuaUnregister` | pyroflow/listener_coordinator/redis_listener_coordinator.py:25-38 | The script deletes the entry exactly when it holds the expected token, and answers 0 exactly when it holds another. |
| `RedisListenerCoordinators.Redis.LuaBulkUnregister` | pyroflow/listener_coordinator/redis_listener_coordinator.py:39-50 | The loop removes exactly the entries named with their current value and counts them, whatever repeats its arguments hold. |
| `RedisListenerCoordinators.RedisListenerCoordinator.Register` | pyroflow/listener_coordinator/redis_listener_coordinator.py:175-192 | Succeeds exactly on a free key, and then records ownership. |
| `RedisListenerCoordinators.RedisListenerCoordinator.Unregister` | pyroflow/listener_coordinator/redis_listener_coordinator.py:194-217 | With a token: drops the entry and the record only where they carry that token, popping and restoring the record on the way. Without: drops both and reports presence. |
| `RedisListenerCoordinators.RedisListenerCoordinator.Cancel` | pyroflow/listener_coordinator/redis_listener_coordinator.py:235-273 | Deletes the entry and publishes a signal naming exactly the token deleted; publishes nothing when there was none. |
| `RedisListenerCoordinators.RedisListenerCoordinator.StopRegistrations` | pyroflow/listener_coordinator/redis_listener_coordinator.py:321-342 | Unzipping the record and running the bulk script removes exactly the recorded pairs that are still current. |
| `MemoryListenerCoordinators.MemoryListenerCoordinator.Register` | pyroflow/listener_coordinator/memory_listener_coordinator.py:23-30 | Same registry transition as Redis, with an identifier no entry holds. |
| `MemoryListenerCoordinators.MemoryListenerCoordinator.Unregister` | pyroflow/listener_coordinator/memory_listener_coordinator.py:32-38 | Popping and putting back is the token-guarded drop, with the same answer as the Redis script. |
| `MemoryListenerCoordinators.MemoryListenerCoordinator.Registered` | pyroflow/listener_coordinator/memory_listener_coordinator.py:43-47 | Answers ownership as the shared registry does. |
| `MemoryListenerCoordinators.MemoryListenerCoordinator.Cancel` | pyroflow/listener_coordinator/memory_listener_coordinator.py:40-41 | Makes the registry transition of the shared `cancel`; always answers True. |
| `CoordinationProtocol.SettledOnce` | pyroflow/dispatcher.py:64-120 | For every interleaving of claims, however late, with the dispatcher's clean-up: a call that took its lock has given it back exactly once by its end, and has registered at most once. |
| `CoordinationProtocol.ReleaseAndRegisterOwn` | pyroflow/dispatcher.py:104-120 | Every release gives back the call's own lock, never a later holder's; every registration is the call's first, happens under its lock and before its release, and adds exactly its own id. |
| `ExactlyOnce.AtMostOneHandled` | pyroflow/dispatcher.py:630-678 | If equal ids share a scope and claims are timely, at most one processing of an id ever settles as handled, redelivery and early settlement included. |
| `ExactlyOnce.StartsAlone` | pyroflow/dispatcher.py:639-661 | When a processing starts, nothing in its lock scope is unsettled, and no other processing of its id is unsettled or has settled as handled. |
| `ExactlyOnce.SkippedOnlyIfRegistered` | pyroflow/dispatcher.py:654-659 | An update that got its lock is dropped if and only if another call had registered that very id. |
| `ExactlyOnce.RegisteredIff` | pyroflow/dispatcher.py:649-678 | A finished call registered its update if and only if the handlers' end counted, or they were reached and a claim won in time. |
| `ExactlyOnce.HandledWasProcessed` | pyroflow/dispatcher.py:649-678 | Every recorded id was registered by a call that gave the update to the handlers. |
| `ClaimDiscipline.ClaimExact` | pyroflow/dispatcher.py:64-91 | In every state a disciplined run reaches, a claim can make a call register an update it has not processed, be it the first registration of that update or one more, if and only if it is taken before the handlers are reached, with an identity set or still to come, and before the dispatcher settles. |
| `ClaimDiscipline.UnseenExact` | pyroflow/dispatcher.py:64-91 | And it can get an update recorded as handled that no registering call gave to a handler if and only if, besides, the update is not recorded yet. |
| `ClaimDiscipline.OverlapExact` | pyroflow/dispatcher.py:64-91 | Exactly when a claim can get one update processed by two calls at once: in every state a disciplined run reaches, if and only if it is taken before the update is identified and the update is not recorded yet. |
| `ClaimDiscipline.LateClaimDecidesNothing` | pyroflow/dispatcher.py:93-102 | A claim taken between the dispatcher's two looks at the settlement answers True and decides nothing: however the run goes on, the call registers its update if and only if the dispatcher was about to. |
| `ClaimDiscipline.ClaimCountsExactly` | pyroflow/dispatcher.py:64-91 | A claim that answers True on an identified update ends with the update registered, however the run goes on, if and only if it does not fall between those two looks of a dispatcher that was not about to register. |
| `ThreadClaims.OneShot` | pyroflow/dispatcher.py:79-120 | With claims from other threads split into look, submission and assignment: still at most one registration, at most one release, the registration first; and a call that ends before its lock is back leaves a task about to return it. |
| `ThreadClaims.EndsEarlyExactly` | pyroflow/dispatcher.py:79-102 | In every reachable state before the dispatcher settles, the call can end before its lock is back, without further claims from other threads, if and only if the lock is not back and such a claim is in between, or some task may settle that is not the assigned one. |
| `ThreadClaims.LoopClaimsSettle` | pyroflow/dispatcher.py:79-102 | If every claim is made on the event loop, the lock is back whenever the call has ended. |
| `Dispatchers.CoordinatedRelease.ClaimEarly` | pyroflow/dispatcher.py:64-91 | Taken exactly when nobody claimed or settled before. |
| `Dispatchers.CoordinatedRelease.Settle` | pyroflow/dispatcher.py:93-120 | The first settlement gives the lock back, and records the id if and only if the end counted or a claim had been taken; every later one, also with a claim that came too late, changes neither the registry nor the lock, whoever holds it by then. |
| `SettlementRefinement.SettlesAlone` | pyroflow/dispatcher.py:93-120 | Undisturbed, a call that is finishing takes these steps of the protocol to its end, with that effect on locks and registry. |
| `SettlementRefinement.SettleInStep` | pyroflow/dispatcher.py:93-120 | Calling `settle` on an object that shows a call of the protocol leaves it showing that call at its end. |
| `SettlementRefinement.CoordinateInSteps` | pyroflow/dispatcher.py:649-678 | The whole coordinated part of `handle_update`, left alone, is a run of the protocol from holding the lock to the end: the update reaches the handlers if and only if the protocol's call does, with the outcome the protocol is told of, and lock and registry end as the protocol has them. |
| `Dispatchers.Dispatcher.HandleUpdate` | pyroflow/dispatcher.py:581-678 | Times out exactly when the lock stored under the scope's key is taken, drops exactly when the id is recorded, and then reaches neither handlers nor history nor listener; otherwise runs the pipeline; the id becomes recorded if and only if the update counts as handled (see `HandlerGroups.CountsExactly`) or a reached handler claimed; the scope's lock comes back exactly once and no other lock moves. |
| `Dispatchers.Dispatcher.Coordinate` | pyroflow/dispatcher.py:649-678 | The part under the lock, for every identity outcome including one that raises: an update is processed if and only if its identity is known and not recorded; a recorded one is dropped, with no handler run, nothing for the history and the listener untouched. |
| `Dispatchers.EndExactly` | pyroflow/dispatcher.py:622-661 | Which of the five ends an update meets, told by set-up, lock, identity and registry; which of them reach handlers; and that the history gets those reached handlers that returned, if the loop ran to its end. |
| `Dispatchers.RecordedExactly` | pyroflow/dispatcher.py:663-678 | An id is recorded afterwards if and only if it was before, or this update was processed under it and was stopped, or some handler returned or raised, or one that was reached claimed; no other integer id becomes recorded. |
| `Dispatchers.HeardExactly` | pyroflow/dispatcher.py:505-506 | The listener goes through its candidates exactly when the update gets that far, is listenable and meets a table that is not empty; else it is untouched. |
| `Dispatchers.LockNamesApart` | pyroflow/dispatcher.py:634-638 | Updates with integer scopes wait for the same lock if and only if their scopes are equal. |
| `Dispatchers.Dispatcher.HandleListen` | pyroflow/dispatcher.py:451-475 | Runs the listener's `resolve`, with the update's own key and bypass decision, and stops propagation if and only if a listener takes the update and its table is empty, or the first candidate that decides is owned, pending and not bypassed, or none decides and `on_unresolved` does not raise. |
| `Dispatchers.ResolveStopsExactly` | pyroflow/update_listener/update_listener.py:370-409 | The same on values: where `resolve` returns normally, for every table and update. |
| `Dispatchers.Dispatcher.RunGroup` | pyroflow/dispatcher.py:522-570 | The inner loop reaches exactly the handlers `HandlerGroups.ReachedExactly` says, all of the update's type or raw and with a passing check, claims included. |
| `Dispatchers.GroupEndExactly` | pyroflow/dispatcher.py:546-570 | A group is passed if and only if every handler whose kind and check let it be called passes the update on; otherwise it ends as its last reached handler did. |
| `Dispatchers.Dispatcher.RunGroups` | pyroflow/dispatcher.py:504-579 | The nested loops with counters and records are the fold over the groups' deciders. |
| `Dispatchers.Dispatcher.HandleGroups` | pyroflow/dispatcher.py:478-579 | A listener that stops propagation keeps every handler out; what goes to the history is the successful deciders of a loop that completed. |
| `HandlerGroups.FoldMeaning` | pyroflow/dispatcher.py:522-579 | The loop returns normally exactly when no decider signals; then the successes are the returning deciders in group order, and handled plus raised is the number of deciders, at most the number of groups. |
| `HandlerGroups.FirstSignalWins` | pyroflow/dispatcher.py:554-555 | The first deciding signal ends the loop and says how. |
| `HandlerGroups.CountsExactly` | pyroflow/dispatcher.py:663-674 | An update counts as handled if and only if some group decides it and the first decider to signal, if any does, stops propagation. |
| `HandlerGroups.RanExactly` | pyroflow/dispatcher.py:602-606 | The documented rule, recorded when at least one handler ran, holds if and only if it is not the case that one ran and either no handler decided, all that ran having passed the update on, or the first signal is an unhandled update. Whatever is recorded was given to a handler. |
| `HandlerGroups.ActedExactly` | pyroflow/dispatcher.py:602-606 | Read more narrowly, "ran" meaning returned, raised or stopped propagation, the rule holds if and only if it is not the case that one did and the first signal is an unhandled update. |
| `HandlerGroups.ContinuingUncounted` | pyroflow/dispatcher.py:556-557 | An input where the literal rule fails: a handler runs to its end and passes the update on. |
| `HandlerGroups.RanButUncounted` | pyroflow/dispatcher.py:602-606 | An input where both fail: one handler returns, a later group's handler declares the update unhandled. |
| `HandlerGroups.ReachedUpToDecider` | pyroflow/dispatcher.py:522-570 | Only handlers of the update's type or raw ones whose check passes are reached, all but the last continue, and the last is the decider if there is one. |
| `HandlerGroups.DeciderExactly` | pyroflow/dispatcher.py:522-570 | A group's decider is its first handler of the update's type, or raw, whose check passes and whose callback does not continue. |
| `HandlerGroups.ReachedExactly` | pyroflow/dispatcher.py:522-570 | Place by place: a handler is called if and only if it is of the update's type or raw, its check passes, and every such handler before it in the group continued; in the group's order, each once. |
| `HandlerGroups.EnteredExactly` | pyroflow/dispatcher.py:522-570 | The groups are gone through in order, up to and including the first whose decider signals. |
| `HandlerGroups.EndIsReached` | pyroflow/dispatcher.py:553-579 | The loop's end is written in what it reached: a signal if the last handler reached gave one, else how many returned and raised, and those that returned in order. |
| `UpdateCoordinators.SectionsDisjoint` | pyroflow/update_coordinator/update_coordinator.py:76-102 | A handled key is never a lock key, whatever the tuples. |
| `UpdateCoordinators.KeyFields` | pyroflow/update_coordinator/update_coordinator.py:76-102 | A backend key reads: the namespace, the section, the update type, then the parts. |
| `UpdateCoordinators.IntegerKeysInjective` | pyroflow/update_coordinator/update_coordinator.py:88-102 | `build_key` is injective on integer tuples of any length and sign. |
| `UpdateCoordinators.KeysCollide` | pyroflow/update_coordinator/update_coordinator.py:88-102 | Exactly which tuples share a key, strings and all: those that read the same once every part is cut at its separators. |
| `UpdateCoordinators.StringKeysCollide` | pyroflow/update_coordinator/update_coordinator.py:102 | With strings it is not injective: a separator inside a part, and a digit string, both collide. |
| `UpdateCoordinators.RecordingIsExact` | pyroflow/update_coordinator/memory_update_coordinator.py:79-83 | Recording an integer id makes that id handled and no other. |
| `UpdateCoordinators.MemoryUpdateCoordinator.Lock` | pyroflow/update_coordinator/memory_update_coordinator.py:65-77 | One mutex per scope, the same one each time, never shared between scopes. |
| `UpdateCoordinators.MemoryUpdateCoordinator.MarkHandled` | pyroflow/update_coordinator/memory_update_coordinator.py:82-83 | Of all integer ids, exactly this one becomes handled. |
| `HistoryStores.MemoryUpdateHistoryStore.Update` | pyroflow/update_history_store/memory_update_history_store.py:67-79 | The heap with its two pop loops keeps refining the full log of the key, now longer by these records; other keys are untouched, heaps stay ordered, bounded and non-empty. |
| `HistoryStores.MemoryUpdateHistoryStore.Get` | pyroflow/update_history_store/memory_update_history_store.py:81-87 | Returns exactly the newest records still alive of everything logged since the key was last popped or deleted, and nothing observable changes. |
| `HistoryStores.MemoryUpdateHistoryStore.Pop` | pyroflow/update_history_store/memory_update_history_store.py:89-90 | Returns the same, and the key starts over. |
| `HistoryStores.VisibleMeaning` | pyroflow/update_history_store/memory_update_history_store.py:54-90 | In the records' own fields: what is shown is in order of creation and then of construction, each with `now < created_at + ttl`, at most the bound; nothing hidden is newer than anything shown; and nothing hidden is still alive unless the bound is reached. |
| `HistoryStores.VisibleExactly` | pyroflow/update_history_store/memory_update_history_store.py:51-90 | And nothing else is: a list is what the store shows if and only if it meets that description. |
| `HistoryStores.AliveRemain` | pyroflow/update_history_store/memory_update_history_store.py:51-64 | A clean-up removes each record with `now >= created_at + ttl`, as often as it is there, and no other. |
| `HistoryStores.TrimAgain` | pyroflow/update_history_store/memory_update_history_store.py:57-64 | Cleaning up early changes nothing seen later. |
| `HistoryStores.TrimAppend` | pyroflow/update_history_store/memory_update_history_store.py:67-76 | Adding records to what an earlier clean-up left shows the same as adding them to the full log. |
| `HistoryStores.BatchingUnobservable` | pyroflow/update_history_store/memory_update_history_store.py:67-79 | One update with n records leaves what n single updates leave at that instant, in any order. |
| `HistoryStores.OrderUnobservable` | pyroflow/update_history_store/memory_update_history_store.py:67-87 | The view does not depend on the order records were added in. |
| `HistoryStores.CleanUp` | pyroflow/update_history_store/memory_update_history_store.py:57-64 | Popping the root while it is expired removes exactly the expired records. |
| `Heaps.HeapPop` | pyroflow/update_history_store/memory_update_history_store.py:61-62 | Removes a least record, the one at the root, and restores heap order. |
| `Heaps.HeapPush` | pyroflow/update_history_store/memory_update_history_store.py:70-71 | Adds the record and restores heap order. |
| `Heaps.SortedUnique` | pyroflow/models.py:154-163 | Under the (created_at, sequence) order a set of records has one sorted arrangement. |
| `KeyPlans.PlanExact` | pyroflow/models.py:15-28 | A keep-mask is in the plan if and only if it is a submask of the mask. |
| `KeyPlans.PlanOrdered` | pyroflow/models.py:15-28 | Widest first, ties in lexicographic order of the selected positions, nothing twice. |
| `KeyPlans.PlanLength` | pyroflow/models.py:15-28 | Two to the power of the number of set bits entries. |
| `KeyPlans.GetPlan` | pyroflow/models.py:15-28 | The loops compute that plan. |
| `ListenerKeys.SubKeysExact` | pyroflow/models.py:54-108 | A key is a candidate if and only if it has the same chat, every other component absent or equal, and at least `min_dep` components. |
| `ListenerKeys.SubKeysOrdered` | pyroflow/models.py:54-108 | Most specific first, the user before the message, no repeats. |
| `ListenerKeys.WalkIsFilter` | pyroflow/models.py:54-108 | The early return at `min_dep` drops exactly what a filter would. |
| `ListenerKeys.EnumerateSubKeys` | pyroflow/models.py:54-108 | The generator yields that list. |
| `KeyCodec.UnpackPack` | pyroflow/listener_coordinator/redis_listener_coordinator.py:137-151 | Every key, negative and absent components included, survives packing and unpacking if and only if the type name holds no separator. |
| `KeyCodec.PackedFields` | pyroflow/listener_coordinator/redis_listener_coordinator.py:118-151 | A packed key reads: the namespace, the section, the type, then chat, user and message, an underscore for one that is absent. |
| `KeyCodec.PayloadFields` | pyroflow/listener_coordinator/redis_listener_coordinator.py:266-273 | A cancel message reads: the fields of the key, then those of the token. |
| `KeyCodec.PackInjective` | pyroflow/listener_coordinator/redis_listener_coordinator.py:117-151 | Different keys, sections or update types never share a backend key, whatever the type names hold. |
| `KeyCodec.ReadPublished` | pyroflow/listener_coordinator/redis_listener_coordinator.py:375-384 | Splitting a cancel message from the right recovers exactly the key and the token it was published with, if and only if neither the type name nor the token holds the separator. |
| `Texts.ParseIntText` | pyroflow/listener_coordinator/redis_listener_coordinator.py:138-149 | Reading back a printed integer gives the integer; the text is not empty and holds no separator. |
| `Texts.PrintedDigits` | pyroflow/listener_coordinator/redis_listener_coordinator.py:138-149 | The digits are printed in the usual order, behind a minus sign for a negative integer. |
| `Texts.SplitJoin` | pyroflow/listener_coordinator/redis_listener_coordinator.py:138-149 | Splitting undoes joining, for parts without the separator. |
| `Texts.JoinSplit` | pyroflow/listener_coordinator/redis_listener_coordinator.py:138-149 | Joining undoes splitting, for every text. |
| `BotCommands.BotCommandsMixin.Prune` | pyroflow/client.py:672-710 | The in-place loop from the back, with its deletions, is the stable filter by what registered handlers declare. |
| `BotCommands.PruneExact` | pyroflow/client.py:672-710 | After pruning a command is listed under a key if and only if it was collected there and some registered handler declares it under that very key. |
| `BotCommands.PrunedListed` | pyroflow/client.py:702-710 | Each key keeps its declared commands, in order and with repeats, and loses the rest. |
| `BotCommands.PrunedKeys` | pyroflow/client.py:702-710 | No key is duplicated and no empty group remains. |
| `BotCommands.PrunedInPlace` | pyroflow/client.py:702-710 | The groups stay in their order, and exactly those stay that hold a command declared under their key. |
| `BotCommands.PruneIdempotent` | pyroflow/client.py:672-710 | Pruning twice is pruning once. |
| `BotCommands.UntrackUndoesTrack` | pyroflow/client.py:630-670 | Discarding a handler's declarations undoes collecting them, under every key, up to the order of the commands. |
| `BotCommands.UntrackReorders` | pyroflow/client.py:664-665 | An instance where the order does not come back: the first occurrence goes, not the one that was added. |
| `CommandOrders.UndoneExactly` | pyroflow/client.py:630-670 | Discarding a handler's declarations restores the whole group list if and only if no group they name was empty and each of those groups comes back in order. |
| `CommandOrders.UndoneWhenUnlisted` | pyroflow/client.py:630-670 | It does whenever no group they name was empty and no declared command was listed there before. |
| `CommandOrders.NotUndone` | pyroflow/client.py:664-665 | It never does when a listed declared command has an undeclared one behind it. |
| `CommandOrders.OneUndoneExactly` | pyroflow/client.py:664-665 | For one declared command: if and only if the group was not empty and nothing else follows the command's first occurrence in it. |
| `CommandOrders.DistinctUndoneExactly` | pyroflow/client.py:630-670 | For lists without repeats: if and only if the listed declared commands stood at the end already, in the order they are declared in. |
| `BotCommands.BotCommandsMixin.Collect` | pyroflow/client.py:630-648 | Commands are appended to the first group with the key, or to a new one at the end. |
| `BotCommands.CollectListed` | pyroflow/client.py:630-648 | Collecting appends under its own key, changes no other key's list and duplicates no key. |
| `BotCommands.CollectsInPlace` | pyroflow/client.py:630-648 | It changes the first group with the key, or adds one at the end; every other group stays where it is. |
| `BotCommands.BotCommandsMixin.Discard` | pyroflow/client.py:650-670 | One occurrence of each command goes from the first group with the key, missing ones ignored, an emptied group with it. |
| `BotCommands.BotCommandsMixin.Push` | pyroflow/client.py:712-745 | Prunes, then makes the calls in group order. |
| `BotCommands.CallsPublish` | pyroflow/client.py:733-745 | What is published under a key is the collected and still declared commands, each at its first occurrence. |
| `BotCommands.FirstsInOrder` | pyroflow/client.py:734-737 | The de-duplicated commands come in the order of their first occurrences. |

## Left out

- Telegram and Pyrogram calls, `Client.ask`, `types.py`, filters, handler registration and monkey-patching: I/O and thin wrappers.
- asyncio: tasks, executors and context variables appear as interleaved steps, futures as cells that are completed at most once, locks as mutexes held by a step or a process. Fairness and deadlines are not modelled; a timeout may happen at any time.
- Redis: only `SET NX`, `GET`, `DEL`, the three scripts and `PUBLISH`. A command that fails, a reconnect, and a lock that expires (except in `TokenSafety`) are not modelled. `RedisUpdateCoordinator` is left out; the protocol in `CoordinationProtocol` does not depend on the backend.
- `uuid4` is a source of numbers never drawn before, and its text is only assumed to hold no separator.
- The subscription itself: a signal published while a session is not subscribed counts as lost, which every theorem except `ListenerConvergence.Convergence` and what follows from it allows. The in-process counter that restarts at zero on `stop` is outside `MemoryProtocol` runs.
- UpdateListeners.UpdateListener.Stop: performs the gathered cancellations one after the other, in any one order; the source gathers them concurrently, and other critical sections may come between. `ListenerProtocol` has them as separate steps that interleave with everything else.
- CoordinationProtocol.SettledOnce: a claim is one step here and in `ExactlyOnce` and `ClaimDiscipline`, as it is on the event loop. For a claim from another thread that means it is not interrupted between its look at `_early` and its assignment (pyroflow/dispatcher.py:79-89); what such an interruption can do is `ThreadClaims`.
- Command-level runs of `TokenSafety` are not shown to be equivalent to runs of `ListenerProtocol`, where a critical section is one step; the fence is proved in each, and the single commands are compared (`ListenerRefinement.CommandsAgree`).
- Dispatchers.Dispatcher.HandleUpdate: one call at a time; whether coordination is set up, which identity is extracted, and what the update's listener and handlers decide are inputs. Calls that overlap are `CoordinationProtocol`.
- A task cancelled inside a critical section is not modelled: each critical section runs to its end or raises where the source raises. In particular a `listen` cancelled after its registration and before its `try` (pyroflow/update_listener/update_listener.py:305-312) never reaches its finally clause, and leaves its registration behind until the session stops or another `listen` replaces it.
- `ExactlyOnce` assumes what its `Disciplined` predicate says (timely claims, equal ids sharing a scope) and that set-up and backend calls succeed; an update whose coordination set-up raises is processed uncoordinated (pyroflow/dispatcher.py:642-647) and appears only in `Dispatchers`.
- `mark_handled` called by `extract_update_id` is in `CoordinationProtocol` but not in `Dispatcher.HandleUpdate`, where only handlers claim and nothing else runs meanwhile except a scheduled settlement.
- `TTLCache`: the history store's keys and the handled ids stay resident. `setdefault` does not refresh a key's own lifetime (pyroflow/update_history_store/memory_update_history_store.py:68), so a key older than the lifetime loses records that are still unexpired; the results hold while it stays. The weakly held lock dictionary is a map that is never swept.
- The clock never runs backwards, and `created_at` and the lifetime are reals.
- A negative `max_history_len` makes the trimming loop pop from an empty heap and raise; the bound is a natural number here. A record is its creation time and construction number; handler and data play no part in the order.
- `int()` also accepts spellings that `str` never prints (a plus sign, underscores, spaces); only printed integers are parsed.
- An unknown duplicate policy raises `TypeError`; the policy is one of the two.
- `handle_update_handler_exception` is taken to return, and a failing `record_many` is only logged and so has no effect here.
- `_track_bot_commands` waits for locks and re-reads the registration before it collects or discards; its scheduling is left out, and `BotCommands` states what each call does.
