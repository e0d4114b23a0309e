# A model of libmultiprocess

libmultiprocess lets one process call C++ methods of objects in another. This
project models the parts of it where mistakes hide: the lock, condition-variable
and single-slot protocols of its runtime, and the translation of a method call
into messages and back. Everything is stated for all inputs, all schedules and
all runs.

## What is modelled

**The event loop** (`LoopSpec`, `EventLoopObject`, `EventLoopProtocol`,
`EventLoopProgress`). `EventLoop` is a class whose methods are the critical
sections of the C++ code, proved against functions on the guarded fields.
`EventLoopProtocol` interleaves these functions: any number of
posting threads and of threads that drop references, the loop thread, the
asynchronous thread, spurious wake-ups, and the writes and reads of the wake-up
socket that happen outside the lock. `LoopSpec` is a small automaton that says
what an observer may see. The protocol refines it, conserves wake-up bytes,
never deadlocks, and once users start nothing new comes to rest under every
scheduler.

**One request and its cancellation** (`CancelMonitor`, `TryFinally`, `Cancellation`,
`HandlerChain`). Two objects that point to each other, a follow-up that runs
whatever is thrown, and the request they are part of. A worker executes a chain of
server handlers, of any length, while the event loop may cancel at any point and
then frees params and results; `HandlerChain` says what the handlers read, write,
catch and let through.

**Worker threads** (`WaiterObject`, `WorkerThread`). The one-element task slot, waits
nested to any depth, the chain of "ready" promises, and the end of the thread.

**Disconnects** (`Disconnect`, `ThreadExit`, `RequestThreads`, `ServerCleanup`).
Connections, clients and thread maps with the callbacks that tie them together;
the end of a thread that destroys its own maps; the request_threads map over
nested calls; the release of server objects.

**The generator** (`FieldList`, `ArgumentNumbering`). How `mpgen` collects the fields
of a method and numbers its C++ parameters, and how client and server templates
divide the same parameters again.

**Values and calls** (`Integers`, `Codec`, `FieldCodec`, `RemoteCall`,
`RemoteEquivalence`, `CodecCalls`, `SchemaCalls`, `SchemaFields`). A recursive universe of types;
what building writes and what reading makes of any message, into a new object,
over an old one, or into an element of a map; and a whole remote call compared
with the direct call, from the names of the fields in the schema on.

**Logging** (`LogEscape`).

State machines have a datatype of steps, `Enabled` and `Apply`; theorems hold for
every state reached by any sequence of steps. Code that the source writes as loops and
updates is written so here, as methods proved against functions.

## What the proofs found

Each of these is a lemma with a concrete run or value, beside the theorem that
says exactly when the property does hold.

- A method that declares an exception type `InterruptException` derives from, such as
  `std::exception`, loses the protection against freed params and results: the
  handler catches the interrupt and writes (`Cancellation.CancellationSafety`,
  `Cancellation.TouchAfterFree`).
- A signed C++ integer in an unsigned field of 32 or 64 bits, not narrower than it, passes
  the static assertions, because C++ compares their limits as unsigned numbers; then
  every read throws, whatever the value (`Integers.RoundTripIff`, `Integers.SignCanBeLost`).
- An optional of a plain number without a `has` field, and an optional directly inside an
  optional, do not arrive; nor does a shared_ptr in a field with a `has` field, which is read but
  never set for it (`Codec.RoundTripsIffSound`, `Codec.LostIsLost`, `Codec.LostPresence`).
- In a list of map entries with equal keys, the first entry wins for numbers, enums and
  strings, the last one for everything that is updated in place (`Codec.WhoWins`).
- An exception field that is a plain number makes the client throw always; one with a
  `has` field makes it throw never (`CodecCalls.RemoteEqualsLocalIff`).
- With exception fields for a class and its base, the class first, an exception of the class
  arrives as one of the base, because the handler of a later field is inside that of an earlier
  one (`CodecCalls.DerivedArrivesAsBase`; the exact condition is `RemoteEquivalence.KeepsViewIff`,
  without multiple inheritance `RemoteEquivalence.BasesFirstIff`). A std::exception is thrown as
  std::runtime_error on the client, and matches a declared std::runtime_error that it did not match
  on the server (`RemoteEquivalence.ThrownMatchesMore`).
- A null pointer argument without a `want` field arrives as a pointer to an object
  (`RemoteEquivalence.UnrequestedNullIsLost`).
- An out-argument listed after the result, or after an exception, breaks the division of the
  parameters; so does a parameter with the name of the result or of an exception, for
  example `result` (`ArgumentNumbering.SchemaAgrees`, `ArgumentNumbering.ParameterNamedResult`).
- request_threads is keyed by the address of the connection. A call that inserted its entry and
  outlives its connection erases, when it ends, the entry that a newer connection at the same
  address has by then (`RequestThreads.ForeignEntryErased`). The map is exact in a run exactly if
  no call ends like that (`RequestThreads.ExactIffNoForeignEnd`).
- A thread that exits destroys its maps itself. If a connection breaks meanwhile whose entry is
  waiting for its turn, or for the first function of its destructor, the callback of the
  connection erases the entry as well, and the client is destroyed twice
  (`ThreadExit.SafeIffNotInterrupted`, `ThreadExit.DestroyedTwice`).
- The comment in `EventLoop::loop` explains why the loop does not leave when a posted function is set
  although `done()` holds. The two never hold together (`EventLoopProtocol.PostedMeansNotDone`).

## Model

| member | source | states |
|---|---|---|
| EventLoopObject.EventLoop.Begin | src/mp/proxy.cpp:234-238 | The async queue exists and is empty, nothing else changes. |
| EventLoopObject.EventLoop.Done | src/mp/proxy.cpp:321-325 | True exactly if there are no references and no queued cleanup functions. |
| EventLoopObject.EventLoop.Reset | src/mp/proxy.cpp:60-80 | One reference fewer; tells the caller to notify and write exactly if that made the loop done. |
| EventLoopObject.EventLoop.TryFill | src/mp/proxy.cpp:283-286 | The slot is taken only if it was empty; an occupied slot is left alone. |
| EventLoopObject.EventLoop.WakeUp | src/mp/proxy.cpp:247-263 | A byte in hand means running the posted function, else leaving exactly if done, else reading again. |
| EventLoopObject.WakeUpIs | src/mp/proxy.cpp:247-263 | The loop leaves exactly if nothing is posted, no references are left and the queue is empty; it executes exactly what is posted. |
| EventLoopObject.EventLoop.FinishPost | src/mp/proxy.cpp:255-256 | The slot is empty again, the counts unchanged. |
| EventLoopObject.EventLoop.AddAsyncCleanup | src/mp/proxy.cpp:177-198 | The function goes to the end of the queue and a thread exists to run it. |
| EventLoopObject.EventLoop.TakeAsync | src/mp/proxy.cpp:302-308 | The oldest function leaves the queue together with a new reference, so done() stays false. |
| EventLoopObject.EventLoop.End | src/mp/proxy.cpp:270-274 | The queue and both descriptors are given up. |
| LoopSpec.ReturnedMeansRanOnce | src/mp/proxy.cpp:277-293 | In an allowed log a post that returned had its function run exactly once, between call and return. |
| LoopSpec.NoOverlap | src/mp/proxy.cpp:247-256 | Posted functions never overlap. |
| LoopSpec.CleanupFirstInFirstOut | src/mp/proxy.cpp:177-198 | Cleanup functions start in the order they were added, one at a time, each after it was added. |
| LoopSpec.ReturnedMeansComplete | src/mp/proxy.cpp:257-274 | When loop() has returned, every post and every cleanup function has completed, once. |
| LoopSpec.CallCounts | src/mp/proxy.cpp:277-293 | How often each event of a call occurs in a log, for all logs allowed. |
| LoopSpec.CleanupCounts | src/mp/proxy.cpp:295-325 | The same for cleanup functions. |
| EventLoopProtocol.EveryRunIsAtomic | src/mp/proxy.cpp:244-325 | Every interleaving of posters, reference droppers, loop and async thread shows a log the specification allows. |
| EventLoopProtocol.InvStep | src/mp/proxy.cpp:50-325 | Every step of every participant keeps the counting, slot, wake-up and refinement invariants. |
| EventLoopProtocol.WakeUpsConserved | src/mp/proxy.cpp:244-264 | Bytes in the socket, in hand and about to be written equal the posted function not started plus the announcement not consumed, at most one; the loop neither sleeps on work nor wakes for nothing. |
| EventLoopProtocol.PostedMeansNotDone | src/mp/proxy.cpp:257-263 | While a function is posted the loop is not done, nothing has been announced, and the loop has not left; at most one wake-up is owed. |
| EventLoopProtocol.NoWriteAfterClose | src/mp/proxy.cpp:265-274 | No thread writes to the socket once the loop has left, or closed it. |
| EventLoopProtocol.DestructorAssertions | src/mp/proxy.cpp:213-221 | All five assertions of the destructor hold after every run, descriptors included, and nobody is inside post(). |
| EventLoopProtocol.DoneOnceAndForAll | src/mp/proxy.cpp:60-80 | done() becomes true only in reset, stays true, and is announced exactly once. |
| EventLoopProtocol.LastReferenceNotifies | src/mp/proxy.cpp:60-80 | Giving up a reference wakes every thread asleep if it was the last and the queue is empty, and otherwise changes the count alone. |
| EventLoopProtocol.NobodySleepsOnATruePredicate | src/mp/proxy.cpp:283-316 | No thread asleep on the condition variable has a true predicate. |
| EventLoopProtocol.PostGoesOn | src/mp/proxy.cpp:277-293 | What each step of post() does, from the slot and the owner alone: wait or take the slot, write one byte, wait until another function is in the slot, return. |
| EventLoopProtocol.PostNeverStuck | src/mp/proxy.cpp:277-293 | While a thread is inside post() some step of the runtime is possible. |
| EventLoopProtocol.ShutdownNeverStuck | src/mp/proxy.cpp:257-274 | Once nothing is left, the loop gets to its end without anyone's help. |
| EventLoopProgress.InternalStepsUseUpWork | src/mp/proxy.cpp:244-325 | Every step the runtime takes by itself lowers a well-founded rank. |
| EventLoopProgress.StuckMeansAtRest | src/mp/proxy.cpp:244-325 | A state without such a step has nobody in post(), an empty slot, and, if done, a returned loop and no async thread. |
| EventLoopProgress.EveryPostCompletes | src/mp/proxy.cpp:277-293 | From every point of every run: once users start nothing new, every scheduler brings the protocol to rest, so every post() in progress returns. |
| ServerCleanup.CleanupRun | include/mp/proxy.h:39-45 | The k-th event is the call of the k-th function of the list, and there are no others. |
| ServerCleanup.ProxyServer.InvokeDestroy | include/mp/proxy-io.h:651-656 | The implementation is released if still there, then every cleanup function runs. |
| ServerCleanup.ProxyServer.Destroy | include/mp/proxy-io.h:601-632 | What is left moves into one asynchronous function, and the assertion that no cleanup function is left holds. |
| ServerCleanup.RunAsync | include/mp/proxy-io.h:625-628 | Released first, then cleaned in order. |
| ServerCleanup.Lifetime | include/mp/proxy-io.h:601-656 | However often destruction is asked for, the implementation is released exactly once, before its cleanup functions, which run once each. |
| CancelMonitor.Monitor.Destroy | include/mp/util.h:347-354 | Both links are cut, so the probe's end does nothing. |
| CancelMonitor.Monitor.PromiseDestroyed | include/mp/util.h:356-367 | Canceled, and the callback is called exactly if set. |
| CancelMonitor.Probe.Destroy | include/mp/util.h:340-343 | Cancels exactly if the monitor is still there. |
| CancelMonitor.DestroyProbe | include/mp/util.h:340-343 | What the request machine does to the pair when the promise goes is what the objects do. |
| CancelMonitor.DestroyMonitor | include/mp/util.h:347-354 | The same for the end of the monitor. |
| CancelMonitor.Complete | include/mp/proxy-io.h:773-787 | If the monitor goes first, the end of the promise cancels nothing. |
| CancelMonitor.CancelFirst | include/mp/util.h:356-367 | If the promise goes first, the request is canceled and the callback runs if installed. |
| Cancellation.CancellationSafety | include/mp/type-context.h:100-196 | Over every interleaving and every cancel point the worker touches params and results only while they exist, if and only if no declared exception type catches InterruptException. |
| Cancellation.TouchAfterFree | include/mp/proxy-types.h:556-570 | With such a type there is a run that touches freed memory. |
| HandlerChain.TouchesExactly | include/mp/proxy-types.h:339-361 | The touches counted are exactly the reads of parameters on the way in, the writes of results on the way out of a call that returned, the handler that catches, and the context of an uncanceled call. |
| HandlerChain.EnteringThrows | include/mp/proxy-types.h:339-361 | A parameter that cannot be read throws out of its own handler, which is then left; no other handler throws on the way in. |
| HandlerChain.LeavingThrows | include/mp/proxy-types.h:540-571 | A result that cannot be written throws out of its handler, exactly where one is written. |
| HandlerChain.AccessesAreSafe | include/mp/type-context.h:100-196 | At every access of every run the structs are there, if and only if no declared exception type catches InterruptException; stated on states and steps, without the flag that records touches. |
| HandlerChain.ParamsThereOnTheWayIn | include/mp/type-context.h:100-140 | While handlers are entered nothing has been freed and the method has not been called, whatever is declared. |
| HandlerChain.BadParameterNeverCalls | include/mp/proxy-types.h:347-357 | After a parameter that cannot be read the method is never called, in any continuation of the run. |
| HandlerChain.DeclaredExceptionsStay | include/mp/proxy-types.h:556-571 | In an uncanceled call the method is called once, and at every handler on the way out the exception in flight is what it threw, or none, exactly if an inner handler declares it. |
| Cancellation.FrameAndLockDiscipline | include/mp/proxy-types.h:505-527 | For every request: m_on_cancel never runs without the frame it captures, cancel_lock is held whenever it is released, and through the try, the catch and the rethrow of TryFinally the follow-up runs exactly once for the one method call; what leaves is the interrupt if the request was canceled, else what the method threw. |
| TryFinally.Run | include/mp/util.h:228-249 | In all four cases, whether the function and the follow-up throw or not, the follow-up runs once, and its exception wins. |
| Cancellation.NoCircularWait | include/mp/type-context.h:141-157 | The loop never waits for a lock whose holder waits for the loop. |
| Cancellation.NeverStuck | include/mp/type-context.h:100-196 | Until the request is finished somebody can go on, without a cancellation. |
| Cancellation.EveryStepUsesUpRank | include/mp/type-context.h:100-196 | Every step of worker or loop lowers a rank. |
| Cancellation.RunsAreBounded | include/mp/type-context.h:100-196 | No run has more than twice the handlers plus eighteen steps, so every request finishes. |
| WaiterObject.Waiter.Post | include/mp/proxy-io.h:376-384 | Succeeds exactly if the slot was empty, and never replaces a function. |
| WaiterObject.Waiter.RunPosted | include/mp/proxy-io.h:395-399 | The slot is empty afterwards and what ran is what the specification serves, also for functions posted meanwhile. |
| WaiterObject.EverythingIsServed | include/mp/proxy-io.h:389-402 | Functions posted in an unbroken sequence all run, in order, in one evaluation of the predicate. |
| WorkerThread.InvStep | include/mp/proxy-io.h:743-805 | Every step keeps the shape of the stack of nested waits, the ready chain, the reference count and the lifetime invariants. |
| WorkerThread.PostsNeverCollide | include/mp/proxy-io.h:757-803 | In every run assert(posted) holds and functions start in post order, nested or not. |
| WorkerThread.NestedWaitsLoseNoWakeUp | include/mp/proxy-io.h:386-403 | For any nesting, only the top wait can be asleep, and then the slot is empty and its predicate false. |
| WorkerThread.ClientCallReturns | include/mp/proxy-types.h:746-750 | A wait for a call, nested at any depth, ends at its next evaluation exactly if the call has completed and the slot is empty; asleep it is only while the call has not completed; a function in the slot runs first. |
| WorkerThread.CompletionWakes | include/mp/proxy-types.h:728-743 | Completing a call wakes the top wait. |
| WorkerThread.ShutdownEndsTheThread | src/mp/proxy.cpp:430-433 | The bottom wait ends, and the thread with it, exactly if the waiter pointer has been taken away. |
| WorkerThread.NestedFramesKept | include/mp/proxy-io.h:386-403 | No step touches a frame below the top, and frames go only by the return of the top function or the end of the top wait. |
| WorkerThread.FunctionsGoOn | include/mp/proxy-io.h:764-803 | A function on the stack keeps its number and gives its signal, its body and its return in this order. |
| WorkerThread.WorkerOutlived | src/mp/proxy.cpp:381-408 | The destructor finds the slot empty, no null or freed waiter is ever used, and queued or running functions hold a reference. |
| WorkerThread.JoinAdvances | src/mp/proxy.cpp:418-438 | During join() a step is possible and every step brings the worker nearer to its end, also if destruction races with its start. |
| Disconnect.Registry.AddSyncCleanup | src/mp/proxy.cpp:154-166 | The callback is listed first, under a new identity. |
| Disconnect.Registry.RemoveSyncCleanup | src/mp/proxy.cpp:168-175 | Exactly that callback leaves the list, recorded as removed. |
| Disconnect.Registry.NewClient | include/mp/proxy-io.h:508-524 | A client with a callback that detaches it. |
| Disconnect.Registry.DestroyClient | include/mp/proxy-io.h:536-567 | The client goes, and its callback too unless the connection went first. |
| Disconnect.Registry.SetThread | src/mp/proxy.cpp:327-355 | One entry for each connection and map, with a second callback if it is new; the books stay valid. |
| Disconnect.Registry.EraseThread | src/mp/proxy.cpp:357-373 | On the event loop thread the entry, its client and both callbacks go together. |
| Disconnect.Registry.RunFront | src/mp/proxy.cpp:147-151 | The first callback is spliced off and called; it may take others off the list. |
| Disconnect.Registry.DestroyConnection | src/mp/proxy.cpp:146-152 | The loop ends, and the result is the specified break of the connection. |
| Disconnect.BreakValid | src/mp/proxy.cpp:84-152 | After a disconnect every callback of the connection has run or been removed as its kind demands, never both; no map has the connection as key; surviving clients have a null connection; everything else is unchanged. |
| Disconnect.DrainBreaks | src/mp/proxy.cpp:146-152 | The same for the drain loop alone, for any mix of clients and entries. |
| Disconnect.RunFrontValid | src/mp/proxy.cpp:147-151 | Running a callback keeps the books valid and shortens the list. |
| Disconnect.NewClientValid | include/mp/proxy-io.h:508-524 | Creating a client keeps the books valid. |
| Disconnect.NewClientMakes | include/mp/proxy-io.h:508-524 | Exactly one client and one callback, in front of the list of its connection; nothing else changes. |
| Disconnect.SetThreadValid | src/mp/proxy.cpp:327-355 | Entering a thread keeps the books valid. |
| Disconnect.SetThreadMakesOnce | src/mp/proxy.cpp:327-355 | For a connection that has its entry nothing changes, so a second call changes nothing; what others have is kept in any case. |
| Disconnect.SetThreadMakes | src/mp/proxy.cpp:334-352 | The first call makes one entry, one client and two callbacks, in front of the list, that of the entry first. |
| Disconnect.DestroyClientValid | include/mp/proxy-io.h:536-567 | Destroying a client keeps the books valid. |
| Disconnect.DestroyClientTakes | include/mp/proxy-io.h:536-567 | The client goes, its callback is removed exactly if it still has a connection, and nothing else changes. |
| Disconnect.EraseThreadValid | src/mp/proxy.cpp:357-373 | Erasing an entry on the event loop thread keeps the books valid. |
| Disconnect.EraseThreadTakes | src/mp/proxy.cpp:357-373 | The entry, its client and its two callbacks go and nothing else; without an entry nothing happens. |
| Disconnect.EveryHistoryIsAccounted | src/mp/proxy.cpp:146-175 | After any history every callback ever registered is listed, or ran once, or was removed once, and only one of these; nothing refers to a connection that is gone. |
| ThreadExit.SafeIffNotInterrupted | src/mp/proxy.cpp:357-373 | Over every run of a thread that destroys its own map: no client is destroyed twice and no entry erased under the map's destructor, if and only if no connection breaks while its entry waits for its turn or for its first function. |
| ThreadExit.AccountedAtExit | include/mp/proxy-io.h:536-567 | Then, also with breaks between the two functions, each callback has run or been removed when its client is gone. |
| ThreadExit.DestroyedTwice | src/mp/proxy.cpp:336-353 | A run in which the callback of the connection destroys a client that is inside its destructor. |
| ThreadExit.DeadConnectionNeverUsed | include/mp/proxy-io.h:547-551 | In every run, also in these, no callback is taken off the list of a connection that is gone. |
| RequestThreads.ExactUnlessAddressReused | include/mp/type-context.h:127-180 | A run in which no connection is created at the address of an executing call that inserted an entry keeps the map exact throughout. |
| RequestThreads.StepExactIff | include/mp/type-context.h:158-180 | While the map has been exact, a step keeps it exact if and only if it is not the end of a call that inserted an entry and at whose address there is now the entry of another connection. |
| RequestThreads.ExactIffNoForeignEnd | include/mp/type-context.h:127-180 | Over every run, nested calls, disconnects and reused addresses included: all states hold exactly the live connections with a client-made entry or an executing call that inserted one, if and only if no such end occurs. |
| RequestThreads.ForeignEntryErased | include/mp/type-context.h:168-178 | A run in which a call erases the entry of a newer connection. |
| RequestThreads.EndErasesOnlyItsOwn | include/mp/type-context.h:141-180 | While the map has been exact, any other end of a nested call takes away no entry of an outer call or of a client call. |
| FieldList.Builder.AddField | src/mp/gen.cpp:148-190 | The table after one schema field; names and positions stay one to one. |
| FieldList.Builder.MergeName | src/mp/gen.cpp:194-205 | What one visit marks, for every field. |
| FieldList.Builder.MergeFields | src/mp/gen.cpp:192-206 | Every field is marked as has- or want-flag, optional and requested exactly as its name and the others' demand, in whatever order names are visited. |
| FieldList.CountIs | src/mp/gen.cpp:175-184 | The count of a field is its own annotation, else that of its type, else one. |
| FieldList.FlagNames | src/mp/gen.cpp:114-119 | The name of a flag is has or want and the name with its first letter made a capital. |
| ArgumentNumbering.NumberArguments | src/mp/gen.cpp:562-585 | The loop gives every kept field the numbers of the specification and counts all of them. |
| ArgumentNumbering.NumbersPartition | src/mp/gen.cpp:562-585 | The numbers are one contiguous partition: each parameter belongs to exactly one kept field. |
| ArgumentNumbering.SplitTakes | include/mp/util.h:62-80 | The recursive Split is a prefix and the rest. |
| ArgumentNumbering.ClientAgrees | include/mp/proxy-types.h:375-391 | The client's chain gives every argument field its numbers if and only if before every argument there are as many results as numbers given to other fields, and a last argument gets nothing extra. |
| ArgumentNumbering.ResultsArePlaced | include/mp/proxy.h:222-230 | If only arguments are numbered and come first, the object of the result gets the position after all parameters, which is that of the result. |
| ArgumentNumbering.ServerAgrees | include/mp/proxy-types.h:606-623 | The server's nested handlers do if and only if only arguments are numbered and they come before result and exceptions. |
| ArgumentNumbering.EverybodyAgrees | src/mp/gen.cpp:562-612 | All three divisions agree, the client's result object included, if and only if only arguments are numbered and they come first. |
| ArgumentNumbering.CleanUnlessNameShared | src/mp/gen.cpp:163-190 | No result or exception has argument numbers if and only if none shares its name with a parameter that has arguments. |
| ArgumentNumbering.UncleanIffShared | src/mp/gen.cpp:163-190 | Field by field: a result or exception has argument numbers if and only if a parameter with arguments has its name. |
| ArgumentNumbering.SchemaAgrees | src/mp/gen.cpp:540-612 | For every schema, from adding through merging and skipping to calls: the divisions agree if and only if no kept field is both a parameter with arguments and a result or exception, and arguments come first. |
| ArgumentNumbering.ParameterNamedResult | src/mp/gen.cpp:163-190 | With a parameter and a result named `result` they do not agree. |
| Integers.RoundTripIff | include/mp/type-number.h:23-34 | Among the type pairs that compile, all values arrive if and only if no sign is lost. |
| Integers.ReadIsExact | include/mp/type-number.h:64-77 | The range check rejects exactly what the local type cannot hold, with C++ conversions in the comparison. |
| Integers.LosingSignRejectsEverything | include/mp/type-number.h:64-77 | A signed type in an unsigned field: reading throws for every value built. |
| Integers.SignCanBeLost | include/mp/type-number.h:29-32 | Such a pair passes both static assertions. |
| Integers.EnumRoundTrips | include/mp/type-number.h:11-21 | Enums arrive whatever the signs of the two types. |
| Integers.Limits | include/mp/type-number.h:29-32 | The values of each type, as std::numeric_limits gives them. |
| Integers.ConvertIs | include/mp/type-number.h:11-34 | A conversion to bool gives one for all but zero; any other changes the value by a multiple of the number of values of the type. |
| Codec.RoundTrip | include/mp/proxy-types.h:212-256 | Read after build is the identity on every value of every sound type, whatever the iteration order of sets and maps. |
| Codec.RoundTripsIffSound | include/mp/type-optional.h:11-44 | Among the types that compile, exactly the sound ones round-trip. |
| Codec.LostIsLost | include/mp/type-optional.h:11-44 | For every other type, a value that does not come back. |
| Codec.LostPresence | include/mp/type-pointer.h:19-65 | A shared_ptr that is not null becomes null in a field with a has-flag. |
| Codec.LostAbsence | include/mp/type-optional.h:11-33 | An absent optional that has no place of its own for its absence does not stay absent. |
| Codec.AbsentPointerArrives | src/mp/gen.cpp:121-126 | An absent optional or shared_ptr of a string, list, set, map or struct arrives absent without a flag. |
| Codec.AbsentNumberLost | include/mp/proxy-types.h:43-51 | An absent one of a number or an enum does not. |
| Codec.FlagDecides | include/mp/proxy-types.h:43-51 | In a field with a flag an optional is read as absent exactly if the flag is off, whatever the content. |
| Codec.MergedEntries | include/mp/type-map.h:13-29 | A list of pairs with different keys makes the map it came from. |
| Codec.WhoWins | include/mp/type-map.h:59-78 | Which of several pairs with one key decides, member by member where the value is a pair. |
| FieldCodec.BuildField | include/mp/type-optional.h:11-22 | Building writes the specified field, flag included. |
| FieldCodec.BuildList | include/mp/type-vector.h:12-25 | The list has the size of the container and the visits fill all of it, in order. |
| FieldCodec.BuildOne | include/mp/type-struct.h:11-48 | The index recursion builds every member. |
| FieldCodec.ReadField | include/mp/proxy-types.h:212-216 | For every message and every destination, the destination ends up with the value the message means, or the read throws; only an element already in a map may keep its value. |
| FieldCodec.ReadOptional | include/mp/type-optional.h:24-44 | Reset, update and emplace give the same value, whatever was there. |
| FieldCodec.ReadVector | include/mp/type-vector.h:32-51 | The loop gives the list's values, whatever the vector held. |
| FieldCodec.ReadSet | include/mp/type-set.h:28-45 | The set of the list's values, duplicates merged. |
| FieldCodec.ReadMap | include/mp/type-map.h:59-78 | The map the list means, duplicates resolved as specified. |
| FieldCodec.ReadPair | include/mp/type-pair.h:25-47 | Both members, constructed together or left to an element that was there. |
| FieldCodec.ReadOne | include/mp/type-struct.h:50-82 | The index recursion reads every member over the old one, and nothing of the old value is left. |
| RemoteEquivalence.FieldsDeliver | include/mp/proxy-types.h:339-361 | The nested server handlers produce the method's own report, with final values of out-parameters even after a caught exception. |
| RemoteEquivalence.HandlersReport | include/mp/proxy-types.h:540-570 | Of several exception fields the innermost that catches is filled, and nothing if the method returned. |
| RemoteEquivalence.ReadParamsGives | include/mp/proxy-types.h:466-484 | The client's objects take exactly the final values of out-parameters. |
| RemoteEquivalence.RemoteEqualsLocal | include/mp/proxy-types.h:339-361 | Result, out-parameters and nullness are those of the direct call with out-only parameters new; an exception it throws is matched by the same declared classes, with the same values. |
| RemoteEquivalence.RemoteEqualsLocalIff | include/mp/proxy-types.h:405-484 | This holds for every method body that throws nothing undeclared in the direct call, if and only if exception fields can tell, exceptions arrive looking like themselves, and null pointers are announced. |
| RemoteEquivalence.UndeclaredFails | include/mp/proxy-types.h:700-726 | Whatever else the direct call throws is a failed call, with the caller's objects untouched. |
| RemoteEquivalence.KeepsViewIff | include/mp/proxy-types.h:556-570 | Exceptions arrive looking like themselves if and only if, of the declared classes that match one, the innermost is derived from all others, and what is thrown for it matches no further ones. |
| RemoteEquivalence.BasesFirstIff | src/mp/gen.cpp:562-612 | Without multiple inheritance: if and only if the schema lists no class before a base of it. |
| RemoteEquivalence.ThrownMatchesMore | include/mp/proxy-types.h:226-234 | A class thrown in place of a declared one, as std::runtime_error for std::exception, must match nothing more. |
| RemoteEquivalence.UnrequestedNullIsLost | include/mp/type-pointer.h:88-110 | Without a want field some method tells the difference. |
| CodecCalls.LinkIff | include/mp/proxy-types.h:212-256 | A field works for remote calls if and only if its type is sound. |
| CodecCalls.UnsetReads | include/mp/proxy-types.h:352-356 | An unset field of a sound type can be read, and reads as a new object. |
| CodecCalls.UnsetIs | include/mp/proxy-types.h:352-356 | That is zero, empty or absent, member by member in a struct. |
| CodecCalls.TellsIff | include/mp/proxy-types.h:419-430 | An exception field can tell exactly if it is a pointer without a has-flag. |
| CodecCalls.RemoteEqualsLocalIff | include/mp/proxy-types.h:540-623 | The equivalence for methods whose fields are built and read by the codecs: sound fields, exception fields that are pointers without flags, exceptions that arrive looking like themselves, null pointers announced. |
| CodecCalls.DerivedArrivesAsBase | include/mp/proxy-types.h:556-570 | Two exception fields, the derived class first: what is thrown as the derived class arrives as the base. |
| SchemaCalls.KeptFlags | src/mp/gen.cpp:192-206 | A kept field is optional, or requested, exactly if the schema has a field, or a parameter, of the derived name. |
| SchemaCalls.KeptDirections | src/mp/gen.cpp:156-163 | A kept field is a parameter exactly if the Params struct has its name, and a result exactly if the Results struct has it. |
| SchemaCalls.LinkedFrom | src/mp/gen.cpp:209-229 | Request and reply from the schema: an input exactly if the Params struct has the name, an output exactly if the Results struct has it, requested exactly if there is a want-parameter, read and written by the codec of its type with a flag exactly if there is a has-field; declared and thrown classes by name; a result exactly if a kept field is one. |
| SchemaCalls.OfKindInOrder | src/mp/gen.cpp:563-612 | Exception handlers are in the order of the fields: one with n before it is number n. |
| SchemaFields.FieldByName | src/mp/gen.cpp:148-206 | Exception, result or argument, with which count, and whether left out: all from the annotations and the names in the schema. |
| SchemaCalls.CarrierNumbered | src/mp/gen.cpp:562-612 | Parameter i of the remote call is the field whose C++ argument has number i. |
| SchemaCalls.SchemaCallIff | src/mp/gen.cpp:209-229 | From the schema, with parameters of count one or zero: all numberings agree, request and reply have the directions, codecs, flags, pointers, classes and result that the names in the schema give, and the remote call is the local call for every method body if and only if exception fields are pointers without a has-field, exceptions arrive looking like themselves, and null arguments have a want-parameter. |
| LogEscape.LogEscape | src/mp/util.cpp:95-117 | The result depends on the concatenation of the pieces alone. |
| LogEscape.EscapeIs | src/mp/util.cpp:100-108 | Two backslashes for a backslash, the byte itself from space to tilde, else a backslash and two lower-case hexadecimal digits. |
| LogEscape.LimitedFits | src/mp/util.cpp:95-117 | Printable ASCII, at most six bytes over the limit. |
| LogEscape.UniquelyDecodable | src/mp/util.cpp:100-108 | A text is the escape of another if and only if it decodes to it. |
| LogEscape.LimitedDecodes | src/mp/util.cpp:109-112 | The output decodes to the whole input if its escape is within the limit, else to a prefix followed by dots. |

## Left out

- Cap'n Proto's encoding, its RPC system and KJ promises: promises are one-shot events, the socket is a byte counter, capabilities are counts.
- `SpawnProcess`, `ExecProcess`, `WaitProcess`, `ThreadName`, logging except `LogEscape`, and the build system.
- The text `Generate` prints: only field lists, numbers and nesting are modelled. Count annotations below zero are not modelled.
- Critical sections are atomic steps; a section that waits is one step for each evaluation of its predicate. The memory model below the locks is not modelled.
- The event loop machine starts when `loop()` has begun and somebody holds a reference; a reference or a post is begun only while one is alive. `loop()` on an unused loop is not modelled.
- Functions posted to the loop that throw, and `post` called on the loop thread itself, which runs the function at once.
- The deferred onDisconnect task: the destructor of a `Connection` is entered once. Clients that own their connection (`destroy_connection`) and callbacks that add callbacks while the list is drained are not modelled.
- `ServerDestroy` and interface-proxy parameters run user code, and may wait for the loop, with the cancel lock held: in `Cancellation` a destroy request is a leaf that does not block.
- Several `ProxyServer<Thread>` objects sharing one `Waiter`, and client threads, which own their `Waiter` and are not joined.
- EventLoopProgress.EveryPostCompletes: says nothing about users who never stop: the slot is not handed out in order, so a thread may wait for it as long as others keep posting.
- Disconnect.Registry.EraseThread: is the destructor as it runs on the event loop thread, where both functions are called at once; a map destroyed by its own thread is the subject of `ThreadExit`.
- Disconnect.EraseThreadValid: likewise.
- Disconnect.EveryHistoryIsAccounted: likewise; the histories with a thread that destroys its own map, and connections breaking meanwhile, are those of `ThreadExit`.
- Whether posts after a canceled one still run: order and `assert(posted)` are claimed for those that do.
- Parameters with a count above one in `RemoteCall` and `SchemaCalls`; fields of count zero, such as a context, carry no values there.
- `Custom*` hooks, `CustomHasValue`, messages passed by type, functions and interfaces as values.
- Floating point, time, tuple and unique_ptr codecs; shared_ptr as list elements and map keys, and the sharing of its objects; null as opposed to empty Data; explicit default values in a schema.
- FieldCodec.ReadField: does not say what a destination holds after a range error; destinations are values handed in and out, so aliasing of objects is not captured.
- The text of the error that a call fails with. The hierarchy of exception classes and the conversion to a base are parameters; callers are taken to catch declared classes only.
- C++ conversions are those of two's complement targets with 32-bit int; types wider than 64 bits are not modelled.
