# Verified models of GIO's stateful cores

This Dafny project models the parts of GLib's GIO (`glib-2.76.5/gio`) that keep
state across calls, threads or processes, and proves what they promise.

| file | what it models |
|---|---|
| `Cancellable.dfy` | GCancellable: cancel, connect, disconnect, reset and the pollable descriptor, in any number of threads |
| `CancellableProgress.dfy` | that every operation on it ends |
| `CancellableSource.dfy` | the GSource of a cancellable, whose last reference may be dropped while a cancel is emitting |
| `ActionGroupExporter.dfy` | the exporter that compresses a history of action changes into one signal, and the remote mirror it keeps up to date |
| `ExporterProgress.dfy` | that a client of the exporter always catches up |
| `ContextSpecificGroup.dfy` | the start/stop worker of context-specific groups, and their queues of pending signals |
| `ConverterBuffers.dfy`, `ConverterOutputStream.dfy`, `ConverterInputStream.dfy` | the converter streams around any converter that keeps the contract of `g_converter_convert` |
| `Seekable.dfy`, `BufferedInputStream.dfy`, `BufferedOutputStream.dfy` | the buffered streams as caches over a seekable file |
| `PrimaryElection.dfy` | how processes become the primary instance of an application through the message bus |
| `ElectionProgress.dfy` | that every race for the name comes to an end |
| `TreeMagicWalk.dfy`, `TreeMagic.dfy` | the tree-magic matcher: its resumable directory walk, its forest of tests, its sorted list of types |
| `DetailedName.dfy` | printing and parsing of detailed action names |
| `ApplicationLifetime.dfy` | holds, the inactivity timer, the main loop and the busy state of an application |

Objects whose C functions update fields are classes, and their methods are proved
against what the source promises.  The protocols add a `World` of threads or
processes whose steps use the same functions that specify the methods; what is
proved there holds for every run, of any length.

`dafny verify dfyconfig.toml` checks everything; nothing is executed.

## Where the code does less than it says

For each of these there is a concrete run or input in which it fails, or a
contract that says exactly when, and a proof of when it does hold.

- A callback given to `g_cancellable_connect` is documented to be called at most
  once.  With `g_cancellable_reset` it can be called again (`Cancellable.RunTwice`);
  it is called at most once exactly as long as the flag goes up at most once while it
  is connected, not counting an emission that has yet to come to it (`Cancellable.AtMostOnceIff`).
- The dispose function of the cancellable source leaves a reference for the
  "cancelled" handler whenever a cancel is emitting, and its comment calls the
  handler guaranteed to run.  The handler takes the reference only if the emission
  was already committed to calling it: a source is finalized iff no dispose came
  while a cancel was emitting and not committed
  (`CancellableSource.FinalizedUnlessTooLate`).  The emission may not have reached the
  handler yet (`CancellableSource.ResurrectedForGood`), or be past it, when the
  handler's own reference is the last (`CancellableSource.LeakedByTheHandler`).
- A pending signal of a context-specific group that is emitted again before its turn
  goes to the end of the queue, and can be overtaken for ever
  (`ContextSpecificGroup.NeverDelivered`).  It is delivered iff at some time that it
  is in the queue, as many deliveries as there are signals up to it come before it is
  emitted again (`ContextSpecificGroup.DeliveredIff`).
- A write to a converter output stream that fails in the converter keeps the bytes
  if earlier ones were waiting, though it reports that none were accepted
  (`ConverterOutputStream.KeepsWhatItRefuses`); the field `exact` is FALSE exactly
  after such a write (`ConverterOutputStream.GConverterOutputStream.WriteInternal`).
- `g_buffered_input_stream_fill` is documented to return 0 only at the end of the
  file or for a count of 0; it also does for a full buffer
  (`BufferedInputStream.FillsNothing`), and then only
  (`BufferedInputStream.GBufferedInputStream.RealFill`).  `read_byte` reports the end
  of the file anywhere when the buffer size is 0 (`BufferedInputStream.NoNextByte`);
  `BufferedInputStream.GBufferedInputStream.ReadByte` says exactly when it does.
- A registration whose call of RequestName is cancelled or times out destroys its
  side and never releases a name that the bus granted meanwhile
  (`PrimaryElection.AbandonedRequestWins`).  Once all is delivered there is no primary
  instance then, and none can come exactly as long as that process does not leave
  the bus (`PrimaryElection.OrphanedUntilLeft`, `PrimaryElection.LeavingFreesTheName`).
  Where nobody gives up and the owner stays, every race has one winner
  (`PrimaryElection.OneWins`, `ElectionProgress.EveryRaceIsWon`).
- A matched file that cannot be enumerated ends a search of the tree-magic matcher
  before later matches are tried (`TreeMagic.HiddenByStop`).  A search succeeds iff a
  file that passes comes before any such stop (`TreeMagic.MatchesMeans`).
- `g_action_parse_detailed_name` takes empty names, names with whitespace and any text
  after a double colon, against its documentation
  (`DetailedName.ParsesMoreThanDocumented`, `DetailedName.ParsesInvalidName`);
  `DetailedName.ParsesDocumented` says exactly which of the strings that parse are documented.

## Model

| member | source | states |
|---|---|---|
| Cancellable.GCancellable.LockAndCancel | glib-2.76.5/gio/gcancellable.c:498-516 | the first section of cancel does BeginCancel to the fields, and only the caller that found the flag down emits |
| Cancellable.GCancellable.FinishCancel | glib-2.76.5/gio/gcancellable.c:521-528 | the section after the emission does EndCancel, and broadcasts iff a waiter flagged itself |
| Cancellable.GCancellable.LockAndConnect | glib-2.76.5/gio/gcancellable.c:574-586 | connect counts itself among the direct callbacks iff the flag is up |
| Cancellable.GCancellable.FinishDirect | glib-2.76.5/gio/gcancellable.c:593-600 | the section after a direct callback takes that back, and broadcasts iff a waiter flagged itself |
| Cancellable.GCancellable.TestWait | glib-2.76.5/gio/gcancellable.c:268-280 | one turn of the wait loop of reset and disconnect: it waits while an emission or a direct callback is running, and flags what it waits for |
| Cancellable.GCancellable.ClearFlag | glib-2.76.5/gio/gcancellable.c:283-287 | reset takes the flag down and acknowledges an existing wakeup |
| Cancellable.GCancellable.MakePollfd | glib-2.76.5/gio/gcancellable.c:412-427 | the wakeup is created by the first user, and signalled if the flag is already up |
| Cancellable.GCancellable.ReleaseFd | glib-2.76.5/gio/gcancellable.c:459-468 | the count goes down by one, and the wakeup is freed by the last user and by no other |
| Cancellable.StepKeepsFds | glib-2.76.5/gio/gcancellable.c:405-470 | no step of any thread breaks: the wakeup exists iff somebody holds it, and is signalled iff the flag is up |
| Cancellable.StepMoves | glib-2.76.5/gio/gcancellable.c:494-614 | every step moves at most its own thread into or out of an emission or a direct callback |
| Cancellable.StepKeepsCounts | glib-2.76.5/gio/gcancellable.c:494-614 | cancelled_running means exactly one emitting thread, cancelled_emissions counts the direct callbacks, after every step |
| Cancellable.StepKeepsSleepers | glib-2.76.5/gio/gcancellable.c:268-280 | every thread asleep in the wait loop has its waiting flag up for a condition that still holds |
| Cancellable.StepKeepsThreads | glib-2.76.5/gio/gcancellable.c:494-665 | the counts, the sleepers and the epoch are kept by every step |
| Cancellable.StepKeepsKnown | glib-2.76.5/gio/gcancellable.c:565-665 | connected, disconnected and ever-known callbacks stay apart and accounted for |
| Cancellable.StepKeepsPlaces | glib-2.76.5/gio/gcancellable.c:516-526 | an emission only ever has connected handlers still to call |
| Cancellable.StepKeepsCurrent | glib-2.76.5/gio/gcancellable.c:516-526 | the handler that an emission is in stays connected until it returns |
| Cancellable.StepKeepsWanted | glib-2.76.5/gio/gcancellable.c:647-664 | a thread blocked in disconnect wants a callback that is connected or already gone |
| Cancellable.StepDue | glib-2.76.5/gio/gcancellable.c:516-526 | a step makes a handler due exactly when a cancel begins, and serves it exactly when it is called |
| Cancellable.StepKeepsHandlerCount | glib-2.76.5/gio/gcancellable.c:494-531 | a handler has run in every emission since it was connected but the one it is still due in |
| Cancellable.StepKeepsDirects | glib-2.76.5/gio/gcancellable.c:576-600 | a direct callback belongs to one thread, and has run once iff that thread has run it |
| Cancellable.StepKeepsOwed | glib-2.76.5/gio/gcancellable.c:576-600 | a callback that connect did not register has run once or is about to be run by its connect |
| Cancellable.StepKeepsHistory | glib-2.76.5/gio/gcancellable.c:262-290 | handlers were connected in an epoch in which the flag was down |
| Cancellable.StepKeepsGone | glib-2.76.5/gio/gcancellable.c:639-665 | a disconnected callback has run in exactly the emissions between its connect and its disconnect, after every step |
| Cancellable.StepKeepsInv | glib-2.76.5/gio/gcancellable.c:262-665 | every step of every thread keeps all of the invariant |
| Cancellable.RunKeepsInv | glib-2.76.5/gio/gcancellable.c:262-665 | so does every interleaving, of any length and with any number of threads |
| Cancellable.RunCounts | glib-2.76.5/gio/gcancellable.c:494-614 | how often a callback has run, in every interleaving: once if connect ran it, else once for every time the flag went up while it was connected, disconnected callbacks included |
| Cancellable.ExactlyOnce | glib-2.76.5/gio/gcancellable.c:494-614 | without an effective reset no callback runs twice, and it has run exactly once when a cancel is complete, and never while the flag is down |
| Cancellable.GoneStaysGone | glib-2.76.5/gio/gcancellable.c:639-665 | a callback whose disconnect returned is nowhere about to be called and no step calls it |
| Cancellable.NeverAfterDisconnect | glib-2.76.5/gio/gcancellable.c:638-665 | once disconnect has returned the callback never runs again, in any continuation, also with reset and cancel |
| Cancellable.NoLostWakeup | glib-2.76.5/gio/gcancellable.c:268-280 | a sleeper always has somebody else running who must broadcast when done |
| Cancellable.EndWakesSleepers | glib-2.76.5/gio/gcancellable.c:521-600 | when the last thing to wait for ends, in that same step every sleeper is awake |
| Cancellable.SomebodyCanGoOn | glib-2.76.5/gio/gcancellable.c:494-665 | there is no deadlock: while a thread is inside an operation, some thread can take a step |
| Cancellable.FdTellsTheFlag | glib-2.76.5/gio/gcancellable.c:405-470 | in every reachable state with the mutex free: a wakeup iff fd_refcount is positive, and signalled iff cancelled |
| Cancellable.FdPerHolder | glib-2.76.5/gio/gcancellable.c:405-470 | in every interleaving fd_refcount is the number of descriptors made less those released, and the wakeup is there as long as more were made |
| Cancellable.ReturnsDone | glib-2.76.5/gio/gcancellable.c:268-287 | reset and disconnect return with nothing running: the flag is down, or the callback is gone |
| Cancellable.DisconnectIsDone | glib-2.76.5/gio/gcancellable.c:638-665 | in every interleaving a call of disconnect stays blocked until its callback is gone for good |
| Cancellable.CancelReturns | glib-2.76.5/gio/gcancellable.c:490-531 | cancel returns with the flag up; whoever put it up emits to every handler and returns when none is due any more |
| Cancellable.SpuriousWakeIsHarmless | glib-2.76.5/gio/gcancellable.c:268-280 | a thread woken without a broadcast finds that it has to wait, and nothing has changed |
| Cancellable.AtMostOnceIff | glib-2.76.5/gio/gcancellable.c:534-563 | of every callback ever given to connect, disconnected or not: the documented "at most once" holds iff the flag went up at most once while it was connected, an emission that has yet to come to it not counted |
| Cancellable.RunTwice | glib-2.76.5/gio/gcancellable.c:534-563 | a run with a reset in which a callback is called twice, against the documentation of connect |
| CancellableProgress.StepIsNearer | glib-2.76.5/gio/gcancellable.c:262-665 | a step of an operation under way brings the end of all of them nearer, whichever thread makes it |
| CancellableProgress.NoEndlessRun | glib-2.76.5/gio/gcancellable.c:262-665 | however the threads are scheduled, as long as none begins another operation and wakeups come from broadcasts, no more than a number of steps known beforehand can be taken |
| CancellableProgress.AllReturn | glib-2.76.5/gio/gcancellable.c:262-665 | from every state in the invariant there is a run of no more than that many steps after which every call of cancel, connect, disconnect and reset has returned |
| CancellableSource.GCancellableSource.LockInHandler | glib-2.76.5/gio/gcancellable.c:693-706 | under the mutex the handler either takes the reference dispose left for it, and stops, or takes one of its own |
| CancellableSource.GCancellableSource.Dispose | glib-2.76.5/gio/gcancellable.c:727-762 | dispose takes the handler away, and leaves a resurrecting reference iff a cancel is emitting |
| CancellableSource.UnrefTemporary | glib-2.76.5/gio/gcancellable.c:727-762 | a step inside the unreference moves references between the count, the thread and the resurrecting flag, and loses none |
| CancellableSource.UnrefKeepsCount | glib-2.76.5/gio/gcancellable.c:727-762 | every reference stays accounted for through the unreference |
| CancellableSource.OtherKeepsCount | glib-2.76.5/gio/gcancellable.c:687-712 | and through every other step |
| CancellableSource.UnrefKeepsFlags | glib-2.76.5/gio/gcancellable.c:727-762 | which cancel is in force, who is connected, and that it will set the ready time, after every step of an unreference |
| CancellableSource.OtherKeepsFlags | glib-2.76.5/gio/gcancellable.c:687-843 | and after every other step |
| CancellableSource.UnrefKeepsLife | glib-2.76.5/gio/gcancellable.c:727-762 | a source is finalized only when nobody is inside it, through every step of an unreference |
| CancellableSource.OtherKeepsLife | glib-2.76.5/gio/gcancellable.c:687-712 | and through every other step |
| CancellableSource.StepKeepsInv | glib-2.76.5/gio/gcancellable.c:687-843 | all of the invariant is kept by every step |
| CancellableSource.RunKeepsInv | glib-2.76.5/gio/gcancellable.c:687-843 | and by every interleaving of cancel, create, unreference and dispose |
| CancellableSource.NeverUsedAfterFinalize | glib-2.76.5/gio/gcancellable.c:687-762 | in every interleaving the handler, the disposer and every holder work on a source that is not finalized |
| CancellableSource.NeverMissesACancel | glib-2.76.5/gio/gcancellable.c:817-843 | a source never misses a cancel in force: the handler or the check after the connect has set its ready time, and it is ready until it is dispatched |
| CancellableSource.HandlerDropsOrHolds | glib-2.76.5/gio/gcancellable.c:693-711 | a handler that finds the reference left for it drops it and does nothing else; any other takes one of its own |
| CancellableSource.DispatchTakesReady | glib-2.76.5/gio/gcancellable.c:714-723 | after a dispatch the source is not dispatched again until it is told of a cancel again |
| CancellableSource.ResetStartsOver | glib-2.76.5/gio/gcancellable.c:283-287 | after a reset the next cancel runs from the start, and a source created in between is not made ready |
| CancellableSource.HoldersCounted | glib-2.76.5/gio/gcancellable.c:727-762 | the holders are the creator and those who took a reference, less those who gave one back |
| CancellableSource.AliveForHolders | glib-2.76.5/gio/gcancellable.c:727-762 | so no source is finalized before everybody has given back what he holds |
| CancellableSource.StepStrands | glib-2.76.5/gio/gcancellable.c:727-762 | the reference that dispose leaves is stranded exactly by a dispose while a cancel is emitting that is not committed to the handler |
| CancellableSource.FinalizedUnlessTooLate | glib-2.76.5/gio/gcancellable.c:727-762 | in every run that drops all references and leaves nobody inside, the source is finalized iff no dispose of that run came while a cancel was emitting and not committed to the handler |
| CancellableSource.ReachDisposed | glib-2.76.5/gio/gcancellable.c:727-762 | a run to a dispose during an emission that has not committed to the handler |
| CancellableSource.ResurrectedForGood | glib-2.76.5/gio/gcancellable.c:747-756 | and on from there, without the handler: nobody picks the reference up, though the comment in dispose calls the handler guaranteed to run |
| CancellableSource.LeakedByTheHandler | glib-2.76.5/gio/gcancellable.c:702-756 | another such run, in which the handler did run: its own last reference disposes of the source after it has looked for the one left behind |
| CancellableSource.OrphanForever | glib-2.76.5/gio/gcancellable.c:747-756 | such a source is not finalized in any continuation |
| ActionGroupExporter.DescriptionRoundTrip | glib-2.76.5/gio/gactiongroupexporter.c:49-81 | an action read back from its description is the action |
| ActionGroupExporter.Exporter.SetEvents | glib-2.76.5/gio/gactiongroupexporter.c:231-264 | the table has the mask, no name with an empty mask, and the idle source is there iff the table is not empty |
| ActionGroupExporter.Exporter.ActionAdded | glib-2.76.5/gio/gactiongroupexporter.c:266-285 | an addition adds its bit and keeps a removal before it |
| ActionGroupExporter.Exporter.ActionRemoved | glib-2.76.5/gio/gactiongroupexporter.c:287-318 | a removal cancels an addition not yet reported, and else replaces every other bit |
| ActionGroupExporter.Exporter.ActionStateChanged | glib-2.76.5/gio/gactiongroupexporter.c:320-345 | a state change is recorded unless the addition will report it |
| ActionGroupExporter.Exporter.ActionEnabledChanged | glib-2.76.5/gio/gactiongroupexporter.c:347-366 | an enabled change likewise |
| ActionGroupExporter.Exporter.DispatchEvents | glib-2.76.5/gio/gactiongroupexporter.c:141-211 | a dispatch emits one signal that reports the table with the values of now, and empties it |
| ActionGroupExporter.Exporter.BuildMessage | glib-2.76.5/gio/gactiongroupexporter.c:153-197 | the loop over the table, in any order, lists each kind of change exactly once for each name that has it |
| ActionGroupExporter.Exporter.FlushQueue | glib-2.76.5/gio/gactiongroupexporter.c:213-222 | a flush dispatches iff something is pending |
| ActionGroupExporter.Exporter.DescribeAll | glib-2.76.5/gio/gactiongroupexporter.c:410-428 | the answer to DescribeAll lists every action of the group once, after a flush |
| ActionGroupExporter.Exporter.DescribeOne | glib-2.76.5/gio/gactiongroupexporter.c:392-408 | the answer to Describe is of the action asked for, and none for an unknown name |
| ActionGroupExporter.BuiltLists | glib-2.76.5/gio/gactiongroupexporter.c:153-197 | entries built in any order of the names are exactly the changes of one kind |
| ActionGroupExporter.AllBuilt | glib-2.76.5/gio/gactiongroupexporter.c:153-197 | the four parts together report the table |
| ActionGroupExporter.ReportSays | glib-2.76.5/gio/gactiongroupexporter.c:153-197 | name by name: a signal lists what was recorded of it and nothing else, with the value the action has now |
| ActionGroupExporter.AnswerSays | glib-2.76.5/gio/gactiongroupexporter.c:410-428 | name by name: an answer describes every action of the group with its enabled flag, parameter type and state |
| ActionGroupExporter.DispatchAssertionsHold | glib-2.76.5/gio/gactiongroupexporter.c:164-196 | every assertion before a dispatch holds for masks in the invariant |
| ActionGroupExporter.DeltaIsExact | glib-2.76.5/gio/gactiongroupexporter.c:141-211 | one Changed, in any order of its parts, makes the mirror equal to the group |
| ActionGroupExporter.NoEmptyChanged | glib-2.76.5/gio/gactiongroupexporter.c:199-210 | no empty Changed is sent |
| ActionGroupExporter.OtherNames | glib-2.76.5/gio/gactiongroupexporter.c:231-264 | a handler for one name leaves what holds of every other name |
| ActionGroupExporter.ChangeKeepsInv | glib-2.76.5/gio/gactiongroupexporter.c:266-366 | every handler finds its assertion true, and keeps the mask classes: added, removed, both, or changes of a name both sides have |
| ActionGroupExporter.DispatchKeepsInv | glib-2.76.5/gio/gactiongroupexporter.c:141-211 | every dispatch finds its assertion true, sends something, and leaves mirror and group equal |
| ActionGroupExporter.StepKeepsInv | glib-2.76.5/gio/gactiongroupexporter.c:141-428 | every change, dispatch, answer and delivery keeps the invariant |
| ActionGroupExporter.ChangesGroup | glib-2.76.5/gio/gactiongroupexporter.c:266-366 | what a change does to the group, and that dispatching, answering and receiving do nothing to it |
| ActionGroupExporter.QuietMeansEqual | glib-2.76.5/gio/gactiongroupexporter.c:231-264 | names without a pending mask already agree |
| ActionGroupExporter.RunKeepsInv | glib-2.76.5/gio/gactiongroupexporter.c:141-428 | so does every history |
| ActionGroupExporter.MirrorCatchesUp | glib-2.76.5/gio/gactiongroupexporter.c:141-428 | after any history, a client that began with a DescribeAll answer and got every packet has exactly the group once nothing is pending |
| ExporterProgress.ClientCatchesUp | glib-2.76.5/gio/gactiongroupexporter.c:141-428 | from every state in the invariant a run of at most one dispatch, at most one answer and the packets under way makes the client hold the group |
| ExporterProgress.EveryOrderCatchesUp | glib-2.76.5/gio/gactiongroupexporter.c:141-428 | every order of dispatching, answering and receiving goes on for equally many steps; at the end of those, and not before, all is asked for, sent and received, and the client holds the group |
| ActionGroupExporter.RemoteActionGroup.ChangedSignal | glib-2.76.5/gio/gdbusactiongroup.c:140-246 | the mirror applies removals, enabled changes, state changes of the same type and additions, in this order, and nothing before its first answer |
| ActionGroupExporter.RemoteActionGroup.DescribeAllDone | glib-2.76.5/gio/gdbusactiongroup.c:249-281 | the first answer makes the mirror the group it lists |
| ActionGroupExporter.EnabledAt | glib-2.76.5/gio/gdbusactiongroup.c:176-196 | what the enabled changes do to each action |
| ActionGroupExporter.StatesAt | glib-2.76.5/gio/gdbusactiongroup.c:198-223 | what the state changes do to each action |
| ActionGroupExporter.AdditionsAt | glib-2.76.5/gio/gdbusactiongroup.c:225-244 | what the additions do to the table |
| ActionGroupExporter.ReadGroupAt | glib-2.76.5/gio/gdbusactiongroup.c:263-278 | what an answer is read as |
| ActionGroupExporter.ViewAppend | glib-2.76.5/gio/gdbusactiongroup.c:140-281 | packets are applied in the order sent |
| ActionGroupExporter.AnswerIsGroup | glib-2.76.5/gio/gdbusactiongroup.c:249-281 | an answer sent while nothing is pending is read as the group |
| ContextSpecificGroup.ContextSpecificSource.PopPending | glib-2.76.5/gio/gcontextspecificgroup.c:46-54 | dispatch takes the head of a queue that is not empty, and the ready time is 0 iff something is left |
| ContextSpecificGroup.ContextSpecificSource.PushPending | glib-2.76.5/gio/gcontextspecificgroup.c:264-271 | emit moves the id to the end of the queue and makes the source ready |
| ContextSpecificGroup.WithoutKeeps | glib-2.76.5/gio/gcontextspecificgroup.c:266-267 | taking an id out keeps the others, each once, in their order |
| ContextSpecificGroup.EmitKeepsOwed | glib-2.76.5/gio/gcontextspecificgroup.c:245-276 | an emit keeps the queue the list of signals owed, in order of their latest emits |
| ContextSpecificGroup.DeliverKeepsOwed | glib-2.76.5/gio/gcontextspecificgroup.c:38-59 | so does a delivery |
| ContextSpecificGroup.QueueIsOwed | glib-2.76.5/gio/gcontextspecificgroup.c:38-59 | after any history the queue holds exactly the ids emitted since their last delivery, each once, in order of their latest emits |
| ContextSpecificGroup.MovesUp | glib-2.76.5/gio/gcontextspecificgroup.c:38-59 | while it is not emitted again, every delivery brings an id one place nearer to the head |
| ContextSpecificGroup.DeliveredInTime | glib-2.76.5/gio/gcontextspecificgroup.c:38-59 | while it is not emitted again, it is delivered within as many deliveries as there are ids up to it |
| ContextSpecificGroup.DeliveredIff | glib-2.76.5/gio/gcontextspecificgroup.c:38-59 | in any history: an id is delivered iff at some time that it is in the queue there come more deliveries than there are ids before it, ahead of its next emit |
| ContextSpecificGroup.NeverDelivered | glib-2.76.5/gio/gcontextspecificgroup.c:245-276 | histories of any length in which no such time comes: an id emitted again and again is overtaken for ever |
| ContextSpecificGroup.GContextSpecificGroup.RequestState | glib-2.76.5/gio/gcontextspecificgroup.c:130-168 | a request takes back a transition that is under way, or starts one |
| ContextSpecificGroup.GContextSpecificGroup.Get | glib-2.76.5/gio/gcontextspecificgroup.c:183-209 | get makes the instance of a context once and requests the start |
| ContextSpecificGroup.GContextSpecificGroup.Remove | glib-2.76.5/gio/gcontextspecificgroup.c:212-243 | remove takes it out of the table and requests the stop when it was the last |
| ContextSpecificGroup.GContextSpecificGroup.ChangeState | glib-2.76.5/gio/gcontextspecificgroup.c:96-116 | the worker calls the requested function iff a transition is still wanted |
| ContextSpecificGroup.GContextSpecificGroup.EmitSignal | glib-2.76.5/gio/gcontextspecificgroup.c:245-276 | every instance in the table gets the signal at the end of its queue, and no other |
| ContextSpecificGroup.StepKeepsInv | glib-2.76.5/gio/gcontextspecificgroup.c:96-243 | every step keeps: requested iff the table is not empty, a transition wanted iff a function is set and the worker called, calls alternate, sleepers wait for a transition |
| ContextSpecificGroup.RunKeepsInv | glib-2.76.5/gio/gcontextspecificgroup.c:96-243 | so does every interleaving of getters, removers and the worker |
| ContextSpecificGroup.StartsAndStopsAlternate | glib-2.76.5/gio/gcontextspecificgroup.c:96-243 | start and stop calls strictly alternate beginning with start, and the worker never calls a NULL function |
| ContextSpecificGroup.GetReturnsStarted | glib-2.76.5/gio/gcontextspecificgroup.c:156-167 | every get that returns finds the group started |
| ContextSpecificGroup.SleeperIsServed | glib-2.76.5/gio/gcontextspecificgroup.c:97-168 | a sleeper has a worker call queued, and the next one runs start and wakes everybody |
| ContextSpecificGroup.SpuriousWakeIsHarmless | glib-2.76.5/gio/gcontextspecificgroup.c:155-168 | a thread woken without a broadcast finds that it has to wait, and nothing has changed |
| ContextSpecificGroup.ServedReturns | glib-2.76.5/gio/gcontextspecificgroup.c:155-168 | whatever the other threads do after that, a woken thread finds the group started when it tests again, and returns |
| ContextSpecificGroup.NoEndlessWait | glib-2.76.5/gio/gcontextspecificgroup.c:97-168 | however the worker and the blocked threads are scheduled, they take no more than a number of steps known beforehand |
| ContextSpecificGroup.SomebodyCanGoOn | glib-2.76.5/gio/gcontextspecificgroup.c:97-168 | as long as a thread is blocked, it returns at its next test or the worker can run |
| ContextSpecificGroup.AllReturn | glib-2.76.5/gio/gcontextspecificgroup.c:97-168 | so every blocked get returns: in every state in the invariant, after at most the queued worker calls and one test for each thread no thread is blocked |
| ContextSpecificGroup.WorkerCatchesUp | glib-2.76.5/gio/gcontextspecificgroup.c:96-116 | running the worker queue empty makes the requested state effective with at most one call |
| ConverterBuffers.Buffer.Consumed | glib-2.76.5/gio/gconverteroutputstream.c:269-276 | bytes are dropped from the front; an empty buffer starts at 0 |
| ConverterBuffers.Buffer.Compact | glib-2.76.5/gio/gconverteroutputstream.c:278-289 | compacting keeps the bytes |
| ConverterBuffers.Buffer.Grow | glib-2.76.5/gio/gconverteroutputstream.c:291-316 | growing doubles the size and keeps the bytes |
| ConverterBuffers.Buffer.EnsureSpace | glib-2.76.5/gio/gconverteroutputstream.c:318-350 | there is room for so many bytes, those in use included, and they are kept; asking for more than the size makes more room |
| ConverterBuffers.Buffer.Append | glib-2.76.5/gio/gconverteroutputstream.c:352-361 | appending appends |
| ConverterBuffers.ConvertInto | glib-2.76.5/gio/gconverteroutputstream.c:452-486 | a turn of a conversion loop moves bytes from input to buffer, or makes more room, and comes nearer to its end |
| ConverterBuffers.Buffer.Take | glib-2.76.5/gio/gconverterinputstream.c:262-271 | the first bytes are read and gone |
| ConverterBuffers.Converter.Convert | glib-2.76.5/gio/gconverter.c:54-156 | the contract of a converter: what it may read, write and answer, with NO_SPACE and CONVERTED making progress |
| ConverterBuffers.Sink.WriteAll | glib-2.76.5/gio/gpollableutils.c:300-337 | a prefix is written, all of it on success |
| ConverterBuffers.Source.Read | glib-2.76.5/gio/gpollableutils.c:196-218 | some next bytes are read, none only at the end |
| ConverterOutputStream.GConverterOutputStream.FlushBuffer | glib-2.76.5/gio/gconverteroutputstream.c:364-394 | TRUE iff nothing converted is left; a failed write keeps the rest |
| ConverterOutputStream.GConverterOutputStream.ConvertOnce | glib-2.76.5/gio/gconverteroutputstream.c:448-486 | one turn conserves what was consumed and produced |
| ConverterOutputStream.GConverterOutputStream.ConvertLoop | glib-2.76.5/gio/gconverteroutputstream.c:442-514 | the loop of write ends, and consumed exactly the bytes it says; it asks without flags |
| ConverterOutputStream.GConverterOutputStream.ConvertDirect | glib-2.76.5/gio/gconverteroutputstream.c:435-522 | a write with nothing waiting keeps exactly the bytes it reports, all of them on PARTIAL_INPUT |
| ConverterOutputStream.GConverterOutputStream.ConvertQueued | glib-2.76.5/gio/gconverteroutputstream.c:428-520 | a write with bytes waiting keeps all its bytes behind them |
| ConverterOutputStream.GConverterOutputStream.ConvertSome | glib-2.76.5/gio/gconverteroutputstream.c:427-522 | both together, and what they do when the next answer of the converter is PARTIAL_INPUT or an error |
| ConverterOutputStream.GConverterOutputStream.WriteOn | glib-2.76.5/gio/gconverteroutputstream.c:427-531 | so does the write from there on; the ledger is off from the first write that fails in the converter with bytes waiting |
| ConverterOutputStream.GConverterOutputStream.WriteInternal | glib-2.76.5/gio/gconverteroutputstream.c:397-531 | conservation: bytes accepted are those consumed and those waiting, bytes produced are those written and those waiting; fewer bytes than given only when finished or stopped by the converter after some; a failed write is the base stream's or the converter's, and the ledger is off exactly when the latter keeps bytes |
| ConverterOutputStream.GConverterOutputStream.ConvertWaiting | glib-2.76.5/gio/gconverteroutputstream.c:574-619 | one turn of the loop of flush conserves |
| ConverterOutputStream.GConverterOutputStream.FlushLoop | glib-2.76.5/gio/gconverteroutputstream.c:570-626 | the loop of flush ends, with nothing waiting or a finished converter; it asks with INPUT_AT_END when closing and with FLUSH when not |
| ConverterOutputStream.GConverterOutputStream.Flush | glib-2.76.5/gio/gconverteroutputstream.c:543-633 | TRUE only when all that was produced is written, and all that was accepted is consumed unless the converter finished first |
| ConverterOutputStream.KeepsWhatItRefuses | glib-2.76.5/gio/gconverteroutputstream.c:428-513 | two writes to a new stream, of which the second reports that its byte was not accepted though it is kept |
| ConverterInputStream.GConverterInputStream.FillInputBuffer | glib-2.76.5/gio/gconverterinputstream.c:347-377 | bytes read from the base stream wait to be converted; 0 only at its end |
| ConverterInputStream.GConverterInputStream.ConvertDirect | glib-2.76.5/gio/gconverterinputstream.c:433-466 | the try straight into the caller's buffer conserves, and asks with INPUT_AT_END iff the base stream is at its end |
| ConverterInputStream.GConverterInputStream.ConvertOnce | glib-2.76.5/gio/gconverterinputstream.c:492-506 | one turn into the own buffer conserves, and asks with the same flag |
| ConverterInputStream.GConverterInputStream.NeedMoreInput | glib-2.76.5/gio/gconverterinputstream.c:525-552 | more input is read, or the end of the input found |
| ConverterInputStream.GConverterInputStream.Turn | glib-2.76.5/gio/gconverterinputstream.c:488-570 | a turn delivers, ends, fails, or comes closer in the order of the measures |
| ConverterInputStream.GConverterInputStream.ConvertLoop | glib-2.76.5/gio/gconverterinputstream.c:488-570 | the loop ends, for every finite base stream and converter that keeps its contract |
| ConverterInputStream.GConverterInputStream.Deliver | glib-2.76.5/gio/gconverterinputstream.c:515-520 | delivered bytes are the next produced |
| ConverterInputStream.GConverterInputStream.ReadAhead | glib-2.76.5/gio/gconverterinputstream.c:420-431 | input is read only when there is none |
| ConverterInputStream.GConverterInputStream.ReadFresh | glib-2.76.5/gio/gconverterinputstream.c:420-570 | a read with nothing converted waiting: its end, its failures and what it delivers |
| ConverterInputStream.GConverterInputStream.ReadThroughBuffer | glib-2.76.5/gio/gconverterinputstream.c:480-570 | a read through the own buffer returns 0 only when finished |
| ConverterInputStream.GConverterInputStream.ReadInternal | glib-2.76.5/gio/gconverterinputstream.c:380-573 | bytes read are those consumed and those waiting, bytes produced are those delivered and those waiting, on every path; 0 only after FINISHED with all delivered, and from then on; it fails only with an error of the base stream or one of the converter that more input cannot mend |
| BufferedInputStream.Advance | glib-2.76.5/gio/gbufferedinputstream.c:685-839 | a read or skip moves the position by what it gives, gives no more than the file has, 0 only at its end or for 0, and fails only when the file fails and nothing could be given |
| BufferedInputStream.GBufferedInputStream.SetBufferSize | glib-2.76.5/gio/gbufferedinputstream.c:203-242 | resizing keeps the position and the bytes, and never cuts those |
| BufferedInputStream.GBufferedInputStream.CompactBuffer | glib-2.76.5/gio/gbufferedinputstream.c:631-645 | compacting keeps them too |
| BufferedInputStream.GBufferedInputStream.RealFill | glib-2.76.5/gio/gbufferedinputstream.c:647-683 | a fill keeps the position; 0 at the end of the file, for 0 and, though not documented, for a full buffer |
| BufferedInputStream.GBufferedInputStream.Read | glib-2.76.5/gio/gbufferedinputstream.c:761-839 | a read gives the bytes of the file at the position and leaves the state of Advance |
| BufferedInputStream.GBufferedInputStream.Skip | glib-2.76.5/gio/gbufferedinputstream.c:685-759 | a skip leaves the same state |
| BufferedInputStream.GBufferedInputStream.SkipAsync | glib-2.76.5/gio/gbufferedinputstream.c:1198-1267 | the first half of an asynchronous skip |
| BufferedInputStream.GBufferedInputStream.LargeSkipCallback | glib-2.76.5/gio/gbufferedinputstream.c:1120-1151 | its end when it bypasses the buffer |
| BufferedInputStream.GBufferedInputStream.SkipFillBufferCallback | glib-2.76.5/gio/gbufferedinputstream.c:1153-1196 | its end when it refills the buffer |
| BufferedInputStream.GBufferedInputStream.SkipAsyncToFinish | glib-2.76.5/gio/gbufferedinputstream.c:1120-1267 | a whole asynchronous skip gives the answer of skip and leaves the same state |
| BufferedInputStream.GBufferedInputStream.ReadByte | glib-2.76.5/gio/gbufferedinputstream.c:966-1020 | the byte at the position; -1 exactly at the end, on failure, or with a buffer of length 0 anywhere |
| BufferedInputStream.GBufferedInputStream.Peek | glib-2.76.5/gio/gbufferedinputstream.c:579-601 | the bytes of the file from the position on, as far as the buffer has them |
| BufferedInputStream.GBufferedInputStream.Tell | glib-2.76.5/gio/gbufferedinputstream.c:841-863 | the position an unbuffered stream would be at |
| BufferedInputStream.GBufferedInputStream.Seek | glib-2.76.5/gio/gbufferedinputstream.c:874-923 | a seek leads where it leads without a buffer, also when it stays inside; a failed one changes nothing |
| BufferedInputStream.FillsNothing | glib-2.76.5/gio/gbufferedinputstream.c:647-683 | a second fill of a buffer of one byte returns 0, with bytes left in any file of two or more |
| BufferedInputStream.NoNextByte | glib-2.76.5/gio/gbufferedinputstream.c:966-1020 | with a buffer of length 0 read_byte finds no byte, with all of any file left |
| BufferedInputStream.Given | glib-2.76.5/gio/gbufferedinputstream.c:671-678 | a base file gives 0 exactly for a request of 0 or at its end, and -1 exactly where it fails |
| BufferedOutputStream.OverlayAt | glib-2.76.5/gio/gbufferedoutputstream.c:407-438 | the plain file after a write at an offset, byte by byte: what was written, what was there, and zeros between the end and the offset |
| BufferedOutputStream.OverlaySplit | glib-2.76.5/gio/gbufferedoutputstream.c:407-438 | two writes in a row are one write |
| BufferedOutputStream.OverlayRest | glib-2.76.5/gio/gbufferedoutputstream.c:407-438 | so a write in part and the rest of it are one write |
| BufferedOutputStream.TruncatedAt | glib-2.76.5/gio/gbufferedoutputstream.c:598-624 | the plain file after a truncation, byte by byte |
| BufferedOutputStream.GBufferedOutputStream.SetBufferSize | glib-2.76.5/gio/gbufferedoutputstream.c:197-230 | resizing keeps the buffered bytes and never cuts them |
| BufferedOutputStream.GBufferedOutputStream.FlushBuffer | glib-2.76.5/gio/gbufferedoutputstream.c:407-438 | a flush, in part or whole, changes neither the plain file nor the position |
| BufferedOutputStream.GBufferedOutputStream.Append | glib-2.76.5/gio/gbufferedoutputstream.c:474-476 | bytes put behind the buffer are written to the plain file |
| BufferedOutputStream.GBufferedOutputStream.Write | glib-2.76.5/gio/gbufferedoutputstream.c:441-479 | accepted bytes are written to the plain file at the position; how many there are; none only for none or a buffer of length 0 |
| BufferedOutputStream.GBufferedOutputStream.Flush | glib-2.76.5/gio/gbufferedoutputstream.c:481-501 | the base file becomes the plain file once the buffer is out |
| BufferedOutputStream.GBufferedOutputStream.Tell | glib-2.76.5/gio/gbufferedoutputstream.c:528-548 | the position an unbuffered stream would be at |
| BufferedOutputStream.GBufferedOutputStream.Seek | glib-2.76.5/gio/gbufferedoutputstream.c:559-587 | a seek leads where it leads without a buffer and keeps the plain file |
| BufferedOutputStream.GBufferedOutputStream.Truncate | glib-2.76.5/gio/gbufferedoutputstream.c:598-624 | the plain file is truncated, or nothing changes |
| PrimaryElection.GApplicationImpl.StopPrimary | glib-2.76.5/gio/gapplicationimpl-dbus.c:543-588 | everything held on the connection is given back, and the name iff this was the primary instance |
| PrimaryElection.GApplicationImpl.NameLost | glib-2.76.5/gio/gapplicationimpl-dbus.c:361-376 | a lost name is not given back |
| PrimaryElection.GApplicationImpl.SetUpService | glib-2.76.5/gio/gapplicationimpl-dbus.c:441-470 | each step of the setup is remembered, also when a later one fails |
| PrimaryElection.GApplicationImpl.AttemptPrimary | glib-2.76.5/gio/gapplicationimpl-dbus.c:387-534 | primary iff everything was set up and the answer is not EXISTS; subscribed iff it may be replaced; RequestName is sent with the replacement flags of the application |
| PrimaryElection.GApplicationImpl.Register | glib-2.76.5/gio/gapplicationimpl-dbus.c:614-694 | which registrations end as primary, remote or standalone; a failed or remote one leaves every id 0 and nothing held; RequestName is sent iff the setup worked, ReleaseName never; its subscription and primary flag end as those of a process of the race |
| PrimaryElection.RequestedKeepsInv | glib-2.76.5/gio/gapplicationimpl-dbus.c:487-532 | the bus keeps the invariant when it grants, refuses, replaces or takes a name back |
| PrimaryElection.StepKeepsInv | glib-2.76.5/gio/gapplicationimpl-dbus.c:361-694 | every step of a process and of the bus keeps the invariant, a process that leaves the bus included |
| PrimaryElection.RunKeepsInv | glib-2.76.5/gio/gapplicationimpl-dbus.c:361-694 | so does every run, with any number of processes |
| PrimaryElection.Election | glib-2.76.5/gio/gapplicationimpl-dbus.c:361-694 | in every run, with processes that stop, give up or leave: a primary owns the name or has an undelivered NameLost; an owner is primary, about to be, or releasing, iff it did not abandon its request; at most one primary with nothing left to deliver |
| PrimaryElection.SettledPrimary | glib-2.76.5/gio/gapplicationimpl-dbus.c:361-694 | when all is delivered, primary means owner of a request not abandoned |
| PrimaryElection.OneWins | glib-2.76.5/gio/gapplicationimpl-dbus.c:387-534 | a race in which nobody gives up on a request and the owner neither stops nor leaves has exactly one winner |
| PrimaryElection.Takeover | glib-2.76.5/gio/gapplicationimpl-dbus.c:487-532 | the bus takes a request: a free name is granted; an owner that allows replacement loses it to a process with the replace flag, and is told; any other owner stays, and the process is refused |
| PrimaryElection.TakeoverCompletes | glib-2.76.5/gio/gapplicationimpl-dbus.c:361-376 | when both have heard of it the one is the primary instance, and the other is not and releases nothing |
| PrimaryElection.ReleaseTaken | glib-2.76.5/gio/gapplicationimpl-dbus.c:577-587 | a release by the owner frees the name, and by anybody else changes nothing |
| PrimaryElection.StoppingFreesTheName | glib-2.76.5/gio/gapplicationimpl-dbus.c:577-587 | a primary instance that stops is none at once, and the name is free when the bus hears of it |
| PrimaryElection.OrphanedUntilLeft | glib-2.76.5/gio/gapplicationimpl-dbus.c:508-518 | a name granted to an abandoned request that allows no replacement is lost to everybody exactly as long as the process that has it does not leave the bus |
| PrimaryElection.LeavingFreesTheName | glib-2.76.5/gio/gapplicationimpl-dbus.c:508-518 | when it leaves, the next request that the bus takes gets the name |
| PrimaryElection.AbandonedRequestWins | glib-2.76.5/gio/gapplicationimpl-dbus.c:508-518 | a run in which a process gives up on a request that the bus has granted, another is refused, and no primary instance is left |
| ElectionProgress.StepIsNearer | glib-2.76.5/gio/gapplicationimpl-dbus.c:361-534 | whatever the bus takes or a process receives, fewer messages are left, those it gives rise to included |
| ElectionProgress.NoEndlessDelivery | glib-2.76.5/gio/gapplicationimpl-dbus.c:361-534 | in whatever order messages are delivered, no more than a number known beforehand are |
| ElectionProgress.AllDelivered | glib-2.76.5/gio/gapplicationimpl-dbus.c:361-534 | from every state in the invariant all messages can be delivered, after which nobody waits |
| ElectionProgress.EveryRaceIsWon | glib-2.76.5/gio/gapplicationimpl-dbus.c:387-534 | wherever a race stands in which nobody gave up and the owner stayed, every way of delivering what is under way makes exactly one process the primary instance |
| ElectionProgress.EveryRaceEnds | glib-2.76.5/gio/gapplicationimpl-dbus.c:361-534 | and from wherever a race stands there is one |
| TreeMagicWalk.LeadsOn | glib-2.76.5/gio/gcontenttype.c:1299-1345 | a matched child of a matched directory leads on |
| TreeMagicWalk.WalkGives | glib-2.76.5/gio/gcontenttype.c:1299-1345 | the depth-first walk gives exactly the full-length paths whose names are listed and match |
| TreeMagicWalk.WalkGivesOnce | glib-2.76.5/gio/gcontenttype.c:1299-1345 | each of them once |
| TreeMagicWalk.WalkStops | glib-2.76.5/gio/gcontenttype.c:1312-1324 | it has a stop exactly where a matched file that is not the last of its path cannot be enumerated |
| TreeMagicWalk.WholeWalk | glib-2.76.5/gio/gcontenttype.c:1299-1345 | all three of the walk from the root; it has no stop iff every matched file on the way can be enumerated |
| TreeMagicWalk.WalkByLevels | glib-2.76.5/gio/gcontenttype.c:1299-1345 | the depth-first walk is the expansion of one level after the other |
| TreeMagicWalk.Enumerator.NextInLevel | glib-2.76.5/gio/gcontenttype.c:1328-1338 | the next matching name of an open directory |
| TreeMagicWalk.Enumerator.OpenNext | glib-2.76.5/gio/gcontenttype.c:1309-1326 | the next directory of a level, or a stop |
| TreeMagicWalk.Enumerator.NextMatchRecurse | glib-2.76.5/gio/gcontenttype.c:1299-1345 | each call gives the next of what is left of the walk down to its level |
| TreeMagicWalk.Enumerator.EnumeratorNext | glib-2.76.5/gio/gcontenttype.c:1347-1351 | each call gives the next of the walk, None at a stop, and None for ever at the end |
| TreeMagicWalk.Enumerator.constructor | glib-2.76.5/gio/gcontenttype.c:1353-1389 | a new enumerator has the whole walk before it |
| TreeMagic.InsertedFits | glib-2.76.5/gio/gcontenttype.c:1123-1158 | a matchlet finds its place iff it is not too deep for the last branch; a negative depth counts as 1 |
| TreeMagic.InsertedListing | glib-2.76.5/gio/gcontenttype.c:1123-1158 | and then the preorder listing has it at the end, at its depth |
| TreeMagic.TreeMatch.InsertMatchlet | glib-2.76.5/gio/gcontenttype.c:1123-1158 | both of one insertion; a matchlet without a place changes nothing |
| TreeMagic.TreeMatch.InsertAll | glib-2.76.5/gio/gcontenttype.c:1180-1201 | the listing of the forest is exactly the lines that found a place |
| TreeMagic.StepwiseIsKept | glib-2.76.5/gio/gcontenttype.c:1123-1158 | nothing is dropped or moved iff the depths start at 0, are not negative and never rise by more than one |
| TreeMagic.FindsAt | glib-2.76.5/gio/gcontenttype.c:1424-1496 | a walk finds a file iff one that passes comes before any stop |
| TreeMagic.MatchesMeans | glib-2.76.5/gio/gcontenttype.c:1413-1513 | a matchlet matches iff a file that passes comes in the walk before any stop and, if it has sub-matchlets, one of them matches; such a file is at the end of a path, and where the walk has no stop any path to a file that passes will do |
| TreeMagic.MatchHasFile | glib-2.76.5/gio/gcontenttype.c:1413-1496 | a matchlet that matches has a file at the end of its path that can be queried and has the type, the executable bit, the listing and the content type it asks for, each as on disk |
| TreeMagic.FileIsEnough | glib-2.76.5/gio/gcontenttype.c:1413-1513 | one such file is enough, where every directory on the way can be enumerated |
| TreeMagic.EveryTestIsNeeded | glib-2.76.5/gio/gcontenttype.c:1453-1490 | a file that fails any one of the tests is not enough |
| TreeMagic.HiddenByStop | glib-2.76.5/gio/gcontenttype.c:1312-1324 | a file that a stop hides |
| TreeMagic.MatchletMatch | glib-2.76.5/gio/gcontenttype.c:1413-1513 | the loop over the enumerator computes Matches, of which the three before this say what it means on disk |
| TreeMagic.MatchMatch | glib-2.76.5/gio/gcontenttype.c:1515-1531 | a type is added iff one of its matchlets matches |
| TreeMagic.GuessForTree | glib-2.76.5/gio/gcontenttype.c:1555-1577 | the guessed types are those that match, each once, in order of priority |
| TreeMagic.InsertSorted | glib-2.76.5/glib/glist.c:1097-1147 | the list stays sorted by priority, and of equals the newest comes first |
| DetailedName.NameIsValid | glib-2.76.5/gio/gaction.c:422-435 | the loop accepts exactly the names of alphanumerics, dots and dashes, not empty |
| DetailedName.BaseLength | glib-2.76.5/gio/gaction.c:501-503 | the name ends at the first separator |
| DetailedName.PrintDetailedName | glib-2.76.5/gio/gaction.c:571-596 | no target prints the name; a string that is a valid name prints after a double colon; every other target prints its text in parentheses |
| DetailedName.ParsesName | glib-2.76.5/gio/gaction.c:529-536 | a name alone parses to itself |
| DetailedName.ParsesString | glib-2.76.5/gio/gaction.c:511-516 | a string target parses to itself |
| DetailedName.ParsesValue | glib-2.76.5/gio/gaction.c:518-527 | another target parses to what its text parses to |
| DetailedName.ParseMeans | glib-2.76.5/gio/gaction.c:480-549 | exactly what parses to a name and target |
| DetailedName.RoundTrip | glib-2.76.5/gio/gaction.c:551-596 | parsing what is printed gives name and target back, for every valid name and every target |
| DetailedName.PrintingIsInjective | glib-2.76.5/gio/gaction.c:551-596 | so no two print the same |
| DetailedName.ParsesDocumented | glib-2.76.5/gio/gaction.c:448-474 | a string that parses is in one of the three documented formats iff its name is not empty and has no whitespace, and text after a double colon is a valid name |
| DetailedName.ParsesMoreThanDocumented | glib-2.76.5/gio/gaction.c:448-474 | undocumented strings that parse: an empty name, and any invalid text after the double colon |
| DetailedName.ParsesInvalidName | glib-2.76.5/gio/gaction.c:490-501 | so does a name of any characters that are no separators |
| ApplicationLifetime.GApplication.HoldApplication | glib-2.76.5/gio/gapplication.c:2238-2250 | a hold removes the timer |
| ApplicationLifetime.GApplication.ReleaseApplication | glib-2.76.5/gio/gapplication.c:2274-2285 | the last release starts the timer, for the timeout, iff there is one, and no live timer is overwritten |
| ApplicationLifetime.GApplication.InactivityTimeoutExpired | glib-2.76.5/gio/gapplication.c:2252-2260 | an expired timer is gone and forgotten |
| ApplicationLifetime.GApplication.Run | glib-2.76.5/gio/gapplication.c:2559-2575 | the main loop returns exactly at the end of the first turn at which it is told to quit or nothing holds it and no timer is live, whatever happened within a turn; the busy flag is the marks and TRUE bindings of that run if every unmark was for a mark |
| ApplicationLifetime.EndsBetweenTurns | glib-2.76.5/gio/gapplication.c:2568-2575 | the turns taken are the fewest whose events together end it, and what is left is what those events leave |
| ApplicationLifetime.QuitStays | glib-2.76.5/gio/gapplication.c:2817-2822 | an application is told to quit iff a quit comes in some event, whatever is held |
| ApplicationLifetime.QuitEnds | glib-2.76.5/gio/gapplication.c:2568-2575 | the loop comes back at the end of the first turn with a quit in it, if not before, with any number of holds and a live timer |
| ApplicationLifetime.CountsHolds | glib-2.76.5/gio/gapplication.c:2238-2285 | where every release is for a hold the count is the holds less the releases |
| ApplicationLifetime.CountsMarks | glib-2.76.5/gio/gapplication.c:2843-2888 | where every unmark is for a mark the marks are those less the unmarks |
| ApplicationLifetime.NothingBelowZero | glib-2.76.5/gio/gapplication.c:2274-2285 | a release with nothing held changes nothing, nor does an unmark with no mark |
| ApplicationLifetime.LastTimeoutCounts | glib-2.76.5/gio/gapplication.c:2016-2027 | the timeout is the last that was set |
| ApplicationLifetime.TimerLive | glib-2.76.5/gio/gapplication.c:2238-2285 | after any events the timer is live iff the last release came with a timeout and neither a hold nor an expiry since, or it was live and none came |
| ApplicationLifetime.BoundValue | glib-2.76.5/gio/gapplication.c:3028-3098 | a bound property counts as what it was when it was bound or last changed, until it changes again or is unbound |
| ApplicationLifetime.UnboundIsGone | glib-2.76.5/gio/gapplication.c:3014-3025 | an unbound property stays so until it is bound again |
| ApplicationLifetime.OnlyBetweenTurns | glib-2.76.5/gio/gapplication.c:2568-2575 | a release and a hold in one turn do not end it, in two turns they do |
| ApplicationLifetime.HoldKeepsRunning | glib-2.76.5/gio/gapplication.c:2568-2575 | a hold that is not released keeps the application running until it is told to quit, however events fall into turns |
| ApplicationLifetime.TimerEndsIt | glib-2.76.5/gio/gapplication.c:2559-2575 | with no new hold it ends iff the timer expires or it is told to quit in some turn |
| ApplicationLifetime.GApplication.Mark | glib-2.76.5/gio/gapplication.c:2843-2860 | mark_busy counts |
| ApplicationLifetime.GApplication.Unmark | glib-2.76.5/gio/gapplication.c:2875-2888 | unmark_busy counts back; the books stay balanced iff it cancels a mark of its own |
| ApplicationLifetime.GApplication.NotifyBinding | glib-2.76.5/gio/gapplication.c:3028-3043 | a change of a bound property counts once |
| ApplicationLifetime.GApplication.BindBusyProperty | glib-2.76.5/gio/gapplication.c:3060-3098 | a property is bound once, and counts if it is TRUE |
| ApplicationLifetime.GApplication.UnbindBusyProperty | glib-2.76.5/gio/gapplication.c:3014-3025 | a destroyed binding takes its own count back |
| ApplicationLifetime.GApplication.StartServiceTimer | glib-2.76.5/gio/gapplication.c:2559-2566 | a service that nothing holds gets a timer of ten seconds, and one only |
| ApplicationLifetime.GApplication.Dispatch | glib-2.76.5/gio/gapplication.c:2238-3100 | every event keeps: one live timer at most, remembered, with no holds; busy_count is marks and TRUE bindings; the flag is published once per change |
| ApplicationLifetime.GApplication.Iterate | glib-2.76.5/gio/gapplication.c:2573 | so does a turn of any number of events; the books stay balanced iff every unmark in it is for a mark |
| ApplicationLifetime.BusyAfter | glib-2.76.5/gio/gapplication.c:3028-3043 | how a changed property changes the number of TRUE bindings |
| ApplicationLifetime.GApplication.SetBusyState | glib-2.76.5/gio/gapplicationimpl-dbus.c:590-599 | the flag is announced iff it changes |

## Left out

How the models abstract:

- Critical sections under a mutex are single steps, and what a callback does to the object it is called from is an operation of another thread of the model; every callback returns.
- Bit masks and C enumerations are datatypes; sizes are unbounded, so overflow of sums and doublings of sizes is not modelled.
- Converters and the base streams of the converter streams answer from scripts, and only their contracts are used; base files, the bus, timers, the file system and case folding answer through parameters.
- The converter's contract adds what termination needs and the documentation leaves open: NO_SPACE is answered only below some size that stays the same while it is the only answer, and output without input comes to an end.
- The order in which a signal emission calls handlers, and in which hash tables are walked, is arbitrary.
- Base input streams are finite and stay at their end; base files are not opened for appending, and nobody else changes them.

What is not modelled:

- Reference counting, finalizers, properties and GObject plumbing, other than the references of the cancellable source, which are the point there.
- The source of a cancellable is created by one thread, and at most one thread at a time drops its last reference.
- GActionGroupExporter: Activate, SetState and the list of handlers it connects; a removal of an action and the "action-removed" signal are one step.
- GDBusActionGroup: the error reply of DescribeAll (which leaves an empty table), the signals it emits itself, and losing the connection.
- GContextSpecificGroup: finding the context of the caller and destroying sources; a waiting getter's context stays in the table, as only its own thread could remove it.
- GConverterInputStream: need_input, which only polling reads; GConverterOutputStream and GConverterInputStream: polling and resetting.
- GBufferedInputStream and GBufferedOutputStream: the pending and closed checks of the public wrappers, close, and flushing and filling in other threads, other than asynchronous skip.
- GBufferedInputStream: the bytes given by a read of the base file are those of the file, so a base stream that changes under the cache is not modelled.
- GApplicationImpl: exporting and D-Bus calls themselves, and method calls from other processes; a process that has left the bus does not come back; replies and signals to one process keep their order, as on one connection.
- Launching remote activation, command lines and options of GApplication.
- gcontenttype.c: reading and splitting the treemagic files (a section is its sequence of lines, a path its sequence of components), the xdgmime functions, descriptions and icons. A matchlet with an empty path is excluded, since the source reads outside its arrays for it.
- The matchlets below a matchlet are values in a field of their TreeMatch, so that insertion replaces the field instead of appending to a list deep inside; aliasing of matchlets is not captured.
- The text form of GVariants: that annotated text parses back is an assumption of DetailedName.RoundTrip.
- GApplication: busy bindings that change while the application is not registered, and a second run, which is documented as unspecified.
- gcharsetconverter.c, whose behaviour is that of iconv.

Contracts that state less than one might expect:

- ApplicationLifetime.GApplication.Unmark: after an unmark_busy that cancels no mark of its own, the busy count is only tied to the published flag, because the source then counts a binding's mark twice.
