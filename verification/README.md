# Verified models of six Emscripten components

This project models the parts of Emscripten whose correctness rests on invariants, induction or exact
arithmetic, and proves what they are for:

- **the inter-process file lock and the caches on it** (`tools/filelock.py`, `tools/cache.py`,
  `get_cached_file` in `tools/emscripten.py`): a transition system with one step per system call, the
  lock object and the cache lock as classes over it, `cache.get` and the pruned per-key cache as
  transition systems of their own;
- **the audio worklet's marshalling** (`src/audio_worklet.js`): descriptors, samples and output views in
  one heap of 32-bit words;
- **emrun's message sequencing** (`emrun.py`, `src/emrun_postjs.js`): the server's reordering queue, the
  text of the messages, the page's counters, and the exit of a whole session;
- **source maps and path splitting** (`tools/emsymbolizer.py`, `src/source_map_support.js`,
  `tools/empath-split.py`, with the writer in `tools/wasm-sourcemap.py`);
- **matrices and quaternions** (`src/gl-matrix.js`) over exact reals, in arrays that may be the same;
- **allocation accounting** (`src/memoryprofiler.js`).

Code that changes objects or arrays in place is a class or a method here, proved against a function of the
old state; the properties are proved about those functions, or about every reachable state of a transition
system. Where a property turned out not to hold of the code, a lemma shows that it fails, by an input, a run
or the whole family of failing inputs, and a lemma says for exactly which inputs it does hold. These are:

- a thread that times out can leave the file lock taken with a counter of 0 (`TimeoutRaceLeaks`,
  `LeakExactly`);
- a process that dies while it writes a cached file leaves it truncated, and readers return it
  (`TornFileIsReturned`, `ReturnsGeneratedContent`);
- a cache limit of 0 deletes nothing (`PruningKeepsNewest`);
- file times are coarse, so the file that a call has just written can be among those the same call deletes
  (`FreshFileCanBeDeleted`; exactly when a file stays: `SurvivesExactlyWhen`);
- `cache.get` returns a path that does not exist exactly in deferred mode, when the creator made nothing
  (`MissingPathIsReturned`, `MissingOnlyWhenDeferred`);
- emrun loses every message whose text holds `%u`, because the handler calls `decode` on a `str`
  (`ReceivedExactlyWithoutPercentU`);
- a repeated sequence number moves emrun's expected number backwards (`RepeatedNumberMovesBack`,
  `HandleKeepsResting`);
- JavaScript's 32-bit decoder reads back exactly the numbers below 2^30 in size (`JsDecodesExactlySmall`), so
  it recovers a source map exactly when all steps between its rows are that small
  (`JavaScriptReadsExactlySmallSteps`);
- the Python lookup does not find the mapping at offset 0, which JavaScript finds (`OffsetZeroIsMissed`,
  `LookupsAgree`);
- a path written `./x/y` loses its files to `x`, so greedy assignment is deepest match exactly when inner
  paths sort after outer ones (`DotPathLosesItsFiles`, `GreedyIsDeepest`); the comment in
  `tools/empath-split.py` at lines 235-239 promises it for all paths;
- `empath-split` uses the location of the function before it for a function of size 0 or 1, and raises when
  that function is the first (`FunctionSource`, `FindSources`);
- a module name listed twice in a paths file loses the paths of its first list, without an error
  (`PathKeptExactlyWhen`);
- the allocation totals survive `onMalloc` exactly when it does not report a live pointer of size 0 again
  (`MallocKeepsBalance`), and a whole run exactly when none of its events does (`RunBalancedExactlyWhen`);
- the audio worklet's output views lie on the outputs exactly when they fill whole 16-byte units
  (`ViewsMatchStackTop`);
- rotating a vector by a quaternion and by its matrix agree exactly for quaternions of length 1, or for the
  zero vector (`RotationTurnsExactlyWhen`).

Where code and documentation differ, the model follows the code: the text of `release` in
`tools/filelock.py` (line 307) says that the lock file is not deleted, but `_release` (line 413) deletes it.

`dafny verify dfyconfig.toml` checks the whole project.

## Model

| member | source | states |
|---|---|---|
| FileLockProtocol.MutualExclusion | tools/filelock.py:389-416 | in every reachable state, under any interleaving of any number of processes and crashes, at most one process has its lock descriptor set, although the lock file is deleted and made again |
| FileLockProtocol.OnlyOnePastCheck | tools/filelock.py:398-407 | at most one process is between the link-count check and the unlink |
| FileLockProtocol.RunKeepsInv | tools/filelock.py:389-416 | one system call of one process keeps the invariant that ties path, inodes, flocks and program counters together |
| FileLockProtocol.CrashKeepsInv | tools/filelock.py:389-416 | a process that dies at any point, and so drops its flock, keeps it too |
| FileLockProtocol.ExecKeepsInv | tools/filelock.py:389-416 | so does every finite run |
| FileLockProtocol.UnlinkRemovesOwnFile | tools/filelock.py:410-416 | every unlink finds the path, removes the inode the releasing process holds and never a successor's, and leaves nobody past the check |
| FileLockProtocol.ReleaseNeverRaises | tools/filelock.py:410-416 | no reachable process has failed in its unlink |
| FileLockProtocol.SoloAcquire | tools/filelock.py:389-408 | an attempt that nobody interrupts takes the lock if and only if no live lock file is flocked; otherwise it changes nothing |
| FileLockProtocol.SoloRelease | tools/filelock.py:410-416 | a release that nobody interrupts leaves no file at the path, nobody with its flock, and all other processes as they were |
| FileLockProtocol.RefinesMutex | tools/filelock.py:389-416 | every step of the protocol is a step of a plain mutex: taken from nobody, given up by its holder, or unchanged |
| UnixFileLocks.OthersLeaveMe | tools/filelock.py:389-416 | whatever other processes do between two of its system calls, a process stays where it is |
| UnixFileLocks.Kernel.Open | tools/filelock.py:390-391 | opening creates the lock file or finds the one at the path |
| UnixFileLocks.Kernel.Flock | tools/filelock.py:393-396 | a non-blocking flock is granted exactly when nobody has the inode |
| UnixFileLocks.Kernel.Fstat | tools/filelock.py:398-399 | the link count is 0 exactly when the path no longer leads to this inode |
| UnixFileLocks.Kernel.Unlink | tools/filelock.py:413 | the path exists, led to the caller's inode, and is gone afterwards |
| UnixFileLocks.UnixFileLock.TryAcquire | tools/filelock.py:389-408 | one attempt with other processes acting between its calls: the descriptor is set only with the lock held alone and the path leading to it; undisturbed, exactly when the lock was free |
| UnixFileLocks.UnixFileLock.DoRelease | tools/filelock.py:410-416 | the descriptor is cleared and the kernel knows this process as idle again |
| UnixFileLocks.UnixFileLock.Acquire | tools/filelock.py:261-298 | which of the attempts decides, and the kernel then; the counter goes up by one exactly when the lock is held; a timeout, possible only when the lock was not held, restores it; still waiting means that no attempt ran out of time |
| UnixFileLocks.TriesOn | tools/filelock.py:274-291 | an acquire that has got the lock or run out of time is over; one that is still waiting goes on with the next attempt |
| UnixFileLocks.TriesOnce | tools/filelock.py:274-291 | one attempt gets the lock, or is the last because the time is over, or leaves acquire waiting |
| UnixFileLocks.UnixFileLock.Release | tools/filelock.py:313-327 | the counter goes down to at least 0, and the lock is given up exactly at the outermost release |
| FileLockThreads.StepKeepsInv | tools/filelock.py:267-325 | every critical section of every thread keeps the counter equal to waiters plus holders |
| FileLockThreads.CounterCountsHoldersAndWaiters | tools/filelock.py:267-325 | in every reachable state the counter is the number of holds, waiters and failing waiters, and any hold means that the lock is taken |
| FileLockThreads.NeverClamps | tools/filelock.py:295 | the counter is at least 1 wherever it is counted down, so the clamp at 0 never acts |
| FileLockThreads.TimeoutRaceLeaks | tools/filelock.py:280-325 | a reachable state has the lock taken, the counter at 0 and nobody left to release it |
| FileLockThreads.LeakExactly | tools/filelock.py:292-297 | a step leads there if and only if a timed-out thread, the only one counted, counts itself down while the lock is taken |
| FileLockThreads.SingleThreadNeverLeaks | tools/filelock.py:267-325 | with one thread the lock is taken exactly while the counter is positive, and the counter is the depth of the holds |
| FileLockThreads.AcquireSucceeds | tools/filelock.py:267-298 | an undisturbed acquire succeeds when the lock is granted or taken already, and counts once more |
| FileLockThreads.LeaveUndoesAcquire | tools/filelock.py:267-325 | the release behind it restores counter and threads, and unlocks exactly when nothing else is counted |
| FileLockThreads.TimeoutRestores | tools/filelock.py:280-297 | an undisturbed acquire that runs out of time leaves everything as it was |
| CacheLocks.CacheLock.AcquireCacheLock | tools/cache.py:30-51 | which of the four outcomes, in the order the checks are made; the environment variable and the file lock are set at the outermost level |
| CacheLocks.CacheLock.ReleaseCacheLock | tools/cache.py:54-62 | the count goes down; the variable and the lock go exactly at the outermost level; one release too many is noticed |
| CacheLocks.CacheLock.RunBlock | tools/cache.py:65-72 | any nesting of `with lock` blocks leaves count and variable as they were, and inner blocks touch neither lock nor kernel |
| CacheGet.StepKeepsLock | tools/cache.py:170-191 | every step keeps the cache lock's holder in agreement with every process's count |
| CacheGet.ExecKeepsInv | tools/cache.py:157-191 | every run keeps the invariant over stacks, lock, files and history |
| CacheGet.OneCreatorAtATime | tools/cache.py:170-181 | no two processes run creators at the same time, and the one that does holds the lock |
| CacheGet.CreatedAtMostOnce | tools/cache.py:162-181 | once a creator has made a name, no creator for it runs again, over all interleavings |
| CacheGet.ReturnedPathsExist | tools/cache.py:186-191 | outside deferred mode every returned path exists |
| CacheGet.MissingOnlyWhenDeferred | tools/cache.py:182-191 | a process whose creator has finished returns a missing path if and only if creation is deferred and the file is not there |
| CacheGet.MissingPathIsReturned | tools/cache.py:182-191 | a reachable run in deferred mode whose log ends with the return of a path that is not there |
| CacheGet.CountTracksLock | tools/cache.py:40-62 | a process's count is positive exactly while it holds the lock, and equals its nesting depth |
| CacheGet.FoundIsReturned | tools/cache.py:162-172 | a file that is there at either look is returned and the call ends, the first time without the lock |
| CacheGet.ReturnsAfterCreator | tools/cache.py:181-191 | after its creator has returned, a call returns its path if and only if building is deferred or the file is there, and otherwise ends without returning anything |
| CacheGet.CreatorsExceptionPasses | tools/cache.py:181 | a call whose creator raises ends without returning anything |
| CacheGet.RaisesOnlyWhen | tools/cache.py:181-187 | in every run, a call that is about to raise had its creator raise, or return without a file outside deferred mode, and has not moved since |
| CacheGet.CallRunsCreator | tools/cache.py:157-181 | an undisturbed call for a missing file takes the lock and runs the creator |
| CacheGet.CallBuilds | tools/cache.py:157-191 | when that creator makes its file, the call adds the file and three facts to the history, and leaves lock and caller as they were |
| PruneOrder.VictimsAreOldest | tools/emscripten.py:332-336 | the deleted files are distinct, listed, and no newer than any kept one; what is kept is within the limit if and only if the limit is not 0 or nothing is there |
| StableSorts.SortPlaces | tools/emscripten.py:332 | the stable sort puts each element exactly behind the smaller ones and the equal ones listed before it |
| PruneOrder.SurvivesExactly | tools/emscripten.py:332-336 | a file is kept if and only if the limit is 0, or not exceeded, or all but the limit of the files are older, or as old and listed earlier |
| CachedFiles.ExecKeepsInv | tools/emscripten.py:316-338 | every interleaving of readers, writers, pruners and crashes keeps locks, files and calls in agreement |
| CachedFiles.NeverHitsDeletedFile | tools/emscripten.py:316-336 | no read, time query or deletion meets a file that another process has removed |
| CachedFiles.ReturnsGeneratedContent | tools/emscripten.py:316-338 | what a call returns is what the generator makes for its key, if and only if it did not read a file torn by a crash |
| CachedFiles.TornFileIsReturned | tools/emscripten.py:316-323 | a run in which a writer dies and a later call returns the truncated file |
| CachedFiles.CrashFreeRunsAreExact | tools/emscripten.py:316-338 | without crashes every returned content is the generator's |
| CachedFiles.WaitingIsShallow | tools/emscripten.py:316-336 | if one process waits for a second and that for a third, the first wants the directory's lock and the third waits for nothing |
| CachedFiles.NoWaitingCycle | tools/emscripten.py:316-336 | no cycle of processes of any length waits for one another |
| CachedFiles.NoDeadlock | tools/emscripten.py:316-336 | while any call is under way, some process can take a step that changes the state |
| CachePruning.ChoosesOldest | tools/emscripten.py:327-334 | in every reachable state, a pruner that has timed the last file goes on to delete the oldest, equally old ones in listing order, and so many that the limit is met, or none when the limit is 0 or not exceeded |
| CachePruning.LeftWereChosen | tools/emscripten.py:332-336 | in every run, what a pruner has still to delete is the rest of victims chosen like that |
| CachePruning.GoesOnlyAsVictim | tools/emscripten.py:332-336 | in every run, a file disappears only as the first of them, deleted by the pruner that chose it |
| CachePruning.PrunesAlone | tools/emscripten.py:325-338 | an undisturbed call that has its content returns it and leaves exactly the pruned directory, its locks given back |
| CachePruning.CallsAlone | tools/emscripten.py:303-338 | a whole undisturbed call returns what is stored or generated, and leaves the directory with its file in it, pruned, and all else as it was |
| CacheDirectories.PruningKeepsNewest | tools/emscripten.py:325-336 | pruning keeps files as they are, keeps the newest, and brings their number to the limit exactly when it is above a limit other than 0 |
| CacheDirectories.SurvivesExactlyWhen | tools/emscripten.py:325-336 | the same of every file of the directory: which other files must be older, or as old and listed earlier, for it to survive a pruning |
| CacheDirectories.NewestSurvives | tools/emscripten.py:320-336 | a file written later than all others is not among those its own call deletes |
| CacheDirectories.FreshFileCanBeDeleted | tools/emscripten.py:320-336 | two files of one time, limit 1: the file just written is deleted when it is listed first |
| CacheDirectories.CacheDirectory.TimeFiles | tools/emscripten.py:327-331 | the listing with the time of each file |
| CacheDirectories.CacheDirectory.DeleteFiles | tools/emscripten.py:334-336 | exactly the victims are gone |
| CacheDirectories.CacheDirectory.GetCachedFile | tools/emscripten.py:303-338 | a hit returns what is stored, a miss what is generated; afterwards the directory is the pruned one, and the wanted file is in it if and only if it survives the pruning |
| AudioWorklets.ViewsFit | src/audio_worklet.js:46-51 | the views leave room for one descriptor on the stack |
| AudioWorklets.ViewsMatchStackTop | src/audio_worklet.js:69-81 | view k lies k+1 channels below the stack top if and only if the views fill whole 16-byte units |
| AudioWorklets.WasmAudioWorkletProcessor.constructor | src/audio_worklet.js:27-62 | how many views there are, at least one, and that all are in place |
| AudioWorklets.WasmAudioWorkletProcessor.CreateOutputViews | src/audio_worklet.js:69-81 | each view of the array filled in reverse, with the stack pointer back where it was |
| AudioWorklets.WasmAudioWorkletProcessor.StackAlloc | system/lib/compiler-rt/stack_ops.S:21-36 | the stack pointer moves down and is rounded down to 16 bytes |
| AudioWorklets.WasmAudioWorkletProcessor.Allocate | src/audio_worklet.js:112-156 | the space counted in loops is what the layout takes; descriptors start at the new stack pointer and the data ends at the old one |
| AudioWorklets.WasmAudioWorkletProcessor.MarshalInputs | src/audio_worklet.js:165-178 | descriptors and samples of all inputs lie one after the other, and all other words are as before |
| AudioWorklets.WasmAudioWorkletProcessor.MarshalParams | src/audio_worklet.js:182-191 | the same for parameters |
| AudioWorklets.WasmAudioWorkletProcessor.MarshalOutputs | src/audio_worklet.js:200-209 | the same for output descriptors, and where the data pointer ends |
| AudioWorklets.WasmAudioWorkletProcessor.Marshal | src/audio_worklet.js:117-213 | memory and pointers at the call are those of the layout, and the data pointer ends at the old stack pointer |
| AudioWorklets.WasmAudioWorkletProcessor.ReadBack | src/audio_worklet.js:236-246 | with the view counter running down over two loops, channel k holds what view needed-1-k shows |
| AudioWorklets.WasmAudioWorkletProcessor.Process | src/audio_worklet.js:97-253 | the callback gets the laid-out call; when it produced audio, every output channel holds what its own frame points to; otherwise outputs are untouched; the stack pointer is restored |
| AudioLayout.CallHolds | src/audio_worklet.js:154-209 | the memory of the call holds descriptors and samples, and every other word is unchanged |
| AudioLayout.CallbackReadsInputs | src/audio_worklet.js:165-178 | following the pointers from `inputsPtr` reads back exactly the inputs |
| AudioLayout.CallbackReadsParams | src/audio_worklet.js:182-191 | following the pointers from `paramsPtr` reads back exactly the parameters |
| AudioLayout.CallbackFindsOutputs | src/audio_worklet.js:200-213 | each output frame has its channel count and points to its own place below the stack top |
| AudioLayout.Regions | src/audio_worklet.js:117-156 | descriptors end at or below the data, both start on whole words, and data and outputs end at the old stack pointer |
| AudioRegions.RegionsAreDisjoint | src/audio_worklet.js:154-209 | no two descriptors, input channels, parameter arrays or output channels share a byte |
| AudioRegions.RegionsStayOnStack | src/audio_worklet.js:154-209 | all of them lie within the allocated stack |
| AudioWorklets.ViewIsOutputChannel | src/audio_worklet.js:215-246 | the view read for an output channel is at the address its frame gives if and only if the views fill whole 16-byte units |
| AudioWorklets.ViewShowsOutputChannel | src/audio_worklet.js:236-246 | then what the callback leaves there is what the view shows |
| EmrunServer.DueTakesRun | emrun.py:507-516 | draining prints exactly the longest run of consecutive numbers at the head of the queue, in order |
| EmrunServer.HandleConserves | emrun.py:460-478 | printed plus waiting is what arrived: no message lost or doubled |
| EmrunServer.AllConserves | emrun.py:500-503 | flushing prints all that waits |
| EmrunServer.AllInOrder | emrun.py:500-503 | flushing appends the whole queue in its order |
| EmrunServer.HandleKeepsResting | emrun.py:460-478 | a message leaves the queue strictly sorted, above the expected number and at most 16 long, if and only if its number is not already waiting |
| EmrunServer.TickKeepsResting | emrun.py:483-489 | so does a timeout |
| EmrunServer.RunRests | emrun.py:460-516 | so does every run of distinct numbers and timeouts |
| EmrunServer.HandleInOrder | emrun.py:460-516 | whatever a message causes to be printed is increasing and smaller than all that still waits |
| EmrunServer.RunPrintsInOrder | emrun.py:460-516 | the same at every step of every run: in order, late, by overflow or by timeout |
| EmrunServer.HandlePrints | emrun.py:460-478 | exactly what each kind of message makes the server print: itself, itself and the longest run behind it, nothing, or with a seventeenth waiting the longest run from the smallest number |
| EmrunServer.TickPrintsRun | emrun.py:483-489 | a late tick prints exactly the longest run of consecutive numbers at the head of the queue, any other tick nothing |
| EmrunServer.RepeatedNumberMovesBack | emrun.py:493-497 | with number 2 sent twice before 1, a timeout moves the expected number from 5 to 3 |
| EmrunReordering.PrintedInOrderExactlyWhenFitting | emrun.py:460-516 | arrivals that permute 1..n are printed as 1..n if and only if no more than 16 ever wait |
| EmrunReordering.StaysOnTrack | emrun.py:460-478 | up to the first overflow the log counts up from 1 and every arrival is printed or waits |
| EmrunReordering.OverflowPrintsOutOfTurn | emrun.py:477-478 | an overflow prints a number too large for its place |
| EmrunWebServers.HTTPWebServer.PrintMessagesDue | emrun.py:507-516 | the draining loop, over the fields it changes, as a function of the old state |
| EmrunWebServers.HTTPWebServer.PrintNextMessage | emrun.py:493-497 | skips to the oldest waiting number and drains |
| EmrunWebServers.HTTPWebServer.PrintAllMessages | emrun.py:500-503 | the flushing loop ends with an empty queue |
| EmrunWebServers.HTTPWebServer.HandleIncomingMessage | emrun.py:460-478 | the four branches by number, with the overflow of the queue |
| EmrunWebServers.HTTPWebServer.PrintTimedOutMessages | emrun.py:483-489 | when nothing has arrived for too long, prints exactly the longest run of consecutive numbers at the head of the queue |
| EmrunWebServers.HTTPWebServer.Shutdown | emrun.py:574-577 | stops the server and prints all that waits |
| EmrunWebServers.HTTPWebServer.DoPost | emrun.py:707-750 | what each body does to the server and whether it is answered; in particular for exit posts, from the body: all that waits is printed, the server stops, no answer; page loads; and messages as the page writes them |
| EmrunMessages.UnquoteUndoesEncode | emrun.py:710-711 | unquoting with plus signs replaced gives back every text of bytes that was encoded |
| EmrunMessages.ParseUndoesPrefix | emrun.py:724-739 | stream, number and text of a message come back, also for texts with carets |
| EmrunMessages.ReceivedExactlyWithoutPercentU | emrun.py:196-203 | a message the page sends is received as it was, unless its text holds `%u`: then the handler raises |
| EmrunMessages.ExitIsReceived | emrun.py:715-717 | an exit post with any exit code, negative ones too, is read as an exit with this code |
| EmrunMessages.PageLoadIsReceived | emrun.py:713-714 | the page-load notice is read as such |
| EmrunMessages.ExitWithoutNumber | emrun.py:715-717 | an exit post without a number is one whose code cannot be read |
| EmrunMessages.OtherTextIsLogged | emrun.py:723-741 | a text of no known kind is logged to stdout, without a number |
| EmrunMessages.UnnumberedIsLogged | emrun.py:728-739 | a text with a stream but no number is logged to that stream, whole and without a number |
| EmrunMessages.ExitShutsDown | emrun.py:715-722 | an exit post shuts the server down with the whole queue printed in order and no answer, unless the server is to serve on |
| EmrunClients.EmrunClient.Post | src/emrun_postjs.js:32-44 | one more post is in flight, with this body |
| EmrunClients.EmrunClient.Print | src/emrun_postjs.js:59-66 | posts the text under the next number |
| EmrunClients.EmrunClient.OnExit | src/emrun_postjs.js:52-58 | posts the exit with the exit code at once if and only if nothing is in flight |
| EmrunClients.EmrunClient.OnDone | src/emrun_postjs.js:35-41 | posts the exit with the exit code when the last post ends and the page wants to close |
| EmrunExit.StepKeepsInv | src/emrun_postjs.js:32-67 | every event of page, network and server keeps the counts of posts and the messages delivered in agreement |
| EmrunExit.ExitFindsEverythingLogged | emrun.py:715-722 | when an exit post is served, no message sent before it is under way, and each is in the log exactly once if it was served and not at all otherwise |
| EmrunExit.ReliableExit | emrun.py:715-750 | if the network loses nothing, each of them is in the log exactly once, but for those with `%u` |
| EmrunExit.ExitIsPosted | src/emrun_postjs.js:35-58 | in every run, once the program has exited and all posts have ended, the exit has been posted |
| EmrunExit.ServerReadsExitCode | src/emrun_postjs.js:35-58 | in every run of a program that exits with one code, the server reads this code in every exit post |
| EmrunExit.InOrderNothingWaits | src/emrun_postjs.js:50-67 | page and server start at the same number: posts that arrive in order are printed at once under the numbers 1, 2, 3 and nothing waits |
| Vlq.EncodeVlq | tools/wasm-sourcemap.py:108-115 | the loop writes the digits of the zigzag number, lowest first |
| Vlq.DecodeVLQ | tools/emsymbolizer.py:131-148 | the accumulator loop, with failure at characters outside the alphabet |
| Vlq.DecodeUndoesEncode | tools/emsymbolizer.py:131-148 | decoding a concatenation of encoded numbers of any size gives those numbers |
| Vlq.DecodesWeight | tools/emsymbolizer.py:131-148 | a number is half the sum of its characters' five low bits in base 32, negative if that sum is odd, whatever stands behind it |
| Vlq.Alphabet | tools/emsymbolizer.py:128-129 | the order of the characters |
| Vlq.JsDecodesImage | src/source_map_support.js:20-43 | what 32-bit shifts make of every list of encoded numbers |
| Vlq.JsDecodesExactlySmall | src/source_map_support.js:20-43 | JavaScript decodes a number exactly if and only if its size is below 2^30 |
| Vlq.JsDecodeUndoesEncode | src/source_map_support.js:20-43 | and a list if and only if all its numbers are that small |
| SourceMapText.PythonReadsWhatWasWritten | tools/emsymbolizer.py:150-175 | reading the comma-joined deltas recovers every absolute offset, source, line, column and name; of no rows at all it raises |
| SourceMapText.JavaScriptReadsExactlySmallSteps | src/source_map_support.js:45-59 | the JavaScript reader recovers every row, also of an empty table, if and only if every difference between consecutive rows is below 2^30 in size |
| SourceMapText.ReadsSums | tools/emsymbolizer.py:150-175 | for both readers: a text is read if and only if its segments decode, and then every offset, source, line, column and name is the sum of the numbers up to its segment, lines and columns counted from 1 |
| WasmSourceMaps.GreatestIsGreatest | tools/emsymbolizer.py:177-198 | the linear scan used as reference finds the greatest offset at or below the bound |
| WasmSourceMaps.UpperIndex | tools/emsymbolizer.py:179-187 | the binary search splits the sorted offsets at the bound |
| WasmSourceMaps.UpperIndexIsGreatest | tools/emsymbolizer.py:188-198 | the element before the split is what the scan finds |
| WasmSourceMaps.GreatestIgnoresOrder | tools/emsymbolizer.py:175 | sorting the offsets does not change what the scan finds |
| WasmSourceMaps.WasmSourceMap.Parse | tools/emsymbolizer.py:150-175 | the fields hold the entries that the text means, each field the sum of the numbers up to its segment; false exactly when a segment does not decode |
| WasmSourceMaps.WasmSourceMap.FindOffset | tools/emsymbolizer.py:177-198 | the greatest mapped offset at or below the query; with a lower bound other than 0, found if and only if some mapped offset lies between the two |
| WasmSourceMaps.WasmSourceMap.Lookup | tools/emsymbolizer.py:200-210 | the location there, with Python's tables and its treatment of offset 0 |
| WasmSourceMaps.WasmSourceMap.NormalizeOffset | src/source_map_support.js:76-90 | the same search in JavaScript |
| WasmSourceMaps.WasmSourceMap.JsLookup | src/source_map_support.js:62-74 | the same lookup in JavaScript |
| WasmSourceMaps.LookupsAgree | tools/emsymbolizer.py:200-210 | both languages answer alike, except that Python does not find offset 0 |
| WasmSourceMaps.OffsetZeroIsMissed | tools/emsymbolizer.py:200-210 | a map whose only entry is at offset 0 answers every query in JavaScript and none in Python |
| WasmSourceMaps.LookupFindsRow | tools/emsymbolizer.py:200-210 | rows written and read back: the lookup answers with the source, line, column and name of the last row with the greatest offset not above the query |
| WasmSourceMaps.JsLookupFindsRow | src/source_map_support.js:62-74 | the same in JavaScript, for small steps |
| EmpathScan.FunctionSource | tools/empath-split.py:211-222 | the backward scan, one address at a time, finds what the greatest sourced address in the body says; with a size below 2 the location of the function before stays, and without one the variable is unbound |
| EmpathScan.LastSourcedDecides | tools/empath-split.py:204-222 | when a mapping inside the body has a source, the last such mapping decides |
| EmpathScan.NoneInside | tools/empath-split.py:211-222 | when none has, a source is found if and only if the body's first address has one and the next is unmapped |
| PathOrder.GreedyIsDeepest | tools/empath-split.py:235-251 | the first match in reverse order is the deepest listed path for every source, if and only if every inner path sorts after its outer paths |
| PathOrder.CanonicalPathsSort | tools/empath-split.py:235-251 | paths that read as they are written do |
| PathOrder.DotPathLosesItsFiles | tools/empath-split.py:242-251 | `./x/y` and `x` do not |
| PathOrder.SortReverseElements | tools/empath-split.py:242 | the reverse sorting order lists the same paths, descending |
| PathOrder.CoversExactlyBelow | tools/empath-split.py:243-247 | a plain path covers itself and what lies below it, component by component, and nothing else |
| EmpathSplit.GroupBySource | tools/empath-split.py:230-233 | each function is under its source, in order, and nothing else is there |
| EmpathSplit.GroupsAreDisjoint | tools/empath-split.py:230-233 | so no function is under two sources or twice under one |
| EmpathSplit.AddUnvisited | tools/empath-split.py:248-251 | the functions of one source are taken all or not at all |
| EmpathSplit.TakeSources | tools/empath-split.py:243-251 | a path takes the functions of the sources for which it is the first match |
| EmpathSplit.AssignFunctions | tools/empath-split.py:240-252 | the nested loops with the set of visited functions give every path that share |
| EmpathSplit.SharesAreDisjoint | tools/empath-split.py:240-252 | no function is in two shares or twice in one |
| EmpathSplit.FunctionFollowsItsSource | tools/empath-split.py:245-251 | a function is in the share of a path if and only if that is the first match of its source |
| EmpathSplit.FunctionGoesToDeepestPath | tools/empath-split.py:235-252 | whenever inner paths sort later: a function is assigned if and only if a listed path is around its source, and then to the deepest |
| EmpathSplit.WriteManifest | tools/empath-split.py:325-347 | one section for each module with the functions of its paths in order |
| EmpathSplit.ManifestNamesEachFunctionOnce | tools/empath-split.py:325-347 | from paths listed once and shares without repetition, no function name comes twice in the manifest |
| EmpathProgram.FindSources | tools/empath-split.py:203-228 | the loop over the functions maps their names to sources; it raises if and only if the first function has fewer than two bytes |
| EmpathProgram.SourcesAreNormalized | tools/empath-split.py:225 | sources are compared with forward slashes, and one that has only single ones stays as it is |
| EmpathProgram.SourcedByLast | tools/empath-split.py:203-228 | a name is mapped to the source of the last function of that name that has one |
| EmpathProgram.SourcedOnly | tools/empath-split.py:203-228 | and a name without such a function is not mapped |
| EmpathProgram.AllPathsAreDistinct | tools/empath-split.py:315-317 | the paths of an accepted file, module after module, are listed once |
| EmpathProgram.AssignAndWrite | tools/empath-split.py:230-347 | grouping, assigning and writing together: each module's section names exactly the functions whose source chooses one of its paths among all listed ones, and no function name comes twice |
| EmpathProgram.Split | tools/empath-split.py:303-347 | the same of the whole program, from the lines of the paths file and the functions of the module: rejected, raised, or such a manifest, and exactly when each |
| EmpathProgram.ManifestFollowsDeepestPath | tools/empath-split.py:235-252 | in that manifest, whenever inner paths sort later, a function with a source is named if and only if a listed path is around it, and then by the module that lists the deepest such path |
| PathsFile.ParsePathsFile | tools/empath-split.py:262-300 | the line loop with its four errors |
| PathsFile.AcceptedPathsAreUnique | tools/empath-split.py:286-290 | an accepted file has a module, and assigns no path twice, within a module or between two |
| PathsFile.AcceptedExactlyWhen | tools/empath-split.py:262-300 | told from the lines: a file is accepted if and only if it names a module and no line is at fault, and rejected for the first fault |
| PathsFile.TrailingSlashDoesNotMatter | tools/empath-split.py:255-259 | a path with a slash behind it is the same path |
| PathsFile.BackslashesDoNotMatter | tools/empath-split.py:255-259 | backslashes are slashes, and a normal path has none and no slash at its end |
| PathsFile.PathKeptExactlyWhen | tools/empath-split.py:265-296 | a path that an accepted file lists is kept if and only if no later module has the name of the module it is listed under |
| PathsFile.ParseUndoesLines | tools/empath-split.py:262-300 | a table of modules and plain paths, written out, is read back |
| Mat4s.DetByPairs | src/gl-matrix.js:735-760 | the inverse's twelve products pair up to the determinant by expansion along a column |
| Mat4s.DeterminantOfTimes | src/gl-matrix.js:887-919 | the determinant of a product is the product of the determinants |
| Mat4Laws.ApplyTimes | src/gl-matrix.js:887-965 | multiplying and then transforming a vector is transforming it twice |
| Mat4Laws.TimesAssociates | src/gl-matrix.js:887-919 | the product is associative |
| Mat4Laws.IdentityIsNeutral | src/gl-matrix.js:637-654 | the identity is neutral on both sides |
| Mat4Laws.TransposeReversesTimes | src/gl-matrix.js:664-703 | the transpose of a product is the product of the transposes in reverse |
| Mat4Laws.DeterminantOfTransposed | src/gl-matrix.js:664-725 | transposing keeps the determinant |
| Mat4Laws.CofactorsAgainstColumns | src/gl-matrix.js:765-780 | the rows that are divided by the determinant give it with their own column and 0 with the others |
| Mat4Laws.InverseTimes | src/gl-matrix.js:735-782 | the inverse times the matrix is the identity |
| Mat4Laws.LeftInverseIsInverse | src/gl-matrix.js:735-782 | what is an inverse on one side is one on the other |
| Mat4Laws.InverseIsUnique | src/gl-matrix.js:735-782 | and is the inverse |
| Mat4Laws.InvertibleExactlyWhen | src/gl-matrix.js:757-763 | an inverse exists if and only if the determinant is not 0 |
| GlMatrix.Transpose | src/gl-matrix.js:664-703 | the transpose, in place with cached values or into another array |
| GlMatrix.Multiply | src/gl-matrix.js:887-919 | the product of the old contents, whichever of the three arrays are the same |
| GlMatrix.MultiplyVec4 | src/gl-matrix.js:954-965 | the transformed old vector, also in place |
| GlMatrix.DeterminantOf | src/gl-matrix.js:712-725 | the twenty-four products are the expansion along a column |
| GlMatrix.Invert | src/gl-matrix.js:735-782 | null, and nothing written, if and only if the determinant is 0; otherwise the inverse of the old contents, also in place |
| GlMatrix.TimesTranslation | src/gl-matrix.js:974-1001 | a translation on the right changes the last column alone |
| GlMatrix.TranslationMoves | src/gl-matrix.js:974-1001 | a translation moves points and leaves directions alone |
| GlMatrix.Translate | src/gl-matrix.js:974-1001 | both branches multiply by the translation |
| Quat4s.ProductAssociates | src/gl-matrix.js:1714-1726 | the quaternion product is associative |
| Quat4s.NormOfProduct | src/gl-matrix.js:1714-1726 | the length of a product is the product of the lengths |
| Quat4s.VectorsMultiply | src/gl-matrix.js:1714-1726 | the product of two vectors is their cross product less their inner product |
| Quat4s.TurningOfProduct | src/gl-matrix.js:1714-1755 | turning by a product is turning twice, for all quaternions |
| Quat4s.RotationOfProduct | src/gl-matrix.js:1830-1869 | for quaternions of length 1 the matrix of the product is the product of the matrices |
| Quat4s.RotationAndTurning | src/gl-matrix.js:1737-1755 | for all quaternions, by how much matrix and direct rotation differ |
| Quat4s.RotationTurnsExactlyWhen | src/gl-matrix.js:1737-1869 | they agree if and only if the length is 1 or the vector is 0 |
| Quat4s.RotationIsOrthogonal | src/gl-matrix.js:1830-1869 | the matrix of the conjugate is the transpose, and the inverse |
| Quat4s.QuarterTurn | src/gl-matrix.js:1830-1869 | the matrix of a quarter turn about z takes x to y and y to the negative of x |
| GlQuat.Multiply | src/gl-matrix.js:1714-1726 | the Hamilton product of the old contents, also in place |
| GlQuat.MultiplyVec3 | src/gl-matrix.js:1737-1755 | the vector part of q v q*, which has no real part |
| GlQuat.ToMat4 | src/gl-matrix.js:1830-1869 | the rotation matrix, into a new array when none is given |
| GlQuat.TranslationTimesRotation | src/gl-matrix.js:1438-1453 | a translation times a rotation, as the source's comment has it |
| GlQuat.FromRotationTranslation | src/gl-matrix.js:1454-1491 | that product |
| MemoryBooks.LedgerDeterminesStatistics | src/memoryprofiler.js:198-201 | live sizes and sites leave one choice for the statistics |
| MemoryBooks.RecordAddsUp | src/memoryprofiler.js:190-201 | recording an allocation keeps each site's count and bytes the sums over its live pointers, present only when positive |
| MemoryBooks.ForgetAddsUp | src/memoryprofiler.js:222-233 | so does forgetting one |
| MemoryBooks.MallocKeepsBalance | src/memoryprofiler.js:172-202 | all totals stay right if and only if no live pointer of size 0 is reported again |
| MemoryBooks.FreeKeepsBalance | src/memoryprofiler.js:204-235 | all totals stay right, also for unknown pointers |
| MemoryBooks.ReallocKeepsBalance | src/memoryprofiler.js:237-240 | when a realloc keeps them right, exactly |
| MemoryBooks.ClearKeepsBalance | src/memoryprofiler.js:303 | clearing the statistics keeps them right |
| MemoryBooks.FreeUndoesMalloc | src/memoryprofiler.js:172-235 | freeing what was just allocated restores everything but the two call counts |
| MemoryBooks.RunKeepsBalance | src/memoryprofiler.js:172-303 | after any run that reports no live pointer of size 0 again, bytes are the sum of live sizes, mallocs minus frees the number of live pointers, and each site is right |
| MemoryBooks.RunBalancedExactlyWhen | src/memoryprofiler.js:172-303 | they are right throughout a run if and only if it never reports a live pointer of size 0 again |
| MemoryBooks.PositiveSizesDoNotDouble | src/memoryprofiler.js:172-303 | a run without allocations of size 0 never does |
| MemoryReports.LedgerFollows | src/memoryprofiler.js:172-303 | told from the events: after any run exactly the live pointers are in the ledger, with the size that their report gave and, unless cleared since, its call site |
| MemoryReports.LedgerIsReported | src/memoryprofiler.js:172-303 | and these sizes and sites are the only ones that fit the events |
| MemoryReports.EarlyLedgerFollows | src/memoryprofiler.js:186-188 | the pointers listed as allocated before the run, with their sizes, likewise |
| MemoryReports.CallsAreCounted | src/memoryprofiler.js:179-234 | the two call counters are the numbers of reports that count and of releases of live pointers |
| MemoryReports.NoneDoublesExactlyWhen | src/memoryprofiler.js:172-176 | a run is free of double reports if and only if no report counts for a pointer that is live |
| MemoryReports.RunAddsUp | src/memoryprofiler.js:172-303 | without double reports, the total is the sum of the sizes reported for the live pointers, the calls differ by their number, and each call site has the number and the sum of those reported from it since the last clearing |
| MemoryProfilers.MemoryProfiler.OnMalloc | src/memoryprofiler.js:172-202 | the handler, field by field: the size and site recorded are those reported, and total and count go up by that size and by one |
| MemoryProfilers.MemoryProfiler.OnFree | src/memoryprofiler.js:204-235 | the handler, field by field |
| MemoryProfilers.MemoryProfiler.OnRealloc | src/memoryprofiler.js:237-240 | a free, then a malloc |
| MemoryProfilers.MemoryProfiler.OnPreloadComplete | src/memoryprofiler.js:242-244 | later allocations are not counted as made before the run |
| MemoryProfilers.MemoryProfiler.ClearAllocStats | src/memoryprofiler.js:303 | sites and statistics are empty, the rest is as before |
| MemoryProfilers.MemoryProfiler.Replay | src/memoryprofiler.js:172-303 | a whole run of handlers leaves the object with the books that the run makes of the old ones, balanced when no live pointer of size 0 is reported again; from a new object, with the ledger that the events report |

## Left out

- `WindowsFileLock`, `SoftFileLock`, forced release and `__del__` in `tools/filelock.py`; a forced release breaks the counting on purpose.
- Clocks: a timeout is a choice made at each attempt, and silence at emrun's server is a choice made at each tick.
- Several threads inside the process of `UnixFileLock`: the threads are modelled apart, with one critical section as one step.
- `force` and `erase` in `tools/cache.py`, and creators that ask for their own name.
- Generators that take locks themselves, file names that end in `.lock`, and directories inside the cache directory.
- CachedFiles.NoDeadlock: says that some process can always move, not that each one eventually does; the file lock polls without fairness.
- Files, sockets, headers and browser processes in `emrun.py`, with its file dumps; texts are sequences of bytes, so the UTF-8 step is not modelled.
- EmrunMessages.ReceivedExactlyWithoutPercentU: covers messages as the page writes them; Python's `int` also reads numbers with spaces, signs and underscores, which no page sends, and the model does not read underscores.
- A whole emrun session with a server that serves on after an exit; `EmrunWebServers.HTTPWebServer.DoPost` covers that option for one post.
- EmrunExit.ReliableExit: the exit post is synchronous in the page, so what the page does after it is not modelled.
- JSON and WebAssembly sections: functions, addresses and the text of the mappings are inputs.
- EmpathScan.FunctionSource: assumes that indices in the map are in range of its tables and that functions do not start at address 0; so do EmpathProgram.FindSources and EmpathProgram.Split.
- `normalize_path` on Windows, and warnings of `tools/empath-split.py`.
- `SharedArrayBuffer` growth in `src/audio_worklet.js`: a grown buffer shows the same memory, so views are not made again in the model.
- AudioWorklets.WasmAudioWorkletProcessor.Process: takes the asserted bounds as preconditions, every channel as long as the render quantum, parameters numbered from 0 without gaps, a 16-byte-aligned stack pointer, and the 32-bit layout of the descriptors; a sample is its 32-bit pattern.
- Rounding in `src/gl-matrix.js`, and its operations that need roots or angles; partly overlapping views of one buffer: two arrays are the same or apart.
- Stack watermarks and drawing in `src/memoryprofiler.js`.
