# Verified model of the EGL external platform for Wayland

This project models the parts of the library in which several threads, a compositor and a driver share
state, and proves what those parts are for.

- **A window surface and its two worker threads.** `FrameSync` is the hand-over of frames between the
  swapping thread and the damage thread, statement by statement, with one program counter for each and
  every interleaving. `StreamImages` is the life of the stream images under implicit sync, with release
  callbacks in flight. `ExplicitSync` is the bookkeeping of acquire and release points. `StreamContext` and
  `ExplicitContext` hold the same operations as they are written, fields updated in place and loops over
  lists, each proved equal to the function the proofs over runs rest on.
- **Locks and counts across hooks.** `LockOrder` proves that threads whose critical sections nest upwards in
  rank, and use shared data under its guard, neither deadlock nor race; `HookLocks` writes down the sections of
  the hooks and of the worker threads and proves that they do. `SurfaceRefs` is the reference counts of a display and of all its surfaces while any
  number of threads create, swap, destroy, terminate, initialise and tear down. `InitCounts` is nested
  initialisation of displays over a device, with the driver calls it leads to.
- **Feedback and formats.** `FormatSets`, `DmabufFeedback` and `ModifierChoice` go from the events of
  `zwp_linux_dmabuf_feedback_v1` (linux-dmabuf-v1) to the modifiers a stream is created with and to the PRIME
  decision.
- **Smaller algorithms.** `ConfigAttribs` rewrites config requests and reports (section 3.4.1 of EGL 1.5),
  `FindExtension` searches extension lists, and `PresentFeedback` counts presentation feedbacks.

`Seqs` has the list operations these share. `dafny verify dfyconfig.toml` checks everything.

Concurrent code is a transition system whose steps are the statements that touch shared state. Sequential
code is a class or a method with a specification function. What the driver, the kernel and the compositor
answer is a parameter of the step or of the call, limited only by what their extensions promise: a stream
offers images it owns; producing a frame bumps the producer counter and signals the new-frame sync; a failed
swap produces nothing; after `wl_buffer_destroy` no new callback starts; the compositor answers a feedback
request once. Memory allocation succeeds.

## Where the code does not meet the property

For each of these the model keeps the code as it is, a lemma gives an input, and another says exactly when
the property holds.

- A failed reallocation joins the buffer-release thread (`src/wayland-eglsurface.c:2377`, which reaches lines 2095-2098).
  If an image is attached then, destroying the surface reaches its final assertion with that image in the list:
  `StreamImages.DestroyEmptiesIff`, `StreamImages.FailedReallocStrands`.
- A damage thread that leaves because a stream call failed leaves the next swap waiting for good:
  `FrameSync.SwapReturnsIff`, `FrameSync.AbandonedReachable`.
- The number of pending images stays within its bound if and only if every release check that met three of them
  returned one; if releases fail there is no bound: `ExplicitSync.BoundedIffSucceeds`, `ExplicitSync.PileUp`.
- A round of feedback with neither a main device nor a tranche keeps the tranches of the round before:
  `DmabufFeedback.RoundStoredIff`, `DmabufFeedback.BareRoundKeepsTranches`.
- When the driver refuses to terminate during global teardown, a device stays counted with no display left;
  freeing the device asks the driver once more: `InitCounts.TearDownOneCounts`, `InitCounts.RefusedTeardownCounts`,
  `InitCounts.TeardownSettles`.
- An `eglInitialize` that fails late leaves the display initialised if the driver refuses to terminate too:
  `InitCounts.FailedInitialize`, `InitCounts.FailedInitializeLingers`.
- Hooks that create a surface without looking at `initCount` (pbuffer, stream-producer and export surfaces) can put
  one on a display that is not initialised, where another display keeps the driver initialised. Teardown frees every
  surface if and only if it finds the display initialised or its list empty: `SurfaceRefs.TeardownEmptiesIff`,
  `SurfaceRefs.TeardownFreesAllIff`, `SurfaceRefs.StraySurvivesTeardown`.
- The device pointer that teardown clears is used afterwards by exactly the hooks that initialise the display or create
  a surface without looking at `initCount`, and get the display mutex only then: `SurfaceRefs.ClearedDeviceUsedIff`,
  `SurfaceRefs.LateInitialize`.
- An extension name that stands twice back to back is found although it is no token: `FindExtension.RightIff`,
  `FindExtension.GluedNameFound`.
- A dispatch of presentation feedbacks that fails after it brought an event makes the next call's assertion fail:
  `PresentFeedback.AssertHoldsIff`, `PresentFeedback.FailedDispatchStrands`.

## Model

| member | source | states |
|---|---|---|
| FrameSync.RunPreservesInv | src/wayland-eglsurface.c:317-456 | every interleaving of the damage thread with swaps, flushes and shutdowns, failing calls included, keeps the counter, lock, wakeup and finish invariants |
| FrameSync.StepPreservesInv | src/wayland-eglsurface.c:317-456 | each statement of either thread keeps them |
| FrameSync.DamagePreservesInv | src/wayland-eglsurface.c:326-395 | so does each statement of the damage thread |
| FrameSync.SwapPreservesInv | src/wayland-eglswap.c:111-148 | so does each statement of a swap: wait loop, driver call, frame count |
| FrameSync.FinishPreservesInv | src/wayland-eglsurface.c:431-456 | so does each statement of a flush or shutdown, and the set-up after it |
| FrameSync.NoLostWakeup | src/wayland-eglsurface.c:326-395 | whenever the damage thread sleeps with the sync unsignaled, producer frame, finished, processed and damage calls agree, no swap sleeps on an unprocessed frame, and no join waits for it unless its signal failed |
| FrameSync.FrameCounters | src/wayland-eglsurface.c:332-382 | processed <= finished <= stream frames <= produced + 1, at most one frame outstanding, counters equal inside the driver's swap, one damage call per processed frame |
| FrameSync.FlushDrained | src/wayland-eglsurface.c:342-355 | when a flush gets to its join and the thread is gone without a failed call, every produced frame was sent |
| FrameSync.FlushRequestDrains | src/wayland-eglsurface.c:431-456 | from any reachable idle state, after a flush request and in every continuation up to its join, a thread that has ended without a failed call has sent every frame produced before the request |
| FrameSync.FlushRequestJoins | src/wayland-eglsurface.c:440-450 | such a flush joins: beside its signalled join the thread has boundedly many steps, is never stuck, and then every frame produced before was sent unless a call failed |
| FrameSync.ShutdownRequestEnds | src/wayland-eglsurface.c:351-364 | after a shutdown request the thread's next look at the shutdown flag ends it within two steps, without waiting for the drain and without another damage call |
| FrameSync.FailedCallEnds | src/wayland-eglsurface.c:326-395 | from any reachable state, a failing call of the damage thread is its last: in every continuation on that stream it sends nothing more, does not sleep or start another round, and can step until it has exited |
| FrameSync.DriverReturns | src/wayland-eglswap.c:133-148 | a swap in the driver comes back, and frames are counted exactly if the stream got one |
| FrameSync.NextStreamStartsOver | src/wayland-eglsurface.c:398-428 | after a join the next stream starts with zero counters, no request and a running thread |
| FrameSync.DamageDecreases | src/wayland-eglsurface.c:326-395 | every step of the damage thread, failing ones included, lowers a non-negative measure |
| FrameSync.DamageRunBounded | src/wayland-eglsurface.c:326-395 | so the thread takes at most that many steps before the application acts, and leaves the application's own state alone |
| FrameSync.WaitingMeansEnabled | src/wayland-eglsurface.c:365-395 | while the application joins the thread or sleeps for a frame, a thread that is still there can take a step |
| FrameSync.JoinReturns | src/wayland-eglsurface.c:431-456 | a signalled join always returns: bounded steps, never stuck, and after a flush without failures with every produced frame processed |
| FrameSync.SwapCanReturn | src/wayland-eglswap.c:111-119 | from a wait whose frame is not abandoned there is a schedule that brings the swap to the driver |
| FrameSync.AbandonedForever | src/wayland-eglswap.c:111-119 | once the thread has given up a frame, the swap waiting for it never leaves its loop |
| FrameSync.SwapReturnsIff | src/wayland-eglswap.c:111-119 | a waiting swap can return if and only if the damage thread has not exited, or failed on its way out, with a frame unprocessed |
| FrameSync.WaitRunEnds | src/wayland-eglswap.c:111-119 | every schedule of a waiting swap without spurious wakeups, whatever the calls' outcomes, has boundedly many steps, and where nobody can go on the frame is abandoned |
| FrameSync.GoodWaitReturns | src/wayland-eglswap.c:111-119 | if no call fails in such a schedule, no frame is abandoned and it ends only with the swap out of its loop |
| FrameSync.AbandonedReachable | src/wayland-eglsurface.c:329-364 | such a state is reached when the thread's first stream call fails |
| StreamImages.StepTouchesLiveImages | src/wayland-eglsurface.c:1061-1101 | no step of a reachable state, and no release callback in flight, touches a freed image |
| StreamImages.StepKeepsInv | src/wayland-eglsurface.c:582-671 | every step, in every interleaving of callbacks with reallocation and destruction, keeps ownership, history and phase invariants of all images |
| StreamImages.DestroyOne | src/wayland-eglsurface.c:582-623 | destroying an image marks it if attached; otherwise it frees it once, destroys its buffer, unlinks it from both lists, and touches no other image |
| StreamImages.DestroyEachDestroys | src/wayland-eglsurface.c:651-666 | the image loop does that to each image of the list, exactly once, keeping the order of what stays |
| StreamImages.OneOwner | src/wayland-eglsurface.c:1315-1450 | in a live context every image in the list is in exactly one of: owned by the stream, acquired, attached; images being destroyed are attached only |
| StreamImages.AttachedInAcquireOrder | src/wayland-eglsurface.c:260-272 | images are attached in the order in which they were acquired |
| StreamImages.CommitAttachesOldest | src/wayland-eglsurface.c:260-292 | the buffer attached by a commit is that of the image acquired first among those waiting; that image alone goes to the compositor, no other image changes |
| StreamImages.AcquireOutcome | src/wayland-eglsurface.c:1308-1450 | every acquire is counted; a successful one puts the image last in line, a failing one gives it back and leaves the surface as it was |
| StreamImages.RemovalRemoves | src/wayland-eglsurface.c:1459-1478 | a removed image is neither offered nor acquired nor current any more; it is freed unless attached, and then marked; no other image changes |
| StreamImages.ReleaseGivesBack | src/wayland-eglsurface.c:1061-1101 | a release frees an image waiting for destruction; any other one is given back once and may be offered again; no other image changes |
| StreamImages.AcquiresMatched | src/wayland-eglsurface.c:1079-1098 | each acquire is matched by one release or by destroying the image, or is still held; an image is freed at most once, and so is its buffer |
| StreamImages.ReallocDropsNothing | src/wayland-eglsurface.c:1867 | acquiredImages is empty whenever a new context reinitialises it |
| StreamImages.TeardownAsserts | src/wayland-eglsurface.c:2662-2668 | the assertion that an image with a buffer is attached holds when the buffer loop runs, and the last loop defers nothing |
| StreamImages.FreeRestKeepsInv | src/wayland-eglsurface.c:2676-2684 | after the join the last loop frees every remaining image |
| StreamImages.DestroyEmptiesIff | src/wayland-eglsurface.c:2650-2688 | in every interleaving the list is empty at the final assertion if and only if the release thread runs or no image is attached when destruction begins |
| StreamImages.HealthyTeardown | src/wayland-eglsurface.c:2585-2696 | if no context creation fails, every image ever added is freed exactly once and the list ends empty, over all runs |
| StreamImages.FailedReallocStrands | src/wayland-eglsurface.c:2349-2393 | from any live state with an attached image, a failed reallocation leads to a destroyed surface with that image still listed |
| StreamImages.AttachedReachable | src/wayland-eglsurface.c:260-272 | such a live state is reached by one frame |
| StreamContext.Context.DestroyStreamImage | src/wayland-eglsurface.c:582-623 | the fields change as one destroy of the model |
| StreamContext.Context.DestroyAllImages | src/wayland-eglsurface.c:651-666 | the loop over the list while it shrinks equals the model's sweep |
| StreamContext.Context.RemoveImage | src/wayland-eglsurface.c:1459-1478 | the listed image with that name is destroyed, any other name changes nothing |
| StreamContext.Context.BufferReleased | src/wayland-eglsurface.c:1061-1101 | a release clears attached; a deferred destruction is completed, and only otherwise the image goes back to the stream |
| StreamContext.Context.PopAcquiredImage | src/wayland-eglsurface.c:1479-1493 | the oldest acquired image is taken off the list, or none |
| StreamContext.Context.StripAttachedBuffers | src/wayland-eglsurface.c:2650-2671 | the buffer loop destroys each buffer once, clears attached, and its assertion holds in every round |
| ExplicitSync.StepKeepsInv | src/wayland-eglsurface.c:190-242 | every add, acquire, removal, swap and reallocation keeps the explicit-sync invariant, whether stream events, fence export or import, wait or release fail |
| ExplicitSync.PendingBound | src/wayland-eglsurface.c:1178-1199 | over all runs: at most 2 images pending after a swap and 3 at the check, plus the checks of this context that waited in vain; with at most one of those, or four images, never more than MAX_IMAGES |
| ExplicitSync.SuccessKeepsBound | src/wayland-eglswap.c:149-151 | if waits and releases succeed when three images are pending, no check waits in vain and at most 2 images are pending after each step, over any number of reallocations |
| ExplicitSync.BoundedIffSucceeds | src/wayland-eglsurface.c:1216-1262 | from any reachable state with at most 2 images pending, no later state of a run has more if and only if each check that met three pending images had its wait signalled and its release taken |
| ExplicitSync.PileUp | src/wayland-eglsurface.c:1235-1262 | when each signalled image's release fails, any number of pending images is reached |
| ExplicitSync.AcquirePointsConsecutive | src/wayland-eglsurface.c:215-242 | the acquire points sent over a run are exactly 1, 2, 3, ... |
| ExplicitSync.ReleaseConservation | src/wayland-eglsurface.c:223-225 | for each image the release points sent are 1, 2, ..., releasePoint, and it was returned at each of them once, except the last while it is pending |
| ExplicitSync.ReturnedOnlySignaled | src/wayland-eglsurface.c:1216-1262 | over every run, each image returned was reported as signalled by the kernel before, at just the point it is returned at |
| ExplicitSync.CheckChanges | src/wayland-eglsurface.c:1235-1262 | a check returns at most the image whose point was reported, and leaves every other image, owner and list alone |
| ExplicitSync.FramesInAcquireOrder | src/wayland-eglsurface.c:260-309 | acquired images queue up in order, and a frame sends the first one's fence, both points, buffer and commit, in this order |
| ExplicitSync.RemovalEmpties | src/wayland-eglsurface.c:1459-1478 | a removed image is gone at once; a reallocation leaves no image and none pending |
| ExplicitSync.UnsentImageIsLost | src/wayland-eglsurface.c:203-216 | from every state the invariant allows, a frame whose fence cannot be exported or imported sends nothing and drops its image: in every continuation, until it is removed or the context reallocated, nobody holds it and it gets no point and no return |
| ExplicitSync.ProtocolObeyed | src/wayland-eglsurface.c:244-309 | every run's requests satisfy linux-drm-syncobj-v1: fence imported before an acquire point is sent, points increase, a commit carries a buffer with both points or nothing, no buffer is recommitted while pending, none is returned twice |
| ExplicitSync.OneOwner | src/wayland-eglsurface.c:1160-1268 | every image has one owner: stream, acquired list, compositor, or nobody once its points could not be sent |
| ExplicitSync.ReturnedKeeps | src/wayland-eglsurface.c:1246-1262 | returning a pending image keeps the invariant and shortens the pending list by one |
| ExplicitContext.Context.SendExplicitSyncPoints | src/wayland-eglsurface.c:190-242 | a failed export or import sends nothing and changes no point; otherwise both points are sent and stepped |
| ExplicitContext.Context.SendDamageEvent | src/wayland-eglsurface.c:260-309 | the popped image is attached and committed with its points, or nothing is committed; failing stream events pop nothing |
| ExplicitContext.Context.GatherPending | src/wayland-eglsurface.c:1178-1199 | the arrays receive the pending images in list order with their points, within bounds; the size assertion is reached exactly with more than MAX_IMAGES pending |
| ExplicitContext.Context.CheckReleasePoints | src/wayland-eglsurface.c:1160-1268 | the image whose point the wait reported is returned at that point, if its release goes through; the wait has no limit exactly with three or more pending |
| ExplicitContext.Context.SwapBuffers | src/wayland-eglswap.c:144-152 | one frame keeps the invariant, hence the bound on pending images |
| LockOrder.NestedIsOrdered | src/wayland-eglswap.c:61-187 | a program whose critical sections nest upwards in rank, with every use of shared data inside a section of its guard, acquires and waits upwards only and holds the guard of what it touches at every step |
| LockOrder.StepKeepsInv | src/wayland-eglsurface.c:365-391 | steps keep every thread in order and its data guarded, mutexes exclusive, and every awaited announcement made or still to come |
| LockOrder.NoRace | src/wayland-eglswap.c:111-119 | two threads about to touch shared data hold different guards, and no two wait for frames of the same surface |
| LockOrder.SomeThreadSteps | src/wayland-eglsurface.c:365-391 | if a thread has not finished, some thread can step: waiting never closes a cycle |
| LockOrder.EveryRunCompletes | src/wayland-eglsurface.c:365-391 | every interleaving ends after as many steps as there are operations, and stops only when all threads have finished |
| HookLocks.HooksNested | src/wayland-eglsurface.c:2585-2696 | every hook, those on the external lock alone included, takes locks and joins threads in the order external lock, display mutex, surface lock, worker threads, mutexFrameSync, streamImagesMutex, and uses the display list, the display, the surface context, the frame counter and the image list under their locks only; a swap waits for a frame with the surface locked |
| HookLocks.HookDoesItsWork | src/wayland-eglswap.c:58-187 | every hook does what it has to between its locks: it counts itself, looks at the display, works on the surface, waits for its frames, joins each worker thread it ends and sweeps the images |
| HookLocks.DamageRoundsDo | src/wayland-eglsurface.c:365-391 | the damage thread compares the frame counter in every round and handles the image events of its frames |
| HookLocks.WorkersNested | src/wayland-eglsurface.c:365-391 | the worker threads take only the two mutexes that rank above waiting for them, and guard the frame counter and the image list as the hooks do |
| HookLocks.WorkerAnnounces | src/wayland-eglsurface.c:365-395 | a damage thread announces exactly the frames it processes, one by one, and its end; a release thread its end |
| HookLocks.UnderSurfaceLockNested | src/wayland-eglswap.c:96-166 | so does everything a swap does under the surface lock, reallocation included |
| HookLocks.TerminateDisplaysNested | src/wayland-egldisplay.c:1917-1945 | so does global teardown of any number of displays and surfaces |
| HookLocks.NoDeadlock | src/wayland-eglsurface.c:439-455 | any number of hooks beside the worker threads they wait for never deadlock, in any interleaving |
| HookLocks.NoDataRace | src/wayland-eglswap.c:96-187 | in every interleaving of any hooks and workers, whoever is about to touch shared data holds its lock, no two threads are about to touch the same data, and no two swaps wait for frames of one surface |
| SurfaceRefs.TakeKeepsInv | src/wayland-eglswap.c:58-187 | each statement of a swap, creation, destroy, termination, initialisation (late failures included) or teardown keeps the reference-count invariant of every surface and of the display, beside any other threads |
| SurfaceRefs.CountLaw | src/wayland-eglsurface.c:2551-2583 | in every reachable state each surface's refCount is its creation reference plus the swaps of it in flight, and the display's is its list reference plus the hooks in flight on all surfaces |
| SurfaceRefs.NothingUsedAfterFree | src/wayland-eglswap.c:70-187 | no thread, the walk of terminate and teardown included, touches a freed surface or a freed display, and nothing is freed twice |
| SurfaceRefs.SwapOutlastsContext | src/wayland-eglsurface.c:2595-2601 | a swap past the isDestroyed check has the surface's context, and no other thread's step takes it away before that swap unlocks the surface |
| SurfaceRefs.NothingLeaks | src/wayland-eglsurface.c:3155-3167 | with no call in flight a surface was freed exactly once if it is off the list and not otherwise, a display likewise; after termination and teardown the list is empty unless a surface was added to an uninitialised display |
| SurfaceRefs.HookAchieves | src/wayland-eglsurface.c:3128-3152 | beside any other threads, a hook that meets no failure takes boundedly many steps and, when it comes to unlock the display, has the new surface on the list, the display initialised, the destroyed surface off the list without context and creation reference, or the terminated display without surfaces |
| SurfaceRefs.DestroyFrees | src/wayland-eglsurface.c:2585-2696 | after a destroy hook on a listed surface of an initialised display the surface stays off the list in every continuation, and with no call in flight it was freed exactly once |
| SurfaceRefs.LateFailureTerminates | src/wayland-egldisplay.c:1688-1698 | an eglInitialize whose set-up fails late goes on as a terminate |
| SurfaceRefs.RefusedChangesNothing | src/wayland-eglsurface.c:3136-3146 | a hook that does not find what it needs, or is refused, changes nothing and unlocks the display |
| SurfaceRefs.FailedSwapUndone | src/wayland-eglswap.c:85-90 | a swap that fails before it locks the surface leaves every surface as it was |
| SurfaceRefs.SwapRenders | src/wayland-eglswap.c:58-187 | beside any other threads, a swap of a listed surface of an initialised display that meets no failure renders under the surface lock with the context alive, unless the surface was destroyed meanwhile |
| SurfaceRefs.TeardownEmptiesIff | src/wayland-egldisplay.c:905-927 | in every run from the initCount test of a teardown on, beside any other threads, the surface list is empty once devDpy is cleared if and only if the test finds the display initialised or the list empty |
| SurfaceRefs.TeardownFreesAllIff | src/wayland-egldisplay.c:1917-1945 | so after that teardown, with no call in flight, every surface ever made was freed exactly once if and only if that held at the test |
| SurfaceRefs.ClearedDeviceUsedIff | src/wayland-egldisplay.c:1929-1936 | in every reachable state after devDpy is cleared, the statements that use it are exactly those of an eglInitialize or of a creation that does not look at initCount; no swap, destroy or termination is among them |
| SurfaceRefs.LateInitialize | src/wayland-egldisplay.c:1522-1560 | a run in which an eglInitialize waits for the mutex through a teardown and then uses the cleared pointer |
| SurfaceRefs.TornListStays | src/wayland-egldisplay.c:1917-1945 | once teardown has cleared the device, no run changes the list, so what is on it is never freed |
| SurfaceRefs.StraySurvivesTeardown | src/wayland-eglsurface.c:3011-3056 | a run in which a surface added before initialisation outlives the display |
| FormatSets.FormatSet.AddModifier | src/wayland-egldisplay.c:198-223 | a modifier is appended unless the format has it |
| FormatSets.FormatSet.Add | src/wayland-egldisplay.c:225-251 | the loop finds the format's entry or appends one, and adds the modifier there |
| FormatSets.AddAllGroups | src/wayland-egldisplay.c:198-251 | adding pairs one at a time gives each format once in order of first mention, with its modifiers once in order of first mention |
| FormatSets.SetStaysDistinct | src/wayland-egldisplay.c:198-251 | formats stay distinct, and modifiers stay distinct for each format |
| FormatSets.SetContents | src/wayland-egldisplay.c:198-251 | a set holds a format, and a modifier for it, exactly if that pair was added |
| DmabufFeedback.Feedback.CheckResetTranches | src/wayland-egldisplay.c:146-159 | stored tranches are dropped exactly if the last round was done |
| DmabufFeedback.Feedback.OnFormatTable | src/wayland-egldisplay.c:413-438 | the table becomes that of the event, or empty if it cannot be mapped, without dropping tranches |
| DmabufFeedback.Feedback.OnMainDevice | src/wayland-egldisplay.c:300-316 | the main device is stored after the reset check |
| DmabufFeedback.Feedback.OnTargetDevice | src/wayland-egldisplay.c:318-329 | the tranche in progress takes the device |
| DmabufFeedback.Feedback.OnTrancheFlags | src/wayland-egldisplay.c:331-345 | flags only accumulate in the tranche in progress |
| DmabufFeedback.Feedback.OnTrancheFormats | src/wayland-egldisplay.c:347-374 | after the reset check the tranche in progress grows by the entries the event names |
| DmabufFeedback.Feedback.AddEntries | src/wayland-egldisplay.c:359-373 | the loop adds the entries of the in-range indices in order and skips the others |
| DmabufFeedback.Feedback.OnTrancheDone | src/wayland-egldisplay.c:376-399 | the tranche in progress is appended and blanked |
| DmabufFeedback.Feedback.OnDone | src/wayland-egldisplay.c:401-408 | the round is marked done and unprocessed |
| DmabufFeedback.TrancheStored | src/wayland-egldisplay.c:318-399 | the events of a tranche store exactly what they say: last device, any of the flags, set of in-range entries |
| DmabufFeedback.RoundStoredIff | src/wayland-egldisplay.c:289-408 | after one round the stored tranches are the round's, in order, if and only if it names a main device, has a tranche, or nothing was stored |
| DmabufFeedback.LatestRoundStored | src/wayland-egldisplay.c:289-408 | after any number of rounds, each naming a main device or having a tranche as in version 6, the stored tranches are exactly those of the latest one, under the last table sent |
| DmabufFeedback.TableStored | src/wayland-egldisplay.c:413-438 | after any events the stored table is the one the last table event brought, empty if that could not be mapped or there was none |
| DmabufFeedback.TrancheContents | src/wayland-egldisplay.c:289-438 | from events to contents: after any conforming rounds a stored tranche holds a format with a modifier if and only if an index its events list lies in the table in force and selects that entry, and has the flags raised there |
| DmabufFeedback.ResetFindsBlank | src/wayland-egldisplay.c:289-298 | at every point of every sequence of rounds, inside a tranche too, a reset is due only while the tranche in progress is blank, so a reset frees no formats still in use |
| DmabufFeedback.BlankBetweenTranches | src/wayland-egldisplay.c:376-399 | wherever a header or a whole tranche ends the tranche in progress is blank |
| DmabufFeedback.BareRoundKeepsTranches | src/wayland-egldisplay.c:289-298 | a round without main device and tranches keeps older tranches |
| ModifierChoice.GetFormatSetForDev | src/wayland-eglsurface.c:1655-1673 | the nested loops find the first tranche of the device that holds the format |
| ModifierChoice.FirstMatch | src/wayland-eglsurface.c:1655-1673 | that tranche matches and none before it does |
| ModifierChoice.Surface.ChooseModifiers | src/wayland-eglsurface.c:1776-1833 | no config gives no modifiers, an unknown format an error, a PRIME surface exactly the linear modifier whatever the feedback, and otherwise the set in use for the version, for the device or else the render node |
| ModifierChoice.Surface.UpdatePrimeState | src/wayland-eglsurface.c:2299-2347 | before version 6 the display's state; then off if a sampling tranche names an own node, on for the first foreign sampling device, else unchanged |
| ModifierChoice.ChoiceFollowsLatestRound | src/wayland-eglsurface.c:1793-1833 | from events to modifiers, for the surface's own feedback and for the display's default: the list is exactly what the first tranche of the latest round offers for the device and format, else for the render node, else empty |
| ModifierChoice.ChoiceFollowsAnnouncements | src/wayland-egldisplay.c:263-278 | before version 4 the list is exactly the modifiers announced for the format, each once in order |
| ModifierChoice.FirstSamplingNamed | src/wayland-eglsurface.c:2322-2330 | the first sampling device is that of a sampling tranche before which all sampling tranches name no device |
| ModifierChoice.PrimeFollowsLatestRound | src/wayland-eglsurface.c:2299-2347 | from events to PRIME: offload exactly if the latest round samples from other devices and not from an own node; without a usable sampling tranche the decision stays |
| ModifierChoice.StreamFollowsLatestRound | src/wayland-eglsurface.c:1776-1833 | from events to the stream, for every history of rounds: exactly the linear modifier if the latest round is sampled by other devices only, exactly what it offers the device if an own node samples, and by the earlier decision otherwise |
| ConfigAttribs.CountAttribs | src/wayland-egldisplay.c:1759-1765 | the first loop counts the pairs before EGL_NONE and tells whether one names EGL_SURFACE_TYPE |
| ConfigAttribs.RewriteInPlace | src/wayland-egldisplay.c:1782-1795 | the second loop rewrites exactly the surface-type values with a window bit, in bounds |
| ConfigAttribs.ChooseConfigAttribs | src/wayland-egldisplay.c:1759-1799 | the list sent, for NULL too, is the rewritten request or the request with the stream bit appended, and fills its array exactly |
| ConfigAttribs.ReportedAttrib | src/wayland-egldisplay.c:1831-1840 | any attribute but the surface type is reported as the driver gave it |
| ConfigAttribs.ReportedBits | src/wayland-egldisplay.c:1831-1840 | the reported surface type has the window bit exactly if the driver's has the stream bit, and every other bit as the driver gave it |
| ConfigAttribs.MaskCarriesOver | src/wayland-egldisplay.c:1784-1793 | a driver config meets a rewritten mask exactly if its reported surface type meets the original, EGL_DONT_CARE included |
| ConfigAttribs.AttrCarriesOver | src/wayland-egldisplay.c:1784-1793 | the same for each pair of a list, so also for repeated attributes |
| ConfigAttribs.DefaultCarriesOver | src/wayland-egldisplay.c:1795-1798 | the appended stream bit is met exactly if the reported surface type meets the default window bit |
| ConfigAttribs.SelectionCarriesOver | src/wayland-egldisplay.c:1740-1843 | for every list and config: the driver selects it for the rewritten list exactly if what is reported meets the request |
| InitCounts.DeviceDpy.Initialize | src/wayland-egldevice.c:131-161 | the driver is called for the first user only, and a refusal changes no count |
| InitCounts.DeviceDpy.Terminate | src/wayland-egldevice.c:163-174 | the driver is called for the last user only, and a refusal changes no count |
| InitCounts.DisplayObject.Initialize | src/wayland-egldisplay.c:1522-1704 | nested initialisation counts or is capped; a failing set-up terminates again |
| InitCounts.DisplayObject.Terminate | src/wayland-egldisplay.c:905-923 | nested termination counts down; teardown ignores count and refusal |
| InitCounts.ApplyKeepsInv | src/wayland-egldisplay.c:1522-1704 | each hook call, failed ones included, keeps the counting law for every device |
| InitCounts.NestedCounts | src/wayland-egldevice.c:131-174 | over every run a device's initCount is the number of its initialised displays, the driver is initialised exactly while there is one, driver calls strictly alternate, and without useInitRefCount a display's count is at most 1 |
| InitCounts.NestingBalances | include/wayland-egldisplay.h:154-166 | a display has to be terminated as often as it was initialised with useInitRefCount, once without; only then the device loses its user |
| InitCounts.InitializeAnswers | src/wayland-egldisplay.c:1536-1559 | after any run eglInitialize is true if and only if the display is initialised already, or its set-up succeeds and the driver agrees unless another display has it running; then the display is initialised |
| InitCounts.TerminateAnswers | src/wayland-egldisplay.c:905-923 | after any run eglTerminate is false if and only if the driver refuses the last termination of the device's last user, and then no display changes; a true answer to a last one ends its use |
| InitCounts.FailedInitialize | src/wayland-egldisplay.c:1688-1698 | a failed eglInitialize leaves both counts alone, except exactly when set-up failed, the driver was started for it and refuses to terminate |
| InitCounts.FailedInitializeLingers | src/wayland-egldisplay.c:1688-1698 | a run to such a display: set-up fails and the driver refuses to terminate |
| InitCounts.TearDownOneCounts | src/wayland-egldisplay.c:918-923 | teardown of one display keeps the law if and only if it was not the device's last user or the driver agrees |
| InitCounts.RefusedTeardownCounts | src/wayland-egldisplay.c:918-923 | a run after which one refused teardown leaves the device counted with no display |
| InitCounts.TeardownSettles | src/wayland-egldevice.c:113-129 | after any run, tearing all displays down and freeing a device keeps driver calls alternating, asks the driver again exactly if it refused, and leaves it initialised only if it refused twice |
| FindExtension.FindExtension | src/wayland-eglutils.c:38-59 | wherever the loop ends, it returns what a scan over the occurrences decides |
| FindExtension.EmptyNameEnds | src/wayland-eglutils.c:44-55 | the empty name succeeds at once where a token may end, and otherwise the next start is the same one, so the loop does not move |
| FindExtension.TokenListed | src/wayland-eglutils.c:55 | going on behind an occurrence skips no token |
| FindExtension.FoundIff | src/wayland-eglutils.c:38-59 | a name without spaces is found if and only if it is a token, or two occurrences of it are glued together with the end of a token behind |
| FindExtension.RightIff | src/wayland-eglutils.c:38-59 | the answer is right if and only if a glued pair, where there is one, comes with a real token |
| FindExtension.RightWithoutRepetition | src/wayland-eglutils.c:38-59 | in a list that never has the name twice back to back it is found exactly if it is a token |
| FindExtension.GluedNameFound | src/wayland-eglutils.c:49 | FOO is found in FOOFOO |
| PresentFeedback.Surface.Discarded | src/wayland-eglswap.c:325-345 | one answer leaves the flight and lands, or is superseded |
| PresentFeedback.Surface.PostPresent | src/wayland-eglswap.c:398-431 | a request is in flight, or lands at once without the protocol, or fails without being counted |
| PresentFeedback.Surface.ProcessPresentationFeedbacks | src/wayland-eglsurface.c:2144-2175 | what landed is handed out and cleared, or kept when the dispatch fails |
| PresentFeedback.Surface.WaitAllPresentationFeedbacks | src/wayland-eglsurface.c:2110-2142 | the loop dispatches until nothing is in flight, then hands out what landed |
| PresentFeedback.Conservation | src/wayland-eglswap.c:325-345 | over every run, past failing assertions too, the law stays that requests equal in flight + landed + handed out + superseded, none of them negative |
| PresentFeedback.EachEventHandedOutOnce | src/wayland-eglsurface.c:2110-2175 | over any run from a state with nothing outstanding, the numbers returned so far and by this call add up to exactly the answers taken, or without the protocol to the presents; a wait returns only when every present with a feedback was answered |
| PresentFeedback.WaitLoopKeepsInv | src/wayland-eglsurface.c:2120-2134 | waiting ends with nothing in flight, or after an error, or goes on with something in flight |
| PresentFeedback.WaitReturns | src/wayland-eglsurface.c:2120-2142 | once every request in flight is answered and nothing failed, it returns the number of answers that count |
| PresentFeedback.AssertHoldsIff | src/wayland-eglsurface.c:2121 | the assertion that nothing landed holds at the next call if and only if no call failed after an event was taken |
| PresentFeedback.FailedDispatchStrands | src/wayland-eglsurface.c:2154-2162 | one landed event and a failed dispatch make the next assertion fail |

## Left out

- FrameSync.SwapReturnsIff: says that a schedule exists; that every schedule ends is FrameSync.WaitRunEnds.
- FrameSync.WaitRunEnds: leaves spurious wakeups of the condition variable out, since any number may come; throttling by frame callbacks is not modelled.
- FrameSync.JoinReturns: a stream that never answers a query is outside the model; every driver call returns.
- FrameSync.FrameCounters: counters are unbounded, so 64-bit wrap-around is not modelled.
- StreamImages.StepKeepsInv: the failure ladders of acquiring an image count as one failing acquire that gives the image back, and a failing image creation adds none.
- ExplicitSync.OneOwner: an image popped before its points could not be sent is owned by nobody until its context ends, as in the code (ExplicitSync.UnsentImageIsLost).
- ExplicitSync.PendingBound: timeline points are unbounded, so the split into two 32-bit words and 64-bit wrap-around are not modelled.
- HookLocks.NoDeadlock: covers the locks the library takes itself, not the driver's re-entry through makeCurrent during reallocation; hooks are programs of sections rather than their full bodies, and that the damage thread's own wait for a frame or a request ends is FrameSync.NoLostWakeup and FrameSync.JoinReturns.
- HookLocks.NoDataRace: covers the data that have a lock of their own; popping an acquired image, isDestroyed and the damage thread's flags, which the code touches without one, are not among them, nor is what runs when the other thread is joined or not started.
- SurfaceRefs.CountLaw: other displays meet this one only at the external lock, so what happens there is a single statement of the model; the library's displays are this one, each in turn.
- SurfaceRefs.NothingUsedAfterFree: resizing and window-destruction callbacks, the surface query and the present exports use a surface without a reference and are their caller's responsibility.
- SurfaceRefs.TakeKeepsInv: a hook that would use the cleared device pointer (SurfaceRefs.ClearedDeviceUsedIff) fails in the model and goes on; counts are parts of a shared value, since any statement of another thread may come between two of these.
- InitCounts.NestedCounts: hook calls are atomic, since no single lock covers a device's count.
- InitCounts.DisplayObject.Terminate: what else termination destroys (surfaces, queues, protocol objects) is not part of this module.
- InitCounts.TeardownSettles: the loop over the display list runs on values, not on list nodes.
- DmabufFeedback.LatestRoundStored: a table is a list of entries; mapping it and its file descriptor are left out.
- ModifierChoice.Surface.ChooseModifiers: the table from config sizes to DRM formats is a parameter.
- ConfigAttribs.SelectionCarriesOver: how a driver sorts matching configs is left out, and attributes other than the surface type are judged by an arbitrary predicate.
- FindExtension.FindExtension: the empty name is excluded where the source's loop does not end, which FindExtension.EmptyNameEnds tells.
- PresentFeedback.Conservation: a surface keeps or lacks the presentation protocol for its whole life.
- Threads are interleavings of steps on values: weak memory, aliasing of list nodes and scheduling are not modelled; wl_lists are sequences.
- Surfaces on stream producers and the Vulkan exports do not initialise the image lists and are left out of the image properties.
- Cross-process and inet streams, the wl_eglstream path of commits, and the server-side stream code.
- Surface creation and its failure path, which destroys a surface that is not in the list yet.
- Device discovery, choice of the platform display, hook tables, error reporting, wl_drm and handle export: plumbing.
- The contents of a display's own format set after it was terminated and initialised again: freed but not cleared in the source.
- Damage rectangles, fourcc and attribute tables: easy members only.
