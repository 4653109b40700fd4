# Verification of cuts

A Dafny model of the parts of the `cuts` Wayland compositor where memory, ordering and arithmetic can go
wrong, with proofs. `dafny verify dfyconfig.toml` checks all of it.

## What is modelled

**Reference counting of protocol objects** (`memory`, `invariant`, `counts`, `client`, and one file per group of
requests). The C heap is a map from addresses to blocks with a count and a body; a pointer is an address, and
freeing removes the address, so that using freed memory is a failed proof. Counts are judged against the
pointers actually stored: registry entries, fields, child lists, armed release callbacks, quads of the scene.
`Inv` says that every count equals the number of holders, that forward and back links agree, that the
registry and the objects agree on ids, that a callback field is set exactly when its node is listed, and that
every waiting frame id is a registered callback; `counts` spells the counts out, kind by kind. Each request
handler is a method of its own, written in the primitives of `Client` in the order of the source, and keeps
`Inv`; `step` says what each step does, `run` composes requests, page flips and scene updates into arbitrary
runs, and `trace` proves what holds along them. `orphan` is a run on which a subsurface outlives its surface, and
`desync` proves what keeps that harmless; `defer` proves the other direction, that set_sync defers a whole tree.
`account` balances the releases of buffers against the commits that replaced them, and `events` the other events
against the ids they are about, without the functions that say what each step sends.

The handlers share five arguments: a request creates (`creation`), erases (`erasure`), moves buffers
(`bufferstep`), sets a flag (`sync`) or leaves the pointers alone (`quiet`).

**Frame scheduling** (`output`): the two-buffer swapchain, pending redraws and flips of several outputs, with
the kernel's half of a page flip in the state. Pictures have version numbers, so that a lost redraw would be a
version that never reaches the screen.

**Containers and ids** (`list`, `callback`, `map`, `bitmap`, `registry`): heap-allocated nodes refined to
sequences and stacks, the walk that tolerates listeners removing themselves, and the id pools beside the
object map.

**Wire format** (`wire`, `message`, `dispatch`, `connection`): marshalling into byte arrays, reading by signature,
cutting a batch into messages and dispatching them, and the outgoing buffer with its descriptors.

**Scene** (`scene`, `history`, `quads`, `hittest`, `paint`): z slices of the layers over the linked list, what a run
of changes says about the paint order, the quads of windows in the counted heap, and hit testing against painting.

**Arithmetic and text** (`tile`, `utf8`) and the **seat daemon** (`daemon`).

Where the source does less than its names suggest, the model does what the source does, and a member states
when the expected property holds: `Commits.CommitReadsNull`, `SubsurfaceSync.SetSyncReadsNull`,
`PaintedTrees.HitTestWhole`, `SurfaceDestroy.DiscardedOnlyFirst`, `XdgShell.XdgWmBaseGetXdgSurface`, `XdgShell.XdgSurfaceGetToplevel`,
`Traces.CommitListensExactly`, `SeatDaemon.OpenKeepsShown`, `FrameSchedule.DrawsOnScreen`, `ChainedMap.PushedStack`,
`Registry.AddedMatches`, `Outgoing.FlushConserves`, `SceneOrder.LayerWithoutRaise`, `HitTest.HitTestSafe`,
`HitTest.HitsWherePainted`, `HitTest.OwnCoordinates`, `Accounts.CommitReleases`, `ClientEvents.FeedbackTold`,
`FrameSchedule.RefusedFlipSticks`, `Tiling.Tiler.ChangeGap`. Runs that end where the source fails are
`OrphanRun.OrphanedSubsurface`, `FrameSchedule.FirstFrameOnScreen`, `FrameSchedule.StuckForGood` and `SceneOrder.FullScreenAndBack`.

The environment appears as parameters: addresses from the allocator, results of system calls, the kernel's
reports, the bytes of a socket. Preconditions are what the source assumes without checking.

## Model

| member | source | states |
|---|---|---|
| Memory.DropExtra | util/mem.c:46-57 | one c_unref lowers the count of its object by one against the pointers actually stored; freeing a buffer is neutral for its pixels and its pool, freeing anything else gives back the counts of the pointers it still held |
| Memory.SlotChange | util/mem.c:39-57 | overwriting one stored pointer moves exactly one unit between count and holders of the old and the new target |
| Invariant.LiveIffHeld | util/mem.c:39-57 | between any two steps an object is in memory exactly while some stored pointer holds it: nothing leaks, nothing is freed early |
| Invariant.HeldTwice | util/mem.c:46-57 | two holders keep an object through one c_unref |
| HolderCounts.BufferCount | wayland/impl/wayland.c:461-489 | a buffer's count is its registry entry, the surfaces with it pending, the surfaces with it active and its release callback; the entry is there exactly while the buffer has an id, the callback is listed exactly while the field is set |
| HolderCounts.SurfaceCount | wayland/impl/wayland.c:359-418 | a surface's count is its registry entry and one for each of its xdg_surface, subsurface, viewport and children, all of which point back at it |
| HolderCounts.SubsurfaceCount | wayland/impl/wayland.c:536-595 | a subsurface's count is its registry entry, its surface and its parent, whichever of them still live |
| HolderCounts.ViewportCount | wayland/impl/viewporter.c:44-72 | a viewport's count is its registry entry and its surface, while that lives |
| HolderCounts.XdgSurfaceCount | wayland/impl/xdg-shell.c:111-191 | an xdg_surface's count is its registry entries, a toplevel among them, and its surface |
| HolderCounts.NothingButShown | wayland/server.c:527-566 | when the last object with data of a connection is gone, in whatever order, nothing is left but buffers whose release callback is armed, their pools and pixels, and pixels that are shown; wl_display and waiting callbacks may stay registered |
| ClientState.Client.Ref | util/mem.c:39-44 | one more on the count, and no pointer changes |
| ClientState.Client.Unref | util/mem.c:46-57 | one less on the count; the last one frees the block, and for a buffer its deferred function drops pixels and pool |
| ClientState.Client.ObjectAdd | wayland/server.c:444-474 | the registry entry becomes a holder of its data |
| ClientState.Client.ObjectDel | wayland/server.c:480-498 | the entry goes, its data loses one reference, and the client is told if the id is one of its own; an unknown id changes nothing |
| ClientState.Client.Listen | output/output.c:340-342 | a node joins the end of the output's list; a release callback holds its buffer |
| ClientState.Client.CallbackRemove | util/callback.c:13-15 | the node leaves the list, and a release callback gives its buffer up |
| ClientState.Client.ChildRemove | util/list.c:120-147 | the child leaves its parent's list, which keeps the order of the others |
| Creation.CreationKeepsCore | wayland/impl/wayland.c:512-595 | registering a new object together with both ends of its links keeps types, back links, registry, roles and callbacks right |
| Erasure.WeakeningKeepsCore | wayland/impl/wayland.c:359-418 | a step that only clears links at both ends and removes blocks keeps everything but the counts right |
| Erasure.ErasedKeepsInv | wayland/impl/wayland.c:634-654 | an object whose every pointer in and out is gone, and whose registry entry goes with it, leaves the whole invariant standing |
| BufferSteps.MovesBuffersKeepsInv | wayland/impl/wayland.c:461-489 | moving buffer pointers around, with balanced counts at the end, keeps the whole invariant |
| QuietSteps.QuietKeepsStructure | output/output.c:109-172 | answering clients and arming callbacks leaves types, links and registry right |
| BufferObjects.WlShmCreatePool | wayland/impl/wayland.c:126-171 | a pool with one holder, its registry entry; refused when the id is taken or the memory cannot be mapped |
| BufferObjects.WlShmPoolCreateBuffer | wayland/impl/wayland.c:173-222 | a buffer that holds its pool and its pixels; every other pointer is as before |
| BufferObjects.WlShmPoolDestroy | wayland/impl/wayland.c:251 | the pool loses its registry entry and lives on exactly while buffers hold it |
| BufferObjects.WlBufferDestroy | wayland/impl/wayland.c:224-232 | the buffer loses its entry; it survives exactly when a surface or a release callback still holds it, and is freed with its own pointers otherwise |
| Surfaces.WlCompositorCreateSurface | wayland/impl/wayland.c:512-533 | a surface held by its registry entry alone |
| Surfaces.WlSurfaceAttach | wayland/impl/wayland.c:461-489 | the pending buffer is the named one or none; a pending buffer that was replaced is freed exactly if nobody else held it, and every other pointer and body is as before |
| Commits.ReleaseActive | output/output.c:269-275 | the buffer that is about to be replaced gets its release callback, or is released at once when a callback cannot report it |
| Commits.SwapBuffers | output/output.c:276-284 | the pending buffer becomes active with its reference, the old active one loses its own, also when both are the same buffer |
| Commits.OnWlSurfaceCommit | output/output.c:262-291 | buffers, release callback, frame listener, callback lists and released events after a commit, each exactly; the invariant is kept |
| Commits.WlSurfaceCommit | wayland/impl/wayland.c:491-510 | a refused state application changes nothing; otherwise the listener ran, also for a synchronized subsurface, and a surface without an output has the focused one |
| Commits.ApplyAll | wayland/impl/wayland.c:491-510 | the status of the request: nothing is applied to a synchronized surface, and the walk over the synchronized children ends at the first refusal; asked for only when no missing surface is reached |
| Commits.CommitReadsNull | wayland/impl/wayland.c:497-509 | past the early return and the surface's own state, the request reads through a missing surface exactly when it reaches a synchronized child that has outlived its surface |
| Commits.CommitSafe | wayland/impl/wayland.c:497-509 | no viewport can make the request unsafe exactly when the surface is synchronized itself or every synchronized child still has its surface |
| Commits.CommitAccepted | wayland/impl/wayland.c:491-510 | a commit is accepted exactly when the surface is synchronized, or neither it nor any synchronized child shows more than its pending buffer has |
| Commits.StateApply | wayland/impl/wayland.c:47-80 | refused exactly when the viewport shows more than the pending buffer has; everything read on the way is there |
| Commits.AssignOutput | cuts.c:372-386 | a surface gets its output once |
| FrameRequests.WlSurfaceFrame | wayland/impl/wayland.c:339-357 | the id is accepted exactly when it is free and fewer than eight wait; then it is registered and last in the queue |
| FrameRequests.WpPresentationFeedback | wayland/impl/presentation-time.c:11-33 | the same for feedback, whose listener is armed at once |
| PageFlips.AnswerFrames | output/output.c:161-163 | every waiting callback is told done once, in order, and leaves the registry |
| PageFlips.OnFramesDone | output/output.c:154-172 | afterwards nothing waits and the listener is off the list; the answers of all other listeners are undisturbed |
| PageFlips.OnPresented | output/output.c:109-136 | the same for presentation feedback |
| PageFlips.OnBufferReleased | output/output.c:138-152 | the client is told while it still knows the buffer; the callback's reference goes and frees the buffer if it was the last |
| PageFlips.NotifyPageflip | output/output.c:109-172 | whichever listener a node belongs to: its events, its removal, and the accounting of answered frames |
| PageFlips.PageFlip | output/output.c:174-185 | every node of the list is asked once, in order; what is sent, which nodes stay, that no surface of this output waits any more, that only buffers were freed, and for every event how often it is sent: presented, done and delete_id against the ids that leave |
| PageFlips.SettledFrames | wayland/server.c:96-99 | the frame callbacks that leave the registry are exactly those told done, each once |
| PageFlips.StayingIsRemaining | util/callback.h:11-22 | the list after a flip is the list the walk over linked nodes leaves behind |
| SurfaceDestroy.OnWlSurfaceDestroy | output/output.c:293-310 | no callback of the surface stays on its output's list |
| SurfaceDestroy.DiscardFeedbacks | wayland/impl/wayland.c:363-366 | the loop clears its own bound, so at most the first waiting feedback is told |
| SurfaceDestroy.DiscardedOnlyFirst | wayland/impl/wayland.c:363-366 | every waiting feedback is told exactly when at most one is waiting |
| SurfaceDestroy.DropBuffers | wayland/impl/wayland.c:368-374 | active and pending buffer lose one reference each while the fields are still set; no other object is touched |
| SurfaceDestroy.Detach | wayland/impl/wayland.c:383-395 | an xdg_surface, subsurface or viewport loses its end of the link and its reference, and so does the surface |
| SurfaceDestroy.DetachChildren | wayland/impl/wayland.c:397-407 | every child forgets its parent, all counts end up right, and the surface survives the loop |
| SurfaceDestroy.WlSurfaceDestroy | wayland/impl/wayland.c:359-418 | the surface stays alive until its own deletion frees it; every pointer to it and from it is gone, and nothing else but buffers it held last |
| SubsurfaceLinks.WlSubcompositorGetSubsurface | wayland/impl/wayland.c:536-595 | accepted exactly for registered, different surfaces of which the child has no role; then three counted links, the last place among the parent's children, and a synchronized subsurface |
| SubsurfaceLinks.WlSubsurfaceDestroy | wayland/impl/wayland.c:634-654 | the subsurface and every pointer to it are gone whichever of its ends died first, and its surface has no role |
| SubsurfaceSync.WlSubsurfaceSetSync | wayland/impl/wayland.c:604-632 | the flag of the subsurface and of everything below it, and nothing else; asked for only when all of those still have their surfaces, which the source reads through |
| SubsurfaceSync.SetSyncReadsNull | wayland/impl/wayland.c:604-632 | the request reads through a missing surface exactly when some subsurface below has lost its own |
| SubsurfaceSync.FamilyLeast | wayland/impl/wayland.c:604-617 | what a request reaches is the subsurface and what is below it, and nothing more |
| Deferral.FlagsWritten | wayland/impl/wayland.c:604-632 | after set_sync or set_desync every subsurface it reaches has the flag asked for, every other has the one it had, and nothing else is different |
| Deferral.SyncedDeferred | wayland/impl/wayland.c:491-510 | a commit of a synchronized surface succeeds whatever its viewport shows and whatever became of its children |
| Deferral.SyncedTreeDeferred | wayland/impl/wayland.c:604-617 | after set_sync at any point of a run every later commit of a surface in that tree is deferred, until set_desync reaches its subsurface or one of the two is destroyed |
| OrphanRun.OrphanedSubsurface | wayland/impl/wayland.c:497-512 | a run from a new connection to a state in which the next commit of a toplevel, set_sync on its subsurface and a hit test of its tree would each read through the surface that the subsurface has lost; the commit is the first step that cannot be taken |
| Desynchronized.StaysCalm | wayland/impl/wayland.c:497-650 | no step but becoming a child and set_sync above it makes a child synchronized, whatever is created, committed, flipped or destroyed |
| Desynchronized.CalmParentSafe | wayland/impl/wayland.c:497-509 | along any run, a surface none of whose children is synchronized can be committed safely from then on, whichever of their surfaces are destroyed, until a child joins or set_sync reaches one |
| Desynchronized.DesyncedTreeSafe | wayland/impl/wayland.c:619-632 | after set_desync at any point of a run, no later commit of a surface in that tree reads through a missing surface, whatever is destroyed meanwhile, as long as that surface gets no child and set_sync reaches none of its children |
| Desynchronized.DesyncedNeverOrphan | wayland/impl/wayland.c:619-632 | nor can a commit of any surface read through the missing surface of a member of that tree |
| OrphanRun.DesyncedSubsurface | wayland/impl/wayland.c:619-632 | the run of OrphanedSubsurface with set_desync before the destruction: every step is taken, the last commit too |
| Viewporter.WpViewporterGetViewport | wayland/impl/viewporter.c:44-72 | accepted exactly when the surface has no viewport; both ends of the link and both counts |
| Viewporter.WpViewportDestroy | wayland/impl/viewporter.c:137-151 | the viewport and every pointer to it are gone, whether or not its surface still was there |
| XdgShell.XdgWmBaseGetXdgSurface | wayland/impl/xdg-shell.c:111-140 | both ends of the link; the invariant survives exactly when the surface had no xdg_surface before |
| XdgShell.XdgSurfaceGetToplevel | wayland/impl/xdg-shell.c:211-230 | a second registry entry that holds the xdg_surface; refused when the id is taken or the surface has a role; asked for under a free id only while the xdg_surface has its surface, which the source reads through |
| OrphanRun.XdgSurfaceOutlives | wayland/impl/xdg-shell.c:211-230 | destroying a surface leaves its xdg_surface registered, and then asking that for a toplevel under a free id would read through the surface that is gone |
| XdgShell.XdgSurfaceDestroy | wayland/impl/xdg-shell.c:162-191 | the link and the registry entry go; the object stays while a toplevel holds it |
| XdgShell.XdgToplevelDestroy | wayland/impl/xdg-shell.c:309-325 | the role and the toplevel's reference go |
| SceneQuads.UnrefWindowQuads | compositor/scene.c:24-28 | every quad gives back one reference, and its pixels are alive when it does |
| SceneQuads.RefWindowQuads | compositor/scene.c:30-34 | every quad takes one reference |
| SceneQuads.CollectWindowTree | compositor/scene.c:87-192 | the pixels of the tree are pushed in preorder, a surface before its children; surfaces without a buffer end the descent |
| SceneQuads.NodeUpdate | compositor/scene.c:369-376 | the node shows the tree as it is now; nothing but pixel buffers is freed and all counts are right again |
| SceneQuads.NodeRemove | compositor/scene.c:271-274 | the node gives back all its references |
| SceneQuads.PixelCount | compositor/scene.c:24-34 | a pixel buffer's count is one for its wl_buffer, while that lives, and one for every quad that shows it |
| SceneQuads.QuadsLive | compositor/scene.c:208-210 | no stored quad points at a freed description of pixels |
| Steps.EffectStepped | wayland/impl/wayland.c:339-357 | whatever a step is, done events come from page flips only, exactly the accepted id becomes awaited and exactly the told ones stop, a frame listener stays until its output flips or its surface is destroyed, and queues get the accepted request at their end and nothing else |
| Runs.Take | wayland/impl/wayland.c:339-654 | each of the twenty-four steps keeps the invariant and has its effect on blocks, registry, callbacks, lists, scene and events |
| Runs.Serve | wayland/server.c:366-435 | a run from a new connection, which has wl_display, takes exactly the steps up to the first the compositor could not take; the states it goes through are a run, and requests equal answers plus callbacks still registered |
| Traces.RequestsAnswered | wayland/server.c:96-99 | at every point of every run the accepted requests for an id are its answers, and one more while it waits: at most one done for each |
| Traces.QueueGrows | wayland/impl/wayland.c:339-357 | between answers the queue of a surface is what it was followed by the requests accepted since, in order |
| Traces.StillListening | output/output.c:287-289 | an armed frame callback stays armed until its output flips or its surface is destroyed |
| Traces.NextFlipAnswers | output/output.c:154-172 | the next flip of that output tells everything the surface waited for and asked for since, in order, each once, and forgets it, unless the surface is destroyed first |
| Traces.NotToldBefore | output/output.c:154-172 | and nothing of it is told earlier |
| Traces.CommitListensExactly | cuts.c:1122-1125 | after an accepted commit a surface with waiting frames listens exactly when it did before or had an output already: the output it gets by that very commit comes after its listener has run |
| Traces.RequestAnswered | output/output.c:262-291 | a frame request that is accepted and committed on a surface with an output is told done, once, by the first flip of that output after the commit, unless it was answered or the surface destroyed before |
| Accounts.CommitReleases | output/output.c:262-291 | a commit that replaces a registered buffer tells it released at once, or, exactly when the surface has an output and no callback of the buffer is armed, lists its callback there and tells nothing; no other buffer is told |
| Accounts.FlipReleases | output/output.c:138-185 | a flip tells every registered buffer whose callback is listed on its output, once, and disarms it; it tells no other |
| Accounts.ReplacementsReleased | output/output.c:138-152 | over any part of any run the commits that replaced the buffer under an id are its releases, and one more while its callback is armed, less what was armed before and what left with a destroyed buffer |
| Accounts.EveryReplacementReleased | output/output.c:262-291 | from the creation of a buffer until it is destroyed, each commit that replaced it has released it, but for one that its armed callback has still to tell |
| Accounts.NextFlipReleases | output/output.c:138-185 | the next flip of the output on which a buffer waits tells it released exactly once, if it is still registered then |
| Accounts.ReplacedWaits | output/output.c:268-277 | a commit that lets a replaced buffer wait arms it for the output of its surface |
| ClientEvents.DeletesTold | wayland/server.c:480-498 | along every run the client is told an id is free exactly once each time one of its own ids leaves the registry, and never of an id the server allocated |
| ClientEvents.FeedbackTold | output/output.c:109-136 | along every run the feedback accepted under an id was presented or discarded, or forgotten by a destroyed surface that told only its first, each once, but for one that waits |
| FrameSchedule.Output.Redraw | render/renderer.c:267-305 | what is drawn into is the back buffer, and once a flip has completed that is not what is scanned out; a successful drawing clears the request |
| FrameSchedule.Output.SchedulePageflip | output/output.c:200-234 | the state afterwards for every outcome of drawing, fence and commit; what was drawn is what is in flight, and the output is at rest |
| FrameSchedule.Output.PageFlipHandler | output/output.c:174-185 | front and back change places, and the front buffer is what is scanned out |
| FrameSchedule.Output.Commit | output/output.c:320-323 | an idle output draws and submits at once, a waiting one remembers the request |
| FrameSchedule.Output.SwitchMode | output/output.c:329-337 | new buffers, of which the back one is shown by the mode change itself |
| FrameSchedule.DrawsOnScreen | output/output.c:332-337 | the buffer drawn into is the one on the screen exactly between a mode change and the first completed flip |
| FrameSchedule.ScheduledValid | output/output.c:200-234 | after a chance to draw, an output on which nothing has failed waits for a flip or shows the last picture asked for |
| FrameSchedule.FlipDoneValid | output/output.c:174-185 | after a flip the front buffer is what is scanned out |
| FrameSchedule.FirstFrameOnScreen | output/output.c:332-337 | a run in which the first frame is drawn into the buffer being scanned out |
| FrameSchedule.Manager.HandleDrmEvent | output/output.c:187-198 | exactly the reported outputs have flipped |
| FrameSchedule.Manager.DrmCallback | output/output.c:236-246 | every reported output has flipped and every output has had its chance to draw; fatal exactly when a flip cannot be submitted |
| FrameSchedule.Manager.SetMode | output/output.c:325-338 | returns exactly when the reports end the output's wait; then its swapchain is new and everything else is as the reports left it |
| FrameSchedule.SetModeReturns | output/output.c:325-338 | when the reports can be delivered in turn and one of them is of this output, the mode change returns: the output is idle when its swapchain is replaced, every other output is as those reports left it, and the picture is asked for anew |
| FrameSchedule.SetModeWaits | output/output.c:325-327 | and it returns only when some reports, delivered in turn, leave the output idle |
| FrameSchedule.ReportFatal | output/output.c:200-246 | a report is fatal exactly when some output with something to draw is free to draw it by then, and its fence or its commit fails |
| FrameSchedule.RefusedFlipSticks | output/output.c:218-230 | an output waits for a flip that nothing will report exactly when it did before or its drawing is refused by the kernel |
| FrameSchedule.StuckForGood | output/output.c:200-246 | and then it waits for good: along any run its screen never changes again, and no mode change of it returns |
| FrameSchedule.Run | output/output.c:174-246 | takes every input up to the first fatal error, endless wait or impossible report, through the states the functions of one output prescribe; nothing to be drawn is forgotten |
| FrameSchedule.NothingForgotten | output/output.c:174-246 | in every run, as long as nothing fails, an output with something to draw waits for a flip, or another output does and the next report draws them all |
| FrameSchedule.ReportCatchesUp | output/output.c:236-246 | a report shows what the output had submitted, and submits everything asked for before it |
| FrameSchedule.RequestsReachScreen | output/output.c:174-246 | what was asked for before one report of an output's flip is on the screen after the next: no requested redraw is lost |
| FrameSchedule.VersionsCountRequests | output/output.c:320-338 | versions count the requests of the run, so the picture a sound idle output shows is the last one asked for |
| LinkedList.List.Push | util/list.c:42-61 | appends; the old sentinel becomes the element |
| LinkedList.List.Insert | util/list.c:63-92 | places at the given position, refuses a position past the end |
| LinkedList.List.Insert2 | util/list.c:94-118 | places before the given node in all three cases |
| LinkedList.List.InsertFirst | util/list.c:72-78 | a new head takes the size over |
| LinkedList.List.LinkBefore | util/list.c:80-87 | next and prev stay mutually inverse |
| LinkedList.List.Remove | util/list.c:120-147 | deletes the first node that holds the pointer, in every position, and only that |
| LinkedList.List.Get | util/list.c:149-157 | indexing, and NULL outside |
| LinkedList.List.Idx | util/list.c:159-167 | the first position, and -1 exactly when absent |
| LinkedList.List.Clear | util/list.c:169-185 | the head becomes an empty list |
| LinkedList.List.Run | util/list.c:42-185 | any mix of operations on the list does what it does to the sequence |
| LinkedList.PutAndTaken | util/list.c:42-147 | a new element stands where it was put with the others around it, and removing it restores the list |
| LinkedList.OthersLeft | util/list.c:63-147 | a place past the end changes nothing, and a removal takes one occurrence only and nothing that is not there |
| ListSpec.WithoutElements | util/list.c:120-147 | removing one element of a list without repetitions leaves all others |
| CallbackWalk.NotifyOne | util/callback.h:14-20 | one listener is called and may take itself off: the saved next node is where the walk goes on |
| CallbackWalk.NotifyAll | util/callback.h:11-22 | whichever listeners remove themselves, each one present at the start is called once, in order, and exactly the others remain |
| CallbackWalk.RemainingElements | util/callback.h:11-22 | what remains are the listeners that did not leave |
| ChainedMap.Find | util/map.c:87-92 | stops at the first pair of the key |
| ChainedMap.Unlink | util/map.c:94-107 | a pair leaves its chain in all four cases, and the chain stays linked both ways |
| ChainedMap.PushedStack | util/map.c:60-85 | setting a key pushes onto its stack and leaves the others alone exactly when the bucket does not start with a NULL value |
| ChainedMap.StackRemoved | util/map.c:87-112 | removing the first pair of a key pops its stack and leaves the others of the bucket alone |
| ChainedMap.Map.Set | util/map.c:60-85 | the map of stacks after a set |
| ChainedMap.Map.Get | util/map.c:114-124 | the top of the stack, or NULL |
| ChainedMap.Map.Remove | util/map.c:87-112 | pops one stack; all other keys, of this bucket and of others, are as before |
| Bitmaps.OneBit | util/bitmap.c:8-15 | setting or clearing one bit of a byte leaves the other seven |
| Bitmaps.Bitmap.Set | util/bitmap.c:11-15 | adds one id to the set of used ones |
| Bitmaps.Bitmap.Unset | util/bitmap.c:34-38 | takes one id away |
| Bitmaps.Bitmap.Get | util/bitmap.c:17-20 | membership |
| Bitmaps.Bitmap.GetFree | util/bitmap.c:22-32 | the least unused id; zero when there is none |
| Registry.AddedMatches | wayland/server.c:444-474 | bits and live ids stay in step exactly when the pool is not full, for an allocated id, or the id is outside the pool's range, for an explicit one |
| Registry.RemovedMatches | wayland/server.c:480-498 | deleting an id and clearing its bit keeps them in step |
| Registry.Connection.Reserve | wayland/server.c:459-470 | which bit is set and which id is settled on |
| Registry.Connection.Add | wayland/server.c:444-474 | a live id is refused; otherwise the object is found under its id, every other id is as before, and an allocated id was not live unless the pool was full |
| Registry.Connection.Del | wayland/server.c:480-498 | the id is gone and its bit clear; every other id is as before |
| Registry.Run | wayland/server.c:444-519 | any run of additions and deletions from a new connection, up to the first after which bits and ids would part, ends with the two in step; at every point an added id was not live, and an allocated one is the least of the server ids that was not |
| Wire.WordOfBytes | wayland/util.c:16-20 | the four bytes of a word read back as the word |
| Wire.SignedUnsigned | wayland/util.c:10-14 | a signed number survives the way through an unsigned word |
| Wire.LittleEndian | wayland/util.c:54-57 | the least byte of a word comes first |
| Wire.WriteU32 | wayland/util.c:54-57 | four bytes at the offset, which moves past them; the rest of the buffer is as before |
| Wire.WriteI32 | wayland/util.c:49-52 | the same for a signed number |
| Wire.WriteU16 | wayland/util.c:59-62 | the same for two bytes |
| Wire.ReadU32 | wayland/util.c:16-20 | the word at the offset |
| Wire.ReadI32 | wayland/util.c:10-14 | the signed word at the offset |
| Wire.WriteString | wayland/util.c:64-73 | length with terminator, characters, zeros up to a multiple of four |
| Wire.ReadString | wayland/util.c:28-37 | the characters before the terminator, and the padding skipped; a string of size zero leaves the caller's characters alone |
| Wire.StringLayout | wayland/util.c:64-73 | length with terminator, characters, one to four zeros, a multiple of four in all |
| Messages.WriteArg | wayland/server.c:166-212 | the bytes of one argument by its type |
| Messages.Marshal | wayland/server.c:156-214 | the bytes of the whole message, with a header size equal to what was written |
| Messages.MessageLayout | wayland/server.c:156-214 | object, opcode, size of the whole, arguments, each number with its least byte first |
| Messages.ReadArg | wayland/server.c:308-346 | one argument by its signature letter |
| Messages.ReadArgs | wayland/server.c:300-349 | the arguments of a message by its signature |
| Messages.ArgsAligned | wayland/util.c:8 | every argument starts and every message ends at a multiple of four |
| Messages.ArgsRead | wayland/server.c:300-349 | reading by the signature of some arguments recovers them from any buffer that holds their bytes |
| Messages.MessageRead | wayland/server.c:156-214 | decoding undoes encoding, wherever in a buffer the message stands |
| Messages.SplitBatch | wayland/server.c:385-424 | which messages are queued, which sync callbacks wait for the end of the batch, and the error cases |
| Messages.SplitConcat | wayland/server.c:385-424 | a concatenation of messages is cut into exactly those messages, in order, each where it starts |
| Messages.SplitTruncated | wayland/server.c:385-389 | a batch that ends inside a header is refused, whatever came before |
| Messages.SplitTaken | wayland/server.c:401-420 | a sync request for a registered id is a protocol error, whatever comes behind it |
| Messages.BatchRoundTrip | wayland/server.c:366-435 | every ordinary message of a batch is dispatched once, in order, with the object, opcode and arguments it was sent with |
| Dispatching.DispatchQueued | wayland/server.c:426-441 | the queued messages reach their handlers in order up to the first protocol or fatal error; the sync requests are answered after them unless the error was fatal; the status is the last one, and is not set when nothing was queued |
| Dispatching.DispatchBatch | wayland/server.c:366-442 | a batch that cannot be cut up is refused before any handler runs; any other is dispatched as above |
| Dispatching.ServedExactly | wayland/server.c:427-435 | of the messages dispatched only the last can have been refused or have status -1 or -2, and if not all were dispatched the last one was: there is exactly one such number |
| Dispatching.NothingBehind | wayland/server.c:430-434 | what is queued behind such a message changes neither what is called nor what is returned |
| Dispatching.FatalExactly | wayland/server.c:433-439 | the sync requests stay unanswered exactly when some dispatched message returned -2 |
| Dispatching.BatchServed | wayland/server.c:286-442 | a batch from its sender to the handlers: every ordinary message up to the first that stops the batch arrives once, in order, with its object, opcode and arguments, unless its object or opcode is unknown, and the sync requests have their ids |
| Outgoing.FlushConserves | wayland/server.c:135-142 | for all buffer contents what stays is what was not sent, exactly when everything was sent |
| Outgoing.Connection.Flush | wayland/server.c:101-148 | what leaves, what stays, and which descriptors go with it |
| Outgoing.Connection.Post | wayland/server.c:150-239 | with complete sends, bytes sent and buffered are all messages posted, in order, and descriptors leave with their messages in posting order; the buffer never overflows |
| Outgoing.AllLeft | wayland/server.c:101-148 | when all bytes have left, all messages and descriptors have |
| SceneOrder.Scene.NodeInsert | compositor/scene.c:262-269 | before the first node with a greater z |
| SceneOrder.Scene.Add | compositor/scene.c:321-367 | the node stands where its new z belongs, and the list stays sorted |
| SceneOrder.Scene.Raise | compositor/scene.c:413-417 | the same node at its new place, the others in their order |
| SceneOrder.Scene.Remove | compositor/scene.c:408-411 | the others keep their order |
| SceneOrder.Scene.SetLayer | cuts.c:904 | a new layer leaves the node where it is |
| SceneOrder.PlacedAbove | compositor/scene.c:304-305 | a placement gets a z above everything placed in its layer and below, and under everything placed above |
| SceneOrder.InsertionAgrees | compositor/scene.c:262-269 | one placement keeps the list sorted, strictly while no layer has used up its slice, and the numbering right |
| SceneOrder.Scene.Run | compositor/scene.c:262-417 | any run of adding, raising, removing and changing layers on the linked list |
| SceneOrder.RunConsistent | compositor/scene.c:262-269 | after any such run the list is sorted by z, strictly while no layer has used up its slice |
| SceneOrder.RunPaintsByLayer | compositor/scene.c:199-236 | after any such run in which every change of a layer is followed by a raise, lower layers are painted before higher ones |
| SceneHistory.RunTold | compositor/scene.c:321-411 | after any run the nodes are those added and not removed since, each in the layer it was last given |
| SceneHistory.RunPaintOrder | compositor/scene.c:262-269 | after any run, while no layer has used up its slice, one node is painted before another exactly when it was last placed in a lower layer, or earlier in the same one |
| SceneOrder.RaisedAbove | compositor/scene.c:413-417 | a raised node is painted after everything placed in its layer and below, and before everything placed above |
| SceneOrder.PaintedByPlacement | compositor/scene.c:199-236 | nodes are painted in the order they were last placed in: by layer, then by time |
| SceneOrder.PaintedByLayer | compositor/scene.c:199-236 | lower layers are painted before higher ones exactly when every node of a lower layer was last placed under every node of a higher one |
| SceneOrder.LayerWithoutRaise | cuts.c:904 | a node that goes down to layer l without a raise leaves the layers in order exactly when it was painted before all nodes above l |
| SceneOrder.FullScreenAndBack | cuts.c:893-904 | a window that leaves full screen, with the bar in the top layer, is back in its layer and still painted over the bar |
| HitTest.SurfaceHitTest | compositor/window.c:16-91 | the last surface in paint order that takes the point, and coordinates that belong to it; untouched out-parameters when there is none |
| HitTest.WindowSurfaceAt | compositor/window.c:93-103 | the window's own surface when nothing takes the point; with symmetric margins, the surface painted under the pointer and the point of it painted there |
| HitTest.TopmostIsLast | compositor/window.c:41-68 | the topmost surface takes the point and no later one does |
| HitTest.CollectWindowTree | compositor/scene.c:87-192 | the quads of the tree in preorder with their origins |
| HitTest.HitsWherePainted | compositor/window.c:34-38 | hit test and painting visit the same surfaces in the same order; the places agree exactly when the margins are symmetric or no subsurface is visible |
| HitTest.PointOfQuad | compositor/window.c:74-88 | with symmetric margins a surface takes a point exactly when it is painted under it and its input region, in coordinates of what is painted there, has it; and those are the coordinates answered |
| HitTest.FoundAsPainted | compositor/window.c:93-103 | the answer is the last painted quad under the pointer that takes it, with the point of its surface that is painted there |
| HitTest.OwnCoordinates | compositor/window.c:74-88 | for the window's own surface the coordinates are those of what is painted exactly when the margins are symmetric |
| HitTest.HitTestSafe | compositor/window.c:47-73 | the search reads through a missing surface exactly when some painted surface has a subsurface or popup that lost its own; painting skips those |
| PaintedTrees.SamePixels | compositor/scene.c:87-192 | the pixels a node's quads hold are those of the surfaces that hit testing sees painted, in the same order |
| PaintedTrees.HitTestWhole | compositor/window.c:47-73 | a hit test of the tree below a surface of the counted heap is safe exactly when every subsurface of every painted surface still has its own |
| Tiling.Tiler.ChangeMfact | cuts.c:1620-1626 | the factor stays within its limits |
| Tiling.Tiler.ChangeNmaster | cuts.c:1629-1635 | stays within 1 and 10; a step below zero wraps and ends at the upper limit |
| Tiling.Tiler.ChangeBorder | cuts.c:1727-1733 | stays within 0 and 50; a step below zero ends at 50 |
| Tiling.Tiler.ChangeGap | cuts.c:1735-1741 | stays within 0 and 150; a step below zero ends at 150 |
| Tiling.CalcTileLayout | cuts.c:433-468 | the work area beside the bar, and two columns that fill it with the gap between them; nothing wraps |
| Tiling.MasterFits | cuts.c:464-467 | twenty half gaps of width are enough for every master factor |
| Tiling.MasterShare | cuts.c:464 | the middle of the gap between the columns lies within one unit of the master factor's share of the width |
| Tiling.CountTiled | cuts.c:424-431 | the windows of the tag that neither float nor are full screen |
| Tiling.TiledCounts | cuts.c:424-431 | what is counted, as the number of clients with these four properties |
| Tiling.Tile | cuts.c:1774-1834 | the tiled windows fill the cells in list order, as many as were counted; every other window keeps its geometry |
| Tiling.ColumnHeight | cuts.c:1788-1789 | the rows and gaps of a column fit, and fewer rows than windows stay unused |
| Tiling.CellColumn | cuts.c:1803-1814 | a cell spans its column, or the whole work area while there is one column |
| Tiling.CellsHigh | cuts.c:1788-1817 | the first cell of a column starts at the top, and all have the greatest height that fits |
| Tiling.CellsStacked | cuts.c:1806-1817 | every other cell is one gap below the one before it and as high |
| Tiling.CellsApart | cuts.c:1806-1817 | any two cells keep the gap between them |
| Tiling.CellInside | cuts.c:1806-1817 | every cell lies in the work area |
| Tiling.InnerPlain | cuts.c:1819-1822 | a bordered window is its cell, and the subtraction does not wrap |
| Tiling.FewRowsUnused | cuts.c:1788-1789 | the last window of a column of n leaves fewer than n rows |
| Utf8.Utf8Char | cuts.c:340-359 | decodes one character and stops before the terminator |
| Utf8.Utf8Len | cuts.c:361-365 | counts the characters and terminates |
| Utf8.RoundTrip | cuts.c:340-359 | decoding recovers every scalar value from its encoding (section 3 of RFC 3629) and consumes exactly that |
| Utf8.DecodeAny | cuts.c:340-359 | whatever the bytes: a byte that starts nothing is replaced alone, a character that breaks off with the bytes it has, any other is put together from the bits of all its bytes |
| Utf8.DecodeProgress | cuts.c:340-359 | whatever the bytes, a character takes at least one and never the terminator |
| Utf8.LengthOfText | cuts.c:361-365 | the encoding of a text has as many characters as the text |
| SeatDaemon.Daemon.ClientFromFd | seat/session/impl/diazepam/daemon.c:111-117 | the first client with this socket |
| SeatDaemon.Daemon.ActivateMaster | seat/session/impl/diazepam/daemon.c:97-109 | exactly the display devices of this VT hold master |
| SeatDaemon.Daemon.OpenSeat | seat/session/impl/diazepam/daemon.c:244-280 | one client per VT |
| SeatDaemon.Daemon.OpenDevice | seat/session/impl/diazepam/daemon.c:142-189 | the device joins its client with a new id, and the devices opened before are rearranged for that client's VT, which takes master away from the VT that is shown if it is another |
| SeatDaemon.OpenKeepsShown | seat/session/impl/diazepam/daemon.c:142-189 | after an accepted open all devices with master are those of the shown VT exactly when the client is the one shown or has no display device |
| SeatDaemon.Daemon.CloseDevice | seat/session/impl/diazepam/daemon.c:119-140 | the device with this id and its master are gone |
| SeatDaemon.Daemon.CloseSeat | seat/session/impl/diazepam/daemon.c:282-299 | the client is gone and none of its devices holds master |
| SeatDaemon.Daemon.OnVtActivate | seat/session/impl/diazepam/daemon.c:225-242 | the client of the VT that is shown gets master |
| SeatDaemon.MastersShareClient | seat/session/impl/diazepam/daemon.c:97-109 | all devices that hold master belong to one client |
| SeatDaemon.DevicesAccounted | seat/session/impl/diazepam/daemon.c:119-299 | at every point of a run the open devices are those opened, less those closed singly or with their client |
| SeatDaemon.Run | seat/session/impl/diazepam/daemon.c:301-335 | any run of messages and signals goes through the states that the replies to its inputs prescribe, spelled out input by input; at every point all devices with master belong to one client |

## Left out

- Sockets, epoll, DRM, EGL, GBM, libinput, xkb, FreeType and mmap: their results are parameters, or they are not part of this model.
- The protocol objects are blocks in an explicit heap rather than Dafny objects: aliasing and freeing are in the model, the layout of C structs is not. The children of a surface are a sequence there; `list` shows that the linked list behaves as one.
- `PageFlips.PageFlip` walks the list as it was when the flip completed; that the source's walk over linked nodes does so is `CallbackWalk.NotifyAll`.
- Objects of one connection at a time; outputs and the scene are shared by all connections in the source.
- Layer surfaces, fractional scale objects, drag and drop, clipboard, popups and toplevel parents: their links are not balanced in the source, or they repeat what viewports show.
- Buffers from dmabufs (`wayland/impl/linux-dmabuf-v1.c`): there the parameters object and the wl_buffer are two registry entries of one object, and a second create overwrites its `obj` (lines 121-129 and 155-164), so that `HolderCounts.BufferCount` does not hold of them.
- Double-buffered state other than the buffer; that a viewport asks for more than its buffer has is a parameter of `Commits.WlSurfaceCommit`.
- Restacking subsurfaces (wayland/impl/wayland.c:656-686): it compares subsurfaces with surfaces and always asserts.
- Cycles of subsurfaces: the source does not reject them; `SceneQuads.CollectWindowTree` takes trees without cycles, as its recursion does.
- Request arrays ('a') and descriptors in requests ('F'): the source asserts arrays away, and descriptors are taken from a queue beside the bytes.
- Ioctls that fail, vt_release, and the messages the seat daemon sends.
- Device ids of the seat daemon are unique while fewer than 2^32 - 1 devices have been opened; after that the counter repeats.
- Rounding of floating point: coordinates and the master factor are real numbers.
- The matrix code, shaders, fonts, cursors, logging and code generators.
- ClientState.Client.ObjectAdd: ids the server allocates and the NULL for a taken id are in `Registry.Connection.Add`.
- Commits.AssignOutput: not the reference the wl_output receives (cuts.c:383), because wl_output objects are not part of this model.
- Commits.WlSurfaceCommit: not the double-buffered state besides the buffer, part of which the source has applied by the time it refuses.
- Commits.StateApply: not the state it applies; whether a viewport shows more than its buffer has is a parameter.
- SurfaceDestroy.WlSurfaceDestroy: not the block for layer surfaces, nor the references of wl_outputs.
- XdgShell.XdgSurfaceGetToplevel: not for a free id on an xdg_surface whose surface is gone, where the source reads through NULL; `OrphanRun.XdgSurfaceOutlives` shows how that comes about.
- XdgShell.XdgSurfaceDestroy: not the children that popups are, nor positioners.
- XdgShell.XdgToplevelDestroy: not the link to a parent toplevel, which the source does not balance.
- SceneQuads.CollectWindowTree: not the popups of an xdg_surface, which `HitTest.CollectWindowTree` has.
- SceneQuads.QuadsLive: the description of the pixels lives, but the pool's mapping it points into is unmapped with the last buffer of the pool, also while quads remain.
- FrameSchedule.Run: after a request whose drawing fails, the source stops its event loop with the batch of events at hand (cuts.c:367-370), while the run may go on; after a mode change it ignores the failure (output/output.c:337) and goes on as the run does.
- Messages.ReadArg: reads inside the buffer; the source does not compare sizes with what was received.
- Messages.SplitBatch: not for batches past the limits of messages and sync requests, nor headers of size zero, where the source writes past its arrays or loops.
- Messages.BatchRoundTrip: what the messages' handlers return, and that an error ends the batch, is in `Dispatching.BatchServed`.
- Dispatching.DispatchBatch: which object and opcode are known, and what handlers return, are parameters; the limits are those of `Messages.SplitBatch`.
- Outgoing.Connection.Post: after a flush that was not complete nothing more is posted, and at most 256 descriptors wait, because the source would write past its buffers.
- Bitmaps.Bitmap.Set: not for n equal to the size, which the source lets through to a byte behind the bitmap.
- Bitmaps.Bitmap.Unset: not for n equal to the size, for the same reason.
- Bitmaps.Bitmap.Get: not for n equal to the size, for the same reason.
- Registry.Connection.Reserve: not for the client id one past the size of the pool, for the same reason.
- Registry.Connection.Add: not for the client id one past the size of the pool, for the same reason.
- Registry.Connection.Del: not for the ids one past the size of either pool, for the same reason.
