# Retrovert, modelled

A Dafny model of the parts of Retrovert whose comments promise something about every run, and the
proofs of those promises. `dafny verify dfyconfig.toml` checks all of it.

Each component that updates state in place is a class here too: its methods are proved to take the
state exactly where a specification function on plain values takes it, and what the source promises
is proved about that function and about runs of it.

- **Playlist engine** (`Playlist*.dfy`): ordered playlists with minted ids, dirty and structure
  revisions, and a passive playback cursor. `PlaylistEngine` is the class, `PlaylistState` its
  specification; edits, ids and history, saving, and playback order have a file each.
- **Transfer queue** (`QueuePolicy`, `Transfer*.dfy`): who runs next, who yields, who resumes; and
  the queue's locked sections as the steps of a protocol between callers and workers.
- **Trust floor** (`TrustFloor`): one channel check as a read-modify-write of a stored floor, against
  a host that may answer anything.
- **Apply and install root** (`Install*.dfy`, `Applying`, `TransferSlots`, `Completions`): a
  slot-limited acquisition loop feeding a publication whose record comes last, beside a janitor, with
  a crash possible between any two writes. `InstallProtocol` is the protocol of applies, janitors and
  crashes; `InstallRuns` proves that what the two objects write is runs of it. A digest wraps the
  bytes it is of, so equal digests mean equal bytes.
- **Publish chain** (`ChannelNames`, `PublishChain`, `PublishLaws`): target, targets, snapshot and
  timestamp under consistent-snapshot names, read by the client walk of The Update Framework
  specification 1.0.33, sections 5.4 to 5.6.
- **Push to a host** (`ReleaseHosts`, `Pushing`, `PushLaws`): the same files over a host with no
  atomic replace, one call at a time, stopped before any of them.
- **Plugin catalog** (`Catalog*.dfy`): all-or-nothing generation swaps at mount and stop boundaries,
  with boot order, recovery, retention and a bounded record. Extraction and loading answer anew at
  every call.
- **Presentation and pacing** (`ScopeTraces`, `VuMeters`, `PatternGrids`, `Captures`, `Pacing`):
  bucketed traces, a row-major grid copied across two buffers, decaying levels and a wall-clock
  pacer. Floats are reals.

## Where the code does not keep a claim

The code is modelled as it is. Where a claim of its documentation fails, the model proves the exact
condition under which it holds, and shows a failure the condition does not make plain.

- A backward poll after removals can index past the end of the playlist (`PollPanicsExactly`,
  `PollCanPanic`); the forward and start polls cannot.
- Saves that complete out of order leave a clean playlist beside an older file
  (`OutOfOrderSavesLoseTheFile`), exactly when the last to complete wrote other contents than the
  newest acknowledged one (`CleanMeansSaved`). Revisions saturate at the last 64-bit value; from
  there edits no longer show (`EditShowsAsDirty`, `StructureRevisionSaturates`).
- The queue's sweep resumes a preempted entry whose worker has not settled its pause, so two workers
  can hold one slot (`ExclusiveExactly`, `TwoWorkersOneSlot`). The last armed worker dying beside due
  work leaves it with nobody (`StrandsExactly`, `AnUnwindStrands`), and a dying worker fails a slot
  whose cancel had applied exactly if no other worker has it (`UnwindLosesExactly`,
  `AnUnwindLosesACancel`).
- A sweep that resumes a preempted entry before its pause has settled leaves it paused for good: the
  pause it was asked for stops it all the same (`ResumableExactly`, `ResumedUnderItsWorkerStops`).
- `cancel_all` counts free slots whose last entry reads as waiting (`CancelAllCountsExactly`): on a
  new queue, all of them (`FreshCountsEverySlot`).
- `retain` checks a claim and deletes without holding the lock in between, so a claim taken inside
  that window can be collected (`OrderlyExactly`, `ClaimInTheWindowCanBreak`).
- Publishing a manifest the host already serves, or from a workspace behind it, takes a file of the
  served chain down while it is replaced (`PublishPushExactly`); a pushed re-sign can name a manifest
  the host lacks (`ResignPushExactly`).
- Retention keeps only the active generation and the one before it, so a completion nobody has read
  is collected (`RetentionExactly`, `CollectedCompletionIsLost`, `CompletionCanBeCollected`); and a
  completion that arrives during boot takes the turn of the candidate then pending, which loads
  exactly when none does (`FirstCleanLoadsExactly`, `CompletionCanLoseTheRecordedGeneration`).

## Model

| member | source | states |
|---|---|---|
| PlaylistEngine.Engine.Create | crates/playlist/src/lib.rs:262-274 | the new engine is the specification's step: one empty playlist under a minted id, nothing else moved |
| PlaylistEngine.Engine.Delete | crates/playlist/src/lib.rs:276-286 | the playlist is gone, and playback with it if it was playing |
| PlaylistEngine.Engine.Rename | crates/playlist/src/lib.rs:288-299 | revisions advance only when the name changes |
| PlaylistEngine.Engine.TouchStructurePreservingDirty | crates/playlist/src/lib.rs:301-312 | the structure revision advances and a clean playlist stays clean |
| PlaylistEngine.Engine.Append | crates/playlist/src/lib.rs:314-329 | one item at the end under a minted id, without a structure revision |
| PlaylistEngine.Engine.EditItem | crates/playlist/src/lib.rs:331-347 | whatever the closure makes of the public fields, the id and the place stay |
| PlaylistEngine.Engine.RemoveItem | crates/playlist/src/lib.rs:349-367 | one item goes; the cursor keeps the removed item's position and its failure stops counting |
| PlaylistEngine.Engine.MoveItem | crates/playlist/src/lib.rs:370-402 | the item is moved exactly where the specification puts it, or the move is refused |
| PlaylistEngine.Engine.MarkRevisionSaved | crates/playlist/src/lib.rs:417-427 | an acknowledgement of a revision that never was is refused, and the saved revision only rises |
| PlaylistEngine.Engine.MarkSaved | crates/playlist/src/lib.rs:404-410 | the contents of now are acknowledged |
| PlaylistEngine.Engine.SetMode | crates/playlist/src/lib.rs:470-472 | only the mode changes |
| PlaylistEngine.Engine.ToDocument | crates/playlist/src/lib.rs:658-672 | the document of a playlist, or the error for one that is not there |
| PlaylistEngine.Engine.Start | crates/playlist/src/lib.rs:429-456 | the cursor a start leaves, mode and failure count reset |
| PlaylistEngine.Engine.Stop | crates/playlist/src/lib.rs:458-468 | playback ends and an anonymous playlist goes with it |
| PlaylistEngine.Engine.Poll | crates/playlist/src/lib.rs:496-511 | the item handed out, or where the code panics, and the cursor it leaves |
| PlaylistEngine.Engine.OnFinished | crates/playlist/src/lib.rs:513-521 | failures reset, the next step queued |
| PlaylistEngine.Engine.OnFailed | crates/playlist/src/lib.rs:523-546 | the failure counts, or playback stops once a whole cycle failed |
| PlaylistEngine.Engine.Next | crates/playlist/src/lib.rs:548-556 | transport forward |
| PlaylistEngine.Engine.Previous | crates/playlist/src/lib.rs:558-568 | transport backward |
| PlaylistEngine.Engine.FromDocument | crates/playlist/src/lib.rs:677-723 | items numbered one by one; a document that does not fit changes nothing |
| PlaylistInvariant.StepKeepsValid | crates/playlist/src/lib.rs:288-640 | every operation keeps ids unique and within what was minted, the cursor's playlist existing, `current_removed` exact, and the forward index in range |
| PlaylistInvariant.EmptyIsValid | crates/playlist/src/lib.rs:242-244 | so does a new engine |
| PlaylistInvariant.RunKeepsValid | crates/playlist/src/lib.rs:221-640 | the same in every reachable state |
| PlaylistInvariant.MovePlacement | crates/playlist/src/lib.rs:370-402 | a move keeps all other items in relative order and puts the moved one first or right behind `after` |
| PlaylistInvariant.MoveRefused | crates/playlist/src/lib.rs:370-402 | when a move answers false, both ways |
| PlaylistInvariant.ItemsBounded | crates/playlist/src/lib.rs:621-629 | distinct ids up to the last minted leave room for no more items than ids |
| PlaylistEdits.CreateCreates | crates/playlist/src/lib.rs:262-274 | the caller finds one empty clean playlist under the next id, and every other as it was |
| PlaylistEdits.DeleteDeletes | crates/playlist/src/lib.rs:276-286 | that playlist alone is gone, and playback ends exactly if it was playing |
| PlaylistEdits.RenameRenames | crates/playlist/src/lib.rs:288-299 | another name moves the structure on, the same one changes nothing at all |
| PlaylistEdits.TouchTouches | crates/playlist/src/lib.rs:301-312 | both revisions move on, a clean playlist stays clean and a dirty one dirty |
| PlaylistEdits.SaveSaves | crates/playlist/src/lib.rs:412-427 | the saved revision rises to one there was, and nothing else moves |
| PlaylistEdits.AppendAppends | crates/playlist/src/lib.rs:314-329 | the item stands at the end under the next id and the structure revision stays |
| PlaylistEdits.EditEdits | crates/playlist/src/lib.rs:331-347 | the item has its new fields in its old place, every other its own |
| PlaylistEdits.RemoveRemoves | crates/playlist/src/lib.rs:349-367 | the rest keep their order, and the cursor of a removed current item keeps its place and forgets its failures |
| PlaylistEdits.MoveMoves | crates/playlist/src/lib.rs:370-402 | the playlist a move leaves has the item first or right behind `after`, and the rest in order |
| PlaylistEdits.MoveRefusedExactly | crates/playlist/src/lib.rs:370-402 | a move changes nothing exactly when either item is unknown, they are one, or it stands there already |
| PlaylistEdits.StopStops | crates/playlist/src/lib.rs:458-468 | a nameless playlist goes with its playback, and no other |
| PlaylistEdits.RefusedStartStops | crates/playlist/src/lib.rs:429-456 | a start that finds no playlist, no item or not the asked one leaves playback stopped |
| PlaylistHistory.StepHasEffect | crates/playlist/src/lib.rs:262-427 | each operation leaves a playlist alone, evolves it in one of four ways, drops it or mints a new one |
| PlaylistHistory.StepMints | crates/playlist/src/lib.rs:621-629 | counters never go down, and an id that is new after a step lies above the old counter and within the new one |
| PlaylistHistory.IdsNeverComeBack | crates/playlist/src/lib.rs:621-629 | over any run an id minted and since gone never names anything again |
| PlaylistHistory.EqualStructureOnlyAppends | crates/playlist/src/lib.rs:124-135 | two states of a playlist with one structure revision below the last differ only by appended items |
| PlaylistHistory.StructureRevisionSaturates | crates/playlist/src/lib.rs:132-135 | at the last structure revision an edit no longer shows |
| PlaylistPlayback.PollPanicsExactly | crates/playlist/src/lib.rs:496-511 | a poll indexes past the end exactly for a step back after the current item was removed and enough before it went too |
| PlaylistPlayback.PollCanPanic | crates/playlist/src/lib.rs:349-511 | a concrete reachable run that does |
| PlaylistPlayback.SuccessorByPosition | crates/playlist/src/lib.rs:349-367 | the removed current item's successor by position plays next, if nothing else is edited |
| PlaylistPlayback.PeekNextIsTheForwardPoll | crates/playlist/src/lib.rs:570-605 | what is peeked at is what the next forward poll hands out |
| PlaylistPlayback.TransportMoves | crates/playlist/src/lib.rs:548-568 | transport forward plays what is peeked at, or ends playback |
| PlaylistPlayback.PreviousPlaysTheOneBefore | crates/playlist/src/lib.rs:558-615 | a step back plays the item before, failures cleared; at the first it is refused; after a removal it plays what stands just before the old position |
| PlaylistPlayback.BackUndoesForward | crates/playlist/src/lib.rs:548-615 | on to the next item and back again returns to it |
| PlaylistPlayback.StartQueues | crates/playlist/src/lib.rs:429-456 | a start queues the asked item's position, or the first, with the failure count cleared |
| PlaylistPlayback.LoopOrder | crates/playlist/src/lib.rs:588-605 | in loop mode item (i + k) mod n plays at the k-th poll |
| PlaylistPlayback.SequentialOrder | crates/playlist/src/lib.rs:588-605 | in sequential mode items play in order from the start position, finishing or failing |
| PlaylistPlayback.SequentialStops | crates/playlist/src/lib.rs:588-605 | and then playback stops |
| PlaylistPlayback.LoopFailures | crates/playlist/src/lib.rs:523-546 | with every item failing, item (i + k) mod n is the k-th tried |
| PlaylistPlayback.LoopStopsAtTheLastFailure | crates/playlist/src/lib.rs:523-546 | the n-th failure in a row stops a loop, and no earlier one |
| PlaylistPlayback.LoopCycleTriesEachOnce | crates/playlist/src/lib.rs:523-546 | those n tries are of n different items |
| PlaylistPlayback.SequentialFromAStart | crates/playlist/src/lib.rs:429-546 | from a start, items play in order to the last, failing or not, and then playback stops |
| PlaylistPlayback.LoopFromAStart | crates/playlist/src/lib.rs:429-546 | from a start set to loop, item (i + k) mod n plays at the k-th poll, and if all fail the n-th failure and no earlier one stops it |
| PlaylistPlayback.FailuresRunOut | crates/playlist/src/lib.rs:349-546 | any run of polls, failures and removals has at most (n + 1)(n + 4) / 2 failures that take effect |
| PlaylistPlayback.DocumentRoundTrip | crates/playlist/src/lib.rs:658-727 | loading what was serialized gives the same name and items, clean, under new ids, and touches nothing else |
| PlaylistSaving.CleanMeansSaved | crates/playlist/src/lib.rs:120-135 | after any run with overlapping saves a clean playlist holds exactly its newest acknowledged revision, and the file too exactly when the save that completed last wrote the same: always when it was no older |
| PlaylistSaving.LateAcknowledgement | crates/playlist/src/lib.rs:412-427 | acknowledging an older revision never hides newer edits |
| PlaylistSaving.EditShowsAsDirty | crates/playlist/src/lib.rs:120-130 | an edit of a clean playlist shows as dirty exactly while the counter has not saturated |
| PlaylistSaving.OutOfOrderSavesLoseTheFile | crates/playlist/src/lib.rs:412-427 | saves completing out of order leave a clean playlist beside a file with older contents |
| QueuePolicy.FindNextPending | crates/updater/src/queue/entry.rs:122-141 | the pending entry best by priority, then earliest queued, then lowest index, or none |
| QueuePolicy.NextIsUnique | crates/updater/src/queue/entry.rs:122-141 | that entry is the only one it can be |
| QueuePolicy.PreemptForUser | crates/updater/src/queue/entry.rs:202-240 | at most one entry changes: the active background one with the fewest bytes, on a tie queued last |
| QueuePolicy.AutoResumePreempted | crates/updater/src/queue/entry.rs:248-257 | preempted entries become pending together, and only with no user work left |
| QueuePolicy.PreemptedWaitsForUsers | crates/updater/src/queue/entry.rs:248-266 | a preempted entry is next only once no user entry is pending or downloading |
| QueuePolicy.UsersRunFirst | crates/updater/src/queue/entry.rs:122-141 | with a user entry pending, what is next is a user entry |
| QueuePolicy.OldestRunsFirst | crates/updater/src/queue/entry.rs:122-141 | of one priority the entry queued first is next, of those queued together the first in the array |
| TransferQueues.TransferQueue.constructor | crates/updater/src/queue/mod.rs:672-686 | no entry, no worker armed, and the worker count pinned to its range |
| TransferQueues.TransferQueue.Enqueue | crates/updater/src/queue/mod.rs:707-747 | one locked enqueue: a free slot filled, one background transfer told to pause if a user request finds no worker idle, a worker armed |
| TransferQueues.TransferQueue.Cancel | crates/updater/src/queue/mod.rs:752-772 | a held transfer is promised its cancel, an unheld one is cancelled at once |
| TransferQueues.TransferQueue.CancelAll | crates/updater/src/queue/mod.rs:775-786 | every index is cancelled in turn, and how many took it, counted as the code counts |
| TransferQueues.TransferQueue.Pause | crates/updater/src/queue/mod.rs:788-796 | only a held transfer is asked to pause |
| TransferQueues.TransferQueue.Resume | crates/updater/src/queue/mod.rs:807-818 | a paused entry waits again with a worker armed |
| TransferQueues.TransferQueue.Remove | crates/updater/src/queue/mod.rs:832-842 | a slot is freed unless a worker holds it |
| TransferQueues.TransferQueue.ClaimNext | crates/updater/src/queue/mod.rs:349-398 | one lock hold of an idle worker: resume, claim the next entry, or retire |
| TransferQueues.TransferQueue.Settle | crates/updater/src/queue/mod.rs:595-632 | the claim goes, and a promised cancel overrides the outcome |
| TransferQueues.TransferQueue.ReleaseWorker | crates/updater/src/queue/mod.rs:320-337 | a worker thread that is gone is disarmed, and the slot it still had fails |
| TransferLaws.StepKeepsSound | crates/updater/src/queue/mod.rs:265-638 | each locked step, a worker's death among them, keeps held slots in use, transferring entries held and complete ones with a path; every other step also keeps a worker armed for due work |
| TransferLaws.StrandsExactly | crates/updater/src/queue/mod.rs:306-337 | a step leaves due work with no worker armed exactly when it is the last armed worker dying beside such work in a slot it does not hold |
| TransferLaws.UnwindStrandsExactly | crates/updater/src/queue/mod.rs:306-337 | the same of a worker's death in any sound queue, armed for or not |
| TransferLaws.NothingIsStranded | crates/updater/src/queue/mod.rs:265-399 | over any run, deaths included, the queue stays sound, and due work has an armed worker unless some death stranded it |
| TransferLaws.AnUnwindStrands | crates/updater/src/queue/mod.rs:306-337 | a run that does: one worker dying before its claim |
| TransferLaws.EnqueueRearms | crates/updater/src/queue/mod.rs:707-747 | the next accepted request arms a worker again |
| TransferLaws.FailedStartIsAnUnwind | crates/updater/src/queue/mod.rs:265-303 | a thread that fails to start leaves the queue as one that started and died before its claim |
| TransferLaws.CancelIsNeverLost | crates/updater/src/queue/mod.rs:752-772 | over any run after a cancel applied, the entry is cancelled once no worker has it, until its slot is freed or the last worker to have it dies |
| TransferLaws.UnwindLosesExactly | crates/updater/src/queue/mod.rs:320-337 | a dying worker loses the cancel of exactly the slots it was the last to have |
| TransferLaws.AnUnwindLosesACancel | crates/updater/src/queue/mod.rs:320-337 | any transfer whose only worker dies after its cancel applied reads failed |
| TransferLaws.CancelAllCountsExactly | crates/updater/src/queue/mod.rs:775-786 | the count is of the transfers the queue holds exactly when no free slot still reads as waiting |
| TransferLaws.FreshCountsEverySlot | crates/updater/src/queue/mod.rs:775-786 | a new queue, which holds none, counts every slot |
| TransferLaws.ExclusiveExactly | crates/updater/src/queue/mod.rs:339-399 | a step puts two workers on one slot, or resumes an entry under its worker, exactly when it is a claim whose sweep finds a preempted entry still held and no user work left |
| TransferLaws.OneWorkerIsExclusive | crates/updater/src/queue/mod.rs:349-398 | with one worker that never happens, whether it dies in the run or not |
| TransferLaws.SettledCanBeRemoved | crates/updater/src/queue/mod.rs:832-842 | while no slot is shared, freeing a settled entry is never refused |
| TransferYields.EnqueueYieldsExactly | crates/updater/src/queue/mod.rs:707-747 | a request fills a slot afresh; a user one with every worker busy tells the held background transfer with the fewest bytes, then the last queued, to yield, and no other request tells any |
| TransferYields.EnqueueBegins | crates/updater/src/queue/mod.rs:707-747 | what was told to yield, and what was queued, is to run yet |
| TransferYields.ResumableExactly | crates/updater/src/queue/mod.rs:588-632 | a step takes a yielded transfer out of the queue's care exactly when it is its cancel, removal or later pause, a settle other than the pause, its worker's death, or a sweep before that pause settled |
| TransferYields.YieldedIsNeverLost | crates/updater/src/queue/mod.rs:588-632 | over any run without such a step it stays in use and preempted, pending or downloading |
| TransferYields.NextClaimResumes | crates/updater/src/queue/mod.rs:339-398 | once no user work is left the next claim finds it pending, and takes it or one before it |
| TransferYields.SettleExactly | crates/updater/src/queue/mod.rs:588-632 | how a settle reads: a promised cancel wins, a pause leaves a preempted entry preempted, and else as it came out; no other slot or worker changes |
| TransferYields.UserPausedIsPaused | crates/updater/src/queue/mod.rs:788-818 | a transfer its user paused settles paused and waits again when resumed |
| TransferYields.ResumedUnderItsWorkerStops | crates/updater/src/queue/mod.rs:339-632 | a transfer the sweep resumes before its pause settled ends paused, and no sweep resumes it |
| TransferYields.CallerLeaves | crates/updater/src/queue/mod.rs:752-842 | what each request makes of one slot: which cancel, pause, resume and removal takes, and what a cancel or pause promises |
| TransferYields.PendingArmsAll | crates/updater/src/queue/mod.rs:265-298 | what is pending after a request or a claim has every worker armed |
| TransferYields.ProgressIsReported | crates/updater/src/queue/mod.rs:157-164 | progress is the entry's own, and moves nothing else |
| TransferRace.TwoWorkersOneSlot | crates/updater/src/queue/mod.rs:339-399 | a run from the empty queue, of two workers, that ends with both on one slot |
| TrustFloor.Admit | crates/updater/src/channel/trust.rs:82-98 | refused by the first role below the floor, accepted exactly when none is |
| TrustFloor.AdmittedIsTheChain | crates/updater/src/channel/trust.rs:49-67 | what is admitted is the chain's own root, timestamp, snapshot and targets version, and the check's time |
| TrustFloor.Channel.Authenticate | crates/updater/src/channel/mod.rs:115-144 | one check as a read-modify-write of the record with every early exit |
| TrustFloor.FloorNeverDrops | crates/updater/src/channel/trust.rs:105-113 | over any run of checks, restarts and unreadable records included, no field of the floor drops |
| TrustFloor.AcceptedIsTheFloor | crates/updater/src/channel/mod.rs:115-144 | the record then holds that chain's own version of each role and the time, whatever its manifest came to |
| TrustFloor.AcceptedNeverDecreases | crates/updater/src/channel/mod.rs:115-144 | over any run the root, timestamp, snapshot and targets versions of accepted chains, and their times, never decrease |
| TrustFloor.AdmittedExactly | crates/updater/src/channel/trust.rs:71-99 | exactly when a check is admitted: a readable record, no earlier time, and every role of the chain there and no lower than the record's |
| InstallProtocol.OrderlyExactly | crates/updater/src/apply/install.rs:165-195 | a step of an apply, a janitor or a crash breaks the root exactly when it claims a generation a janitor is collecting |
| InstallProtocol.StepKeepsInv | crates/updater/src/apply/mod.rs:183-191 | every other step keeps it |
| InstallProtocol.ResolvedIsWhole | crates/updater/src/apply/install.rs:134-145 | in every state so reached a generation that resolves is its plan, every file in place and of its digest |
| InstallProtocol.StaysResolved | crates/updater/src/apply/install.rs:165-186 | only a janitor removing its own record changes what an id resolves to |
| InstallProtocol.ClaimedIsNotCollected | crates/updater/src/apply/install.rs:165-195 | a claimed generation loses nothing |
| InstallProtocol.ClaimInTheWindowCanBreak | crates/updater/src/apply/install.rs:165-186 | a claim taken between a janitor's check and its delete always lets the run end with a record whose file is gone |
| InstallDisk.ClaimThenRelease | crates/updater/src/apply/install.rs:189-278 | dropping a claim just taken restores the counts |
| InstallRoots.InstallRoot.Claim | crates/updater/src/apply/install.rs:189-195 | one more claim on one id |
| InstallRoots.InstallRoot.Release | crates/updater/src/apply/install.rs:268-278 | one fewer, the last one taking its entry along |
| InstallRoots.InstallRoot.WriteRecord | crates/updater/src/apply/install.rs:200-219 | exactly this id's record as the next write, which is what makes it resolve, or an error and no write |
| InstallRoots.InstallRoot.Retain | crates/updater/src/apply/install.rs:165-186 | removes ids neither live nor claimed, all of them exactly when the disk refuses none; each record goes before its directory, and what went before a refusal stays gone |
| InstallRoots.RetainKeepsLive | crates/updater/src/apply/install.rs:165-186 | cut short or not, every other generation resolves as before with its files, and none resolves without them |
| InstallDisk.ResolvesExactly | crates/updater/src/apply/install.rs:134-145 | an id resolves exactly with a record of its own in the known layout |
| InstallDisk.AllInstalled | crates/updater/src/apply/mod.rs:329-337 | a record lists each artifact's name, target, version, revision, digest, size and path |
| InstallRoots.InstallRoot.DoomedExactly | crates/updater/src/apply/install.rs:165-186 | the ids a retention is to remove: those with a record or a file that are neither live nor claimed |
| Applying.SplitAtSlashes | crates/tuf/src/manifest.rs:164-177 | a path's parts are what its slashes separate |
| Applying.CleanPathStaysInside | crates/tuf/src/manifest.rs:164-177 | a path passes exactly when every part goes one directory deeper and no character is one that another reader would take differently |
| Applying.GenerationIdIsOneStep | crates/tuf/src/manifest.rs:158-162 | a generation's id is 64 lower-case hexadecimal digits, so one step of a path |
| Applying.Applier.RefuseUnsafeNames | crates/updater/src/apply/mod.rs:430-437 | refuses exactly a bad generation id or a path that could climb out |
| Applying.Applier.RefuseCollisions | crates/updater/src/apply/mod.rs:454-466 | refuses exactly a plan two of whose artifacts want one place, naming that pair |
| Applying.Applier.Place | crates/updater/src/apply/mod.rs:299-339 | a file gets its name only with bytes of the listed digest and if the disk takes directory, copy and name; otherwise nothing is written; exactly when the cached bytes are to blame the cache entry is evicted |
| Applying.Applier.Settle | crates/updater/src/apply/mod.rs:258-273 | placed, not settled yet, or refused with the artifact's error |
| Applying.Applier.Fill | crates/updater/src/apply/mod.rs:206-216 | every index queued is tracked exactly once, in order, until the queue is full or a digest does not parse |
| Applying.Applier.Sweep | crates/updater/src/apply/mod.rs:222-242 | settled transfers move from tracked to placed exactly once, whatever `swap_remove` does to the order |
| Applying.Applier.Turn | crates/updater/src/apply/mod.rs:203-247 | each turn makes progress or comes nearer to it: the loop ends if every transfer settles |
| Applying.Applier.Acquire | crates/updater/src/apply/mod.rs:198-250 | one entry per artifact in manifest order exactly when all transfers are good; no slot is left held and nothing but verified artifacts, each once, is written however it ends |
| Applying.Applier.Publish | crates/updater/src/apply/mod.rs:183-191 | the writes are files in some order and then the record, or files alone; exactly when it succeeds; the claim always goes |
| Applying.PublishedRight | crates/updater/src/apply/mod.rs:183-191 | whatever a publication writes is verified, and leaves every other generation as whole as it was |
| Applying.Applier.Apply | crates/updater/src/apply/mod.rs:113-125 | when it succeeds, exactly; an installed generation is returned with nothing fetched; a failure leaves every record as it was; a success is reported once |
| InstallRuns.PublicationIsARun | crates/updater/src/apply/mod.rs:183-191 | the writes of a publication, however far it gets, are an orderly run of the protocol from claim to release |
| InstallRuns.RetentionIsARun | crates/updater/src/apply/install.rs:165-186 | the writes of a retention, however far it gets, are an orderly run of one janitor |
| TransferSlots.Acquisition.Drop | crates/updater/src/apply/mod.rs:360-376 | every slot still tracked is cancelled, waited out and freed |
| Completed.Completions.Record | crates/updater/src/apply/mod.rs:402-407 | an id already reported is not reported again |
| Completed.Completions.NextCompleted | crates/updater/src/apply/mod.rs:396-400 | the oldest generation not yet handed out, never one handed out before |
| ChannelNames.DecimalInjective | crates/tuf/src/repository.rs:31-33 | different versions read differently |
| ChannelNames.NamesNeverMeet | crates/tuf/src/repository.rs:17-44 | two published or staged names that read the same are the same, so one flat namespace holds a channel |
| ChannelNames.NamesOfARole | crates/tuf/src/repository.rs:17-44 | the names a role is published under: timestamp and root plain, all but timestamp by version |
| PublishChain.Workspace.Put | crates/tuf/src/repository.rs:109-143 | one write is all there or not there |
| PublishChain.Workspace.Commit | crates/publish/src/chain.rs:84-157 | targets, snapshot, timestamp under their published names in this order, cut after any of them |
| PublishChain.Workspace.Publish | crates/publish/src/publish.rs:42-76 | the manifest, then the chain; nothing written if it cannot start, else exactly the first writes that landed |
| PublishChain.Workspace.Resign | crates/publish/src/resign.rs:33-46 | the chain alone, over the targets in force |
| PublishLaws.WalkFindsExactly | crates/publish/src/chain.rs:45-63 | a client's walk succeeds exactly on a linked chain with every file in place |
| PublishLaws.NextIsReadExactly | crates/publish/src/chain.rs:45-63 | before a write, versions alone are followed and each goes up by one, or the error names what was missing, malformed, unpinned or exhausted |
| PublishLaws.JobFailsExactly | crates/publish/src/chain.rs:45-70 | why a run cannot start, exactly |
| PublishLaws.JobStartsExactly | crates/publish/src/chain.rs:168-175 | over a walkable chain a run starts exactly when its manifest parses and no version is the last |
| PublishLaws.JobAdvances | crates/publish/src/resign.rs:33-46 | each role advances by one; a publish names its manifest alone, a re-sign changes nothing that is listed |
| PublishLaws.CutShowsOldOrNew | crates/publish/src/publish.rs:54-68 | a run cut before its last write leaves what was served; the last write serves the new chain whole |
| PublishLaws.BeginsCoherent | crates/publish/src/chain.rs:45-63 | a history may begin at exactly the channels a client can follow to the end |
| PublishLaws.RunsKeepCoherent | crates/publish/src/chain.rs:84-157 | after any runs cut anywhere the newest commit is served, every older one can still be walked, and committed versions strictly rise |
| PublishLaws.ResignsKeepListed | crates/publish/src/resign.rs:33-46 | re-signs alone never change what a channel lists |
| PublishLaws.SlowClientSeesOneView | crates/tuf/src/repository.rs:86-95 | a client fetching its four files at four moments of a run ends with exactly the channel served at the first |
| PublishLaws.PullKeepsChainExactly | crates/publish/src/pull.rs:90-108 | a pull cut anywhere keeps the workspace's chain exactly when the two agree wherever their versions do; a whole one ends at the served chain |
| ReleaseHosts.Host.EnsureRelease | crates/publish/src/host.rs:239-264 | the release is there; nothing is created twice |
| ReleaseHosts.Host.PutAsset | crates/publish/src/host.rs:273-291 | exactly the first calls the host answered: clear a staged copy, then upload or stage, delete and rename |
| Pushing.Push.PutOne | crates/publish/src/remote.rs:136-145 | stopped before this asset, or put and logged |
| Pushing.Push.Files | crates/publish/src/remote.rs:127-134 | the files in order up to the first that cannot be read, is stopped or fails, each logged once it is there |
| Pushing.PushMetadata | crates/publish/src/remote.rs:63-72 | the calls a metadata push makes, as many as were answered, and the log of exactly the assets put |
| Pushing.PushGeneration | crates/publish/src/remote.rs:80-96 | the calls a generation's push makes, as many as were answered, and the log of exactly the assets put |
| Pushing.PushFiles | crates/publish/src/remote.rs:88-96 | the same from the manifest on |
| Pushing.PushLogsExactly | crates/publish/src/remote.rs:80-96 | a push that went through has logged the manifest and the files in order, up to the first unreadable one or as many as it was to stop after |
| PushLaws.ReplacementKeepsBytes | crates/publish/src/host.rs:266-291 | at every call of a replacement the old or the new bytes are on the release under the name or the staging name |
| PushLaws.PutCompletes | crates/publish/src/host.rs:273-291 | a put that completes leaves the new bytes, no staged copy, and the rest alone |
| PushLaws.RetryForgetsTheCut | crates/publish/src/host.rs:266-291 | a retry of a put cut at any call ends where an uncut put ends |
| PushLaws.CutPushIsSafeExactly | crates/publish/src/remote.rs:80-145 | before its last call a push shows the chain served before it, or no entry point, exactly when it rewrites none of the files that chain reads |
| PushLaws.CompletePushServesExactly | crates/publish/src/remote.rs:80-96 | a completed push, over whatever an earlier one left, is always walked, and whole exactly when the manifest it names is there or was pushed |
| PushLaws.PublishedFilesArePushed | crates/publish/src/remote.rs:127-134 | what a publish reported is what its push sends |
| PushLaws.StoppedPushIsACut | crates/publish/src/remote.rs:136-145 | a push told to stop is a cut of the whole push |
| PushLaws.PublishPushExactly | crates/publish/src/remote.rs:80-96 | a publish's push is safe to cut exactly when host and new chain differ in snapshot version, targets version and manifest; completed it serves the generation |
| PushLaws.PublishPushFromASyncedWorkspace | crates/publish/src/remote.rs:16-20 | so a host no further on than the workspace and serving another manifest is never seen torn |
| PushLaws.ResignPushExactly | crates/publish/src/remote.rs:63-72 | the same for a re-sign, which is whole at its end exactly when the host already has the manifest |
| PushLaws.FirstPushShowsNothingEarly | crates/publish/src/remote.rs:80-96 | a first push shows no entry point until its last call |
| CatalogEngine.ActivationLog.Activated | crates/catalog/src/record.rs:105-111 | the active pin moves to previous unless it is the same generation |
| CatalogEngine.ActivationLog.Note | crates/catalog/src/record.rs:132-144 | one event appended, the oldest beyond the cap drained |
| CatalogEngine.PayloadStore.Ensure | crates/catalog/src/payload.rs:69-95 | the libraries exactly when every name is plain and the tree, found or extracted whole, has each of them |
| CatalogEngine.PayloadStore.Retain | crates/catalog/src/payload.rs:151-169 | exactly the live trees are left, and those that would not go |
| CatalogEngine.Backend.SwapPlugins | crates/player/src/lib.rs:168-180 | session and old set go first; what loads is resident, and how many and whether any was rejected |
| CatalogEngine.PluginCatalog.BootOnce | crates/catalog/src/lib.rs:223-242 | the boot queue and first candidate, once |
| CatalogEngine.PluginCatalog.Recover | crates/catalog/src/lib.rs:292-319 | the previous set reloaded, or nothing loaded and nothing resident |
| CatalogEngine.PluginCatalog.CleanUp | crates/catalog/src/lib.rs:327-343 | only the activated generation and the one before it are kept, and what would not go |
| CatalogEngine.PluginCatalog.Activate | crates/catalog/src/lib.rs:250-289 | all of a generation's set, or a recovery |
| CatalogEngine.PluginCatalog.Tick | crates/catalog/src/lib.rs:162-171 | a completion waits in the one pending place; activation only with nothing mounted |
| CatalogEngine.PluginCatalog.Mount | crates/catalog/src/lib.rs:179-191 | what waits activates at the boundary, then the song opens on what is there |
| CatalogLaws.MountExactly | crates/catalog/src/lib.rs:173-191 | a mount loads what waits exactly when it activates, else puts the old set back exactly when that loads, and the song opens only on what is loaded |
| CatalogLaws.MountOfNothing | crates/catalog/src/lib.rs:173-191 | with nothing waiting a mount swaps nothing |
| CatalogLaws.FirstMountBoots | crates/catalog/src/lib.rs:173-242 | the first mount loads the first boot candidate exactly when it is clean |
| CatalogEngine.SortByAge | crates/catalog/src/lib.rs:229-229 | the stable sort by modification time |
| CatalogLaws.StepKeepsGood | crates/catalog/src/lib.rs:162-319 | each step keeps: nothing loaded and nothing resident, or one full set resident from a complete tree and the record naming it; a song plays only on an accepted set |
| CatalogLaws.RunKeepsGood | crates/catalog/src/lib.rs:162-319 | the same after any run of ticks, mounts, completions and refusals from a fresh start over whatever an earlier run left |
| CatalogLaws.RunKeepsTheFallback | crates/catalog/src/lib.rs:292-343 | while no tree outlives its install, the loaded set stays installed with its tree, so a recovery finds it |
| CatalogLaws.TickLeavesASessionAlone | crates/catalog/src/lib.rs:162-171 | a tick under a live session swaps nothing |
| CatalogLaws.ActivationExactly | crates/catalog/src/lib.rs:250-319 | what waits becomes loaded exactly when it extracts and loads in full; otherwise the previous set stays exactly when it reloads |
| CatalogLaws.ActivatesExactly | crates/catalog/src/payload.rs:69-95 | what activating takes: plain names, each in the tree there is or in what extracts, every library loading, and as many plugins as artifacts |
| CatalogLaws.ShortSetIsRefused | crates/catalog/src/lib.rs:360-363 | of libraries with at most one plugin each, a set is accepted exactly when every one brings its own |
| CatalogLaws.PlainNamesAreOneStep | crates/catalog/src/payload.rs:23-35 | which names are plain, and that none has a separator or a dot |
| CatalogLaws.ReactivationSwapsNothing | crates/catalog/src/lib.rs:250-258 | the loaded set completed again is not loaded again |
| CatalogLaws.ActivationIsLogged | crates/catalog/src/record.rs:105-130 | the event an activation leaves last in the history |
| CatalogLaws.RetentionExactly | crates/catalog/src/lib.rs:327-343 | what an activation leaves on disk, exactly; the replaced set is among it |
| CatalogLaws.CollectedCompletionIsLost | crates/catalog/src/lib.rs:327-343 | a generation completed but not yet read is collected by another's activation and cannot load later |
| CatalogCompletions.CompletionCanBeCollected | crates/catalog/src/lib.rs:327-343 | a run of three generations that all load in which the third is |
| CatalogLaws.HistoryIsTheLastEvents | crates/catalog/src/record.rs:132-144 | the history is the last events there ever were, as many as fit |
| CatalogBoot.ByAgeSorts | crates/catalog/src/lib.rs:229-229 | a permutation, older before newer, equal times in listing order |
| CatalogBoot.BootOrderExactly | crates/catalog/src/lib.rs:223-242 | every listed generation as often as listed, the recorded one first, the rest newest first |
| CatalogBoot.BootTriesInOrder | crates/catalog/src/lib.rs:292-300 | each tick of a boot tries the next candidate until one is clean |
| CatalogBoot.BootLoadsTheFirstClean | crates/catalog/src/lib.rs:250-300 | the first clean candidate is loaded by its tick |
| CatalogBoot.BootConverges | crates/catalog/src/lib.rs:223-300 | within as many ticks as candidates the first clean one is loaded, or none is and nothing is resident |
| CatalogCompletions.CandidateLoadsExactly | crates/catalog/src/lib.rs:162-171 | a candidate whose turn it is, and who would load, is loaded by its tick exactly when nothing else completes in that tick |
| CatalogCompletions.CandidatesComeUpInOrder | crates/catalog/src/lib.rs:292-300 | while turns load nothing, candidates come up one a turn, whatever completes and is installed meanwhile |
| CatalogCompletions.FirstCleanLoadsExactly | crates/catalog/src/lib.rs:162-300 | in a boot with completions, a candidate nothing loads ahead of is loaded by its turn exactly when it is clean and no other completion takes that turn |
| CatalogCompletions.LostTurn | crates/catalog/src/lib.rs:162-171 | a candidate whose turn a completion took is neither loaded, pending nor queued |
| CatalogCompletions.GoneForGood | crates/catalog/src/lib.rs:223-300 | and never loads again unless it is reported itself |
| CatalogCompletions.CompletionCanLoseTheRecordedGeneration | crates/catalog/src/lib.rs:162-171 | a run in which an installed completion that will not extract costs a clean recorded generation its turn for good |
| ScopeTraces.BucketsAreConsecutive | crates/present/src/lib.rs:72-73 | buckets are non-empty, consecutive and cover the input, for any length and capacity |
| ScopeTraces.EverySampleHasItsBucket | crates/present/src/lib.rs:72-73 | every sample is in exactly one |
| ScopeTraces.PeakSurvives | crates/present/src/lib.rs:58-89 | the trace's peak is the input's, up to full scale |
| ScopeTraces.VertexIsItsSample | crates/present/src/lib.rs:72-89 | each vertex is the loudest sample of its bucket, the first of those, with its sign and held to full scale |
| ScopeTraces.SpansTheWidth | crates/present/src/lib.rs:66-86 | the polyline is evenly spaced from 0 to 1 |
| ScopeTraces.ScopeTrace.Fill | crates/present/src/lib.rs:58-89 | each vertex is its bucket's loudest sample clamped; no samples are a flat line |
| ScopeTraces.ScopeTrace.CopyFrom | crates/present/src/lib.rs:93-98 | another trace's points, as many as fit |
| ScopeTraces.LargestOf | crates/present/src/lib.rs:74-80 | the loop finds the sample of largest magnitude, the first of equals |
| VuMeters.VuMeter.Tick | crates/present/src/lib.rs:407-418 | each channel read rises at once or falls by the rate; the others keep their level |
| VuMeters.VuMeter.TickScopes | crates/present/src/lib.rs:422-443 | the same with each scope's peak as the reading |
| VuMeters.LevelIsTheLoudestDecayed | crates/present/src/lib.rs:407-418 | a channel in every tick shows the maximum of its clamped readings, each less its fall since, within 0 to 1 |
| PatternGrids.ColumnOfIndex | crates/present/src/lib.rs:325-337 | in a row-major window a cell's column is its place in its channel |
| PatternGrids.ClassExactly | crates/present/src/lib.rs:129-151 | the class a cell gets from its text and column, both ways |
| PatternGrids.ReloadsExactly | crates/present/src/lib.rs:296-311 | of two captures in a row the second reloads the cells exactly if pattern or rows differ |
| PatternGrids.NoPositionForgets | crates/present/src/lib.rs:296-311 | a capture without a position shows nothing and makes the next one reload |
| PatternGrids.TextWidthOfAlike | crates/present/src/lib.rs:275-291 | columns side by side take their widths and a space between each two |
| PatternGrids.CopyKeepsWhatFits | crates/present/src/lib.rs:342-351 | a copy into a grid no smaller is the same window, into a smaller one its leading whole rows |
| PatternGrids.RendererSeesTheDecoder | crates/present/src/lib.rs:296-372 | loaded, copied and read, each cell is the decoder's, classified by its column, inside the window and blank outside |
| PatternGrids.BlockAt | crates/present/src/lib.rs:356-372 | a block of rows holds each asked row in its place |
| PatternGrids.PatternGrid.Load | crates/present/src/lib.rs:315-337 | the window's whole rows, as many as fit |
| PatternGrids.PatternGrid.FillFrom | crates/present/src/lib.rs:296-311 | the cells change exactly when the window moved or the position went |
| PatternGrids.PatternGrid.CopyFrom | crates/present/src/lib.rs:342-351 | the other grid's window, key and cursor |
| PatternGrids.PatternGrid.Row | crates/present/src/lib.rs:266-273 | a row's cells exactly inside the window |
| PatternGrids.PatternGrid.CopyRows | crates/present/src/lib.rs:356-372 | whole rows only, each the window's or blank, and nothing written past them |
| PatternGrids.PatternGrid.ColumnsFitting | crates/present/src/lib.rs:279-291 | the longest leading run of columns that fits, one at the least |
| Captures.Published.Capture | ui-quickshell/bridge/src/engine.rs:983-1021 | after any capture the front's cells are the worker's, and touched only when the revision moved |
| Captures.Scopes.Capture | ui-quickshell/bridge/src/engine.rs:990-1010 | every front trace shows its channel's samples, as the worker's does |
| Captures.GridFollowsTheSong | crates/present/src/lib.rs:296-311 | however few captures reload the cells, the grid shows the pattern and rows the song is in, or nothing |
| Pacing.Pacer.Earn | ui-quickshell/bridge/src/engine.rs:1305-1314 | whole frames of what is owed, capped at one render |
| Pacing.Output.TopUp | ui-quickshell/bridge/src/engine.rs:1321-1353 | one call is exactly one step of the run below, and what it renders goes on the ring scaled |
| Pacing.StepPays | ui-quickshell/bridge/src/engine.rs:1305-1352 | one step keeps ring and debt in bounds, paced frames paid by time or debt |
| Pacing.RunPays | ui-quickshell/bridge/src/engine.rs:1290-1352 | over any run the ring never overfills, the debt stays within one render, and paced frames total at most the initial debt plus what time earned |
| Pacing.EarnedIsRendered | ui-quickshell/bridge/src/engine.rs:1305-1352 | with room between the marks every whole frame earned is rendered, or the ring is filled |
| Pacing.SteadyRunsKeepPace | ui-quickshell/bridge/src/engine.rs:1290-1352 | a run with room throughout renders what its time earned, to within a frame, however it is cut into calls |
| Pacing.LowRingRefillsAtOnce | ui-quickshell/bridge/src/engine.rs:1336-1342 | a ring that ran low is back over the mark after one delivered call |
| Pacing.FullRingOwesNothing | ui-quickshell/bridge/src/engine.rs:1329-1333 | a ring found full renders nothing and carries less than a frame |

## Left out

- Signatures, key thresholds, expiry and the root role of the update framework: every file here verifies and none lapses; `verify.rs`, `init.rs` and the key ceremony are not part of this model.
- The hash functions and canonical JSON: a digest is a constructor around the content it is of.
- JSON text of playlists, records and release listings: round trips are over the document value.
- Files, directories, archives and the network: what they answer comes in as a parameter, and each write is one step.
- The body of a transfer (cache, HTTP, retries): a worker's outcome comes in with its settle step. That it pauses only when asked to is a premise, `TransferYields.Asked`.
- TransferQueues.TransferQueue.Enqueue: neither the shutdown flag nor a thread that fails to start; the second leaves what a worker dying before its claim leaves (`TransferLaws.FailedStartIsAnUnwind`), and a panic of the start hook is such a death.
- TransferQueues.TransferQueue.Resume: as for `Enqueue`.
- TransferQueues.TransferQueue.ClaimNext: as for `Enqueue`; a queue shutting down claims nothing more.
- `Applier::fetch`, which places nothing: it shares `settle`'s error cases only.
- Release asset identifiers: a name stands for the asset, so two publishers racing on one release are not modelled; neither is a failed request that the host nevertheless performed (both its outcomes are cuts the theorems cover).
- ReleaseHosts.Host.EnsureRelease: without the second publisher there is no lost create race, so its tolerated 422 does not occur.
- PublishChain: a file of another role under a role's name reads as malformed here; the code does not look at the type field, and no run of it puts one there.
- Percent encoding, tag and URL texts, which have no state.
- Titles, artists and the rest of a track's metadata, visualization layouts and labels: plain copies.
- The audio device, the library scan, the worker's command loop and its documents.
- Not-a-number samples and rounding: floats are reals.
- `window_hi`'s saturation at the last 32-bit row.
- Playlist: a stored playlist is a value inside the engine's sequence, so references into it are not modelled; `edit_item`'s closure is a function of the item's public fields, with no other effect.
- Applying.Applier.Acquire: takes the queue by its contract as one apply sees it (tickets that settle after some polls, slots other applies free in time), not the worker protocol of `TransferQueues`; that a settled entry is removable is `TransferLaws.SettledCanBeRemoved`.
- InstallRoots.InstallRoot.Retain: runs without interruption; the window between its check and its deletes is in `InstallProtocol`, of which it is a run. A directory with no file in it is not an id here.
- CatalogEngine.PluginCatalog.CleanUp: evicting cached archives is not modelled.
- CatalogEngine.PayloadStore.Retain: a payload tree is there whole or not at all, so the staging leftovers it also clears are not modelled.
- Captures.Published.Capture: one song's grid; the buffers a new song brings are a new object.
