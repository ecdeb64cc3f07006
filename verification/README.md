# libpkgapply-posix: verified model

The library applies package operations to a live filesystem and must survive a crash at any system
call. This project models its protocols in Dafny and proves what they keep, step by step and over
whole runs. `dafny verify dfyconfig.toml` checks everything.

## What is modelled

**The active namespace** (`Tree`, `Workspace`, `Namespace`, `Guard`, `Registration`, `Discard`, `ActiveNamespace`). A directory
is a map from names to nodes and a node carries its inode number. A managed path has three sibling
names: its leaf, a prepared name and a displaced name. The sixteen-byte digests in the two sidecar names
are injective constructors, disjoint from every ordinary name. `PathWorkspace` runs the short programs of
renames, links and unlinks on those three names. Each call is one atomic step and may fail without effect
(`faulted` then says so). `ActiveNamespace` holds the target, the ledger of attempted and completed
effects and the operations. After every call, those of the refresh of the directories above included, the
target joins the ghost set `trail`: that is where a crash can find it. Each operation is proved against a
relation in `Namespace` or `Discard` that says what it leaves in every outcome, and every target of its
trail against the relation of a stopped operation. Everything else about the active namespace is proved
about those relations:

- `Erasure`, `Undo`, `WholeRun`: recovery undoes operations and whole runs, also a run whose last operation
  was cut short, and directories keep the metadata they were admitted with.
- `Refinement`: with the sidecars hidden, every run is a run of a plain path map.
- `Crash`, `Coherence`, `Conservation`: crashes at any call and recovery from them, the absence of
  contradictory states, and the survival of every old object.
- `Cleanup`, `RunCleanup`: discarding recovery material, for one path and after a whole run, also with
  attempts cut short.
- `Restart`: a new process rebuilds the ledger. `HardLinks`: old hard-link groups come back.
- `Outcomes`, `DiscardOutcomes`, `Rebuilding`: what the outcomes of admission, publication, removal, replay, discard
  and recovery from a capture mean to someone who looks at the target, in types, metadata, contents and names.
- `Durability`: which filesystems a confirmation vouches for, and that it covers every operation before it that
  handed over the directories it changed.

**The stores and the lease.** `Journal` is a state machine of processes that publish immutable values,
replace the cursor under its lock and follow request locators, with reads and writes in pieces, failing
calls and crashes; completed evidence (`src/completed_evidence_store.cpp:282-341` and `493-524`) is one
more kind of immutable value in the same machine. `JournalOutcomes` says what each result tells its caller and that
a process left alone finishes. `StepNames` covers the names of journal steps. `Lease` is a state machine of lock
acquisitions against an outside world that rebinds any name at any time. `PayloadStage` is the stage
object, with a whole replay into it. `Bytes`, `CaptureRecord` and `CaptureLayout` are the encoders and decoders of
private capture records and the places of everything in their files.
`RejectedStore` is the rejected-object store with its attempt bindings and its identity index.

Five properties hold only under a condition that the code does not check, and for each the exact condition
is proved and a failing input given. A completed publication leaves its prepared name behind exactly when it
linked a file over itself (`Crash.PreparedLeftIff`, `Crash.PreparedStays`). A crashed operation that left no
sidecar, an update in place or a publication over nothing, is recovered when the ledger still mentions its path
(`Crash.CrashedOperationRecovers`) and only then, unless the path still is as admitted (`Crash.ForgottenChange`,
`Crash.ForgottenUpdate`): a restart rebuilds the ledger from recorded results alone. A completed operation hands
every directory it changed to the durability authority unless it is a recovery that only takes a prepared name
away, or the descriptor of the directory cannot be duplicated after an object without a descriptor of its own
moved in (`Registration.Accounted` in the contracts of the operations, `Durability.UnseenRecovery`,
`Durability.UnseenPublication`). A stored capture record is read
back exactly when its file, envelope included, is at most four mebibytes and it is meaningful
(`CaptureRecord.RecordRoundTrip`, `CaptureRecord.OversizedRecord`). A published rejected object is found by
request exactly when its record file is at most four mebibytes, and by identity exactly when, besides, its
reason belongs to its source side (`RejectedStore.FoundIffReadable`, `RejectedStore.OversizedRecord`,
`RejectedStore.MismatchedReason`); publishing a larger record again is refused, so a crash before it was
indexed is never repaired.

## Model

| member | source | states |
|---|---|---|
| WholeRun.WholeRunUndo | src/active_namespace.cpp:1703-2004 | for every run of completed publishes and removes on distinct admitted paths, with present paths captured, directories activated before work beneath them and hard-link anchors before their members, recovering in reverse order always completes, restores every admitted observation and every object up to the times nobody tracks, and leaves no sidecar |
| WholeRun.CutShortRunUndo | src/active_namespace.cpp:1703-2004 | the same when one more operation of any kind was stopped at any call after the run, and its recoveries at any call, before one of them could finish; if it left no sidecar, under the ledger in force when it stopped |
| WholeRun.OrderAnchors | src/active_namespace.cpp:913-982 | when anchors are published before their members, each new hard link of a run joins an anchor in place with its metadata |
| Undo.RollbackTo | src/active_namespace.cpp:1853-2004 | the recoveries of a run, in reverse order, reach its earlier targets one after the other, from any equal target and any ledger that agrees about each path |
| Undo.UndoStep | src/active_namespace.cpp:1853-2004 | one recovery without a failing call puts back what one completed operation changed, in any target equal up to untracked times |
| Undo.SteadyStep | src/active_namespace.cpp:1550-1606 | after every completed operation each admitted directory in place carries its admitted metadata, or its incoming metadata once activated |
| Undo.DriftNeverBlocks | src/active_namespace.cpp:223-264 | at every point of every run the admission check of an admitted directory still succeeds, or matches the incoming entry down to its time once activated |
| Undo.StepElsewhere | src/active_namespace.cpp:1703-1851 | a completed operation moves no object of a path that is neither above nor beneath its own |
| Undo.RunLedger | src/active_namespace.cpp:1190-1215 | the ledger of a run is its operations, completed, in order |
| Undo.PublishedMatches | src/active_namespace.cpp:913-982 | an object published where nothing was is recognised as the incoming one, hard links included |
| Erasure.Cancel | src/active_namespace.cpp:1550-1606 | a change at a path and a later one that puts its names back cancel out, metadata of tracked directories included |
| Drift.DriftedAdmit | src/active_namespace.cpp:223-264 | metadata drift above a path changes no admission check of it, not even one that consults a hard-link anchor elsewhere |
| Refinement.RunRefines | src/active_namespace.cpp:1703-1851 | hiding sidecars and directory times, a whole run of completed operations is the same run of a plain path map, inode numbers included |
| Refinement.StepSound | src/active_namespace.cpp:421-533 | every completed operation keeps inode numbers below the next new one and links of one inode equal, at every depth and inside sidecars |
| Refinement.PublishRefines | src/active_namespace.cpp:1703-1781 | a completed publish is a plain put of the new object, of the anchor's object, or of new directory metadata |
| Refinement.RemoveRefines | src/active_namespace.cpp:1783-1841 | a completed remove is a plain unlink, or the rmdir of a directory that shows no name |
| Refinement.RefusalRefines | src/active_namespace.cpp:1703-1851 | a failed or conditionally retained operation shows no change, whatever calls failed |
| Refinement.RemovalIff | src/active_namespace.cpp:1235-1301 | a captured directory is let go exactly when it holds nothing but recovery material of completed captured removals of the admitted kinds; one that still shows a name is retained untouched |
| Crash.CrashedOperationRecovers | src/active_namespace.cpp:1703-2004 | stop any publish or remove on a recoverable path at any call, then any number of recoveries at any call: one recovery without a failing call restores the admitted leaf and clears both sidecars; a change that left no sidecar needs its ledger entry for that |
| Crash.ForgottenChange | src/active_namespace.cpp:1910-1917 | without a sidecar and without a ledger entry, no recovery of a path that is not as admitted completes or changes its names |
| Crash.ForgottenUpdate | src/active_namespace.cpp:1722-1736 | a concrete directory, updated in place and stopped before its result was recorded, that no recovery restores after a restart |
| Crash.CrashConvergence | src/active_namespace.cpp:1853-1908 | the same from any interrupted state, by induction over the stopped recoveries; only the target before the operation must let the directories above be refreshed |
| Conservation.OldObjectSurvives | src/active_namespace.cpp:629-691 | over every run of operations stopped anywhere, the object that stood at a captured path, the same file or the same directory, is at its leaf, at its displaced name, or inside a displaced directory above it; for a member of a hard-link group the anchor is captured too |
| Conservation.PublishKeeps | src/active_namespace.cpp:629-691 | no publication, at whatever call it stops, loses the old object of a captured path, its own or any other |
| Conservation.RemoveKeeps | src/active_namespace.cpp:1818-1841 | no removal, captured or not, loses the old object of a captured path; what was moved aside beneath it goes along |
| Conservation.RecoverKeeps | src/active_namespace.cpp:1881-1908 | no recovery, at whatever call it stops, drops a displaced object, one inside it, or an old object still recognised at its leaf |
| Conservation.LinkIsRecognised | src/active_namespace.cpp:209-264 | a member of a hard-link group still at its leaf is recognised wherever its anchor is kept |
| Crash.PreparedLeftIff | src/active_namespace.cpp:673-691 | a completed publication leaves its prepared name behind exactly when the leaf already is the linked file |
| Crash.PreparedStays | src/active_namespace.cpp:673-691 | a concrete target in which it does |
| Coherence.NeverContradictory | src/active_workspace.cpp:317-339 | from a target without sidecars, no run of operations stopped anywhere makes any path contradictory, also inside directories that were moved aside |
| Cleanup.RejectedDeletesNothing | src/active_namespace.cpp:2046-2056 | a displaced tree that validation rejects is not touched, whatever calls fail |
| Cleanup.OnlyRecoveryMaterialGoes | src/active_namespace.cpp:1376-1442 | whatever a discard removed, at any depth, was a sidecar of a completed captured removal; the leaf never changes |
| Cleanup.DiscardFinishes | src/active_namespace.cpp:2006-2074 | after any number of discards stopped at any call, one without a failing call finishes the work; only the target before the first must let the directories above be refreshed |
| Cleanup.SidecarBlocks | src/active_namespace.cpp:1444-1483 | while the sidecar of the shallowest removed directory remains, discarding anything beneath is refused without a change |
| Cleanup.DiscardedCovers | src/active_namespace.cpp:2006-2012 | once it is discarded, every discard beneath it completes without a change |
| Cleanup.TopDecides | src/active_namespace.cpp:1444-1483 | the shallowest completed captured removed directory decides for every path beneath it |
| RunCleanup.WholeRunCleanup | src/active_namespace.cpp:2006-2074 | after any run, discarding its paths, directories before what is beneath them, always completes, leaves no reserved name anywhere, shows the same target and keeps all tracked metadata |
| RunCleanup.CutShortCleanup | src/active_namespace.cpp:2006-2074 | the same, but for modification times, when any number of attempts on any paths in any order stop at any call in between; only the undisturbed attempts need the order |
| RunCleanup.StoppedDiscard | src/active_namespace.cpp:2044-2072 | a discard, wherever it stops, leaves sidecars that validation accepts, shows no change and brings no sidecar back |
| RunCleanup.TidyStep | src/active_namespace.cpp:1235-1301 | every sidecar a run leaves is one that validation accepts |
| RunCleanup.DiscardOne | src/active_namespace.cpp:2006-2074 | a discard completes once the discarded directory above it is gone, and brings no other sidecar back |
| DiscardOutcomes.TopAnswers | src/active_namespace.cpp:1444-1483 | the shallowest completed captured removed directory above a path, by its state: displaced or out of reach blocks the discard, discarded leaves nothing to do, and standing again lets a discardable object go, after which the path has no sidecar |
| DiscardOutcomes.NoTopAnswers | src/active_namespace.cpp:2006-2074 | the same answers of an undisturbed discard when there is no such directory |
| DiscardOutcomes.ClearedByDiscard | src/active_namespace.cpp:2006-2074 | a completed discard, whatever decided it, leaves no displaced object of a path whose directory can be opened, and its leaf as it was |
| DiscardOutcomes.OnlyOwnGoes | src/active_namespace.cpp:1376-1442 | whatever its outcome, a discard takes something away only from a displaced file or a tree of this attempt's sidecars, brings nothing in, and leaves leaf and prepared name |
| DiscardOutcomes.DiscardableMeans | src/active_namespace.cpp:2028-2056 | a displaced object may go exactly when nothing is prepared beside it, it is of the observed type and, as a directory, holds only this attempt's sidecars of the observed types at every depth |
| Discard.ValidPruned | src/active_namespace.cpp:1303-1442 | what is left of an accepted tree after an interrupted removal is again accepted |
| Discard.ShorterTextIsShallower | src/active_namespace.cpp:1462-1466 | comparing text lengths of directories above one path orders them by depth |
| Restart.RestartRebuilds | src/backend.cpp:769-800 | after a crash between operations, replaying the recorded results succeeds and rebuilds exactly the lost ledger, in order |
| Restart.EffectsStay | src/active_namespace.cpp:1608-1672 | every completed effect of a run stays visible in the way replay checks for, until the run ends |
| Restart.ObjectStays | src/active_namespace.cpp:1703-1851 | a completed operation takes no object away but the one at its own path |
| Restart.EnsureActiveNamespace | src/backend.cpp:769-800 | binding replays the recorded results that changed the target, in order, and stops at the first refusal |
| HardLinks.GroupRecovers | src/active_namespace.cpp:209-264 | recovering anchor and member in either order completes, each admission check succeeding on the way, and both names end as links of the one old inode; the first recovery never spoils the directories above the second |
| HardLinks.GroupMovesAside | src/active_namespace.cpp:1703-1851 | operating on anchor and member in either order displaces two links of one inode |
| Rebuilding.CaptureRebuilds | src/active_namespace.cpp:1910-1991 | when no sidecar is left, an undisturbed recovery of a changed path with an exact capture completes whenever the leaf can be replaced, and an object of the observed type, metadata and content stands there; a directory still in place keeps what it holds |
| Rebuilding.MemberRebuilds | src/active_namespace.cpp:982-1037 | the same for a member of a hard-link group: it comes back as the very file of its anchor, whether that stands at the anchor's leaf or at its displaced name |
| Rebuilding.DiscardedComesBack | src/active_namespace.cpp:1783-2074 | an object that was removed and whose recovery material was discarded, by whatever directory decided, is still recovered as it was observed |
| Rebuilding.RecoverSound | src/active_namespace.cpp:1853-1991 | every completed recovery keeps inode numbers below the next new one and links of one inode equal, as completed operations do |
| Outcomes.AdmitMeans | src/active_namespace.cpp:223-264 | a path passes the admission check exactly when it shows nothing, or an object of the observed type, metadata and content that, as a member of a group, is its anchor's old file |
| Outcomes.PublishedLooks | src/active_namespace.cpp:421-533 | after a completed publication the leaf has the incoming type, case by case, metadata and content, or is the anchor's file; a directory in place keeps its contents; the old object is displaced exactly when it had to give way |
| Outcomes.PublishesWhen | src/active_namespace.cpp:1703-1781 | without a failing call an admitted publication completes exactly when the old object can give way and the incoming one can be built |
| Outcomes.FailsWhen | src/active_namespace.cpp:1703-1781 | without a failing call a publication that does not complete fails, leaf and displaced name untouched; it throws only when the directory of a hard-link anchor cannot be opened |
| Outcomes.RefusedPublication | src/active_namespace.cpp:1703-1743 | a refused publication changes nothing, and each refusal has its outcome |
| Outcomes.CompletedRemoval | src/active_namespace.cpp:1783-1851 | a removal completes only when the admitted object was there and its name is free; a captured object is at the displaced name, any other is gone |
| Outcomes.RemovesWhen | src/active_namespace.cpp:1783-1851 | without a failing call an admitted removal completes exactly for a file, an empty directory, or a captured directory that holds nothing but its attempt's sidecars of the observed types |
| Outcomes.StaysWhen | src/active_namespace.cpp:1235-1301 | without a failing call a removal that does not complete changes nothing; a directory is conditionally retained for a foreign name, and the matter is left open only for an own name of another type |
| Outcomes.RetainedMeans | src/active_namespace.cpp:1818-1851 | whatever calls failed, only a directory is conditionally retained, unchanged, and it holds something that is no sidecar of this attempt, or anything when it is not captured |
| Outcomes.RefusedRemoval | src/active_namespace.cpp:1783-1817 | a refused removal changes nothing, and each refusal has its outcome |
| Outcomes.OperationLedger | src/active_namespace.cpp:1190-1215 | whatever its outcome, an operation leaves one entry of its path in the ledger, completed when it completes and as it was when it fails, and every other entry as it was |
| Outcomes.ThrowsMeans | src/active_namespace.cpp:1550-1606 | once the object is in place, gone or recovered, an operation throws only when a directory above it was activated from an entry that is no directory's or was observed as a file; a directory with another owner or mode leaves the matter open |
| Outcomes.RefusedRecovery | src/active_namespace.cpp:1853-1991 | without a failing call a recovery that does not complete leaves the matter open; it throws only for an unreachable hard-link anchor or an object that cannot be built, and changes nothing when all three names are taken or the ledger does not mention the path |
| Outcomes.StoppedPublication | src/active_namespace.cpp:629-691 | wherever a publication stops, the old object stands at the leaf, or at the displaced name with nothing at the leaf, or the publication is done; the prepared name never holds a directory with contents |
| Outcomes.StoppedUpdate | src/active_namespace.cpp:693-747 | wherever an update in place stops, it is the same directory with the same contents, and each part of its metadata is the old or the incoming one |
| Outcomes.StoppedRemoval | src/active_namespace.cpp:1818-1841 | wherever a removal stops, nothing has happened yet or it is done |
| Outcomes.StoppedRecovery | src/active_namespace.cpp:1881-1908 | wherever the recovery of a displaced object stops, that object is at its displaced name, or at the leaf with nothing beside it |
| Outcomes.StoppedClearRecovery | src/active_namespace.cpp:1910-1991 | wherever a recovery without a sidecar stops, it has changed the names only of a path that is not as admitted and that the ledger mentions, and then either took away an object this attempt published over nothing, still recognised in type, metadata and content, or worked from an exact capture |
| Outcomes.ReplayedPublication | src/active_namespace.cpp:1608-1672 | a recorded publication is entered exactly when the target shows an object of the incoming type, metadata and content, a directory's time apart, or a link of the anchor, and no removal was entered |
| Outcomes.ReplayedRemoval | src/active_namespace.cpp:1608-1672 | a recorded removal is entered exactly when nothing stands at the path, no file stands in its way, and no publication was entered |
| Outcomes.ReplayedRest | src/active_namespace.cpp:1608-1672 | the other results leave the ledger, enter an attempted effect or are refused, and when |
| ActiveNamespaces.ValidateHardLinks | src/active_namespace.cpp:152-168 | accepts an image exactly when every hard link names a regular anchor with its own metadata |
| ActiveNamespaces.ActiveNamespace.PublishIncoming | src/active_namespace.cpp:1703-1781 | every outcome of a publication, and every target on its way: refusals change nothing, completion leaves the incoming object and the refreshed directories and hands every changed directory over, owners and modes above stay or become the incoming ones, and without a failing call it completes exactly when it can; a failed one leaves all three names as they were unless an undoing call fails too |
| ActiveNamespaces.ActiveNamespace.RunPublication | src/active_namespace.cpp:1722-1762 | the calls of a publication on the three names, update in place included |
| ActiveNamespaces.ActiveNamespace.PrepareIncoming | src/active_namespace.cpp:1738-1757 | one preparation per entry type; it succeeds exactly when the entry can be prepared, and leaves nothing that cannot be removed |
| ActiveNamespaces.ActiveNamespace.Remove | src/active_namespace.cpp:1783-1851 | every outcome of a removal, and every target on its way: the object goes in one step or not at all, captured objects to their displaced name, and every changed directory is handed over |
| ActiveNamespaces.ActiveNamespace.RemoveAdmitted | src/active_namespace.cpp:1815-1851 | the same once the request is let in |
| ActiveNamespaces.ActiveNamespace.RunRemoval | src/active_namespace.cpp:1818-1836 | the single rename or unlink that removes the object |
| ActiveNamespaces.ActiveNamespace.Recover | src/active_namespace.cpp:1853-2004 | every outcome of a recovery, and every target on its way; completion is claimed only when the admitted observation holds again, and every changed directory is handed over unless only a prepared name went |
| ActiveNamespaces.ActiveNamespace.RunRecovery | src/active_namespace.cpp:1870-1908 | the branches by workspace state, each reaching the planned names or giving up |
| ActiveNamespaces.ActiveNamespace.RunClearRecovery | src/active_namespace.cpp:1910-2004 | without sidecars: nothing to do, removal of what was published, metadata put back, or a rebuilt object |
| ActiveNamespaces.ActiveNamespace.PrepareCapture | src/active_namespace.cpp:1955-1991 | the rebuilt object, or one more link of the old group's anchor wherever that stands |
| ActiveNamespaces.ActiveNamespace.CompletedRecovery | src/active_namespace.cpp:1862-1867 | recovery is claimed only after the admission check, before and after the refresh |
| ActiveNamespaces.ActiveNamespace.LogicalDirectoryContents | src/active_namespace.cpp:1235-1301 | empty or recovery material only exactly when every name is recovery material of an admitted kind, in any reading order |
| ActiveNamespaces.ActiveNamespace.CompletedCapturedRemovalChild | src/active_namespace.cpp:1217-1232 | finds the completed captured removal a name belongs to, exactly when there is one |
| ActiveNamespaces.ActiveNamespace.RefreshAncestors | src/active_namespace.cpp:1550-1606 | done means every tracked directory above carries its goal, no other changed, and each one with other metadata was handed over; at every call on the way an activated directory has the old or the incoming owner and mode and any other its own; only a failing call or a directory of another owner stops it |
| ActiveNamespaces.ActiveNamespace.RestoreAdmitted | src/active_namespace.cpp:1492-1548 | the admitted time comes back exactly when owner and mode are as admitted and no call fails, otherwise nothing changes |
| ActiveNamespaces.ActiveNamespace.ValidateRecoveryTree | src/active_namespace.cpp:1303-1374 | accepts exactly the trees that hold, at every depth, sidecars of completed captured removals of their admitted kinds |
| ActiveNamespaces.ActiveNamespace.RemoveRecoveryTree | src/active_namespace.cpp:1376-1442 | success means emptied; an accepted tree is always emptied unless a call fails; every state on the way lost recovery material only, from the bottom up |
| ActiveNamespaces.ActiveNamespace.ListRecovery | src/active_namespace.cpp:1395-1417 | lists the recovery children, and nothing when another name stands there |
| ActiveNamespaces.ActiveNamespace.NestedCleanupState | src/active_namespace.cpp:1444-1483 | the ledger scan by text length finds the shallowest completed captured removed directory, and its workspace state decides |
| ActiveNamespaces.ActiveNamespace.DiscardRecovery | src/active_namespace.cpp:2006-2074 | every outcome of a discard, and every target on its way; every changed directory is handed over |
| ActiveNamespaces.ActiveNamespace.RetainPublished | src/active_namespace.cpp:1766-1775 | the directory of a published object is handed over, through the object's descriptor or its own duplicate, unless there is no such descriptor and the duplicate fails |
| ActiveNamespaces.ActiveNamespace.RunDiscard | src/active_namespace.cpp:2044-2063 | the displaced object is removed completely, or some of its recovery material is |
| ActiveNamespaces.ActiveNamespace.RetainEffect | src/active_namespace.cpp:1190-1203 | one entry per path; a contradictory effect is refused |
| ActiveNamespaces.ActiveNamespace.CompleteEffect | src/active_namespace.cpp:1205-1215 | the entry of the path is completed and no other changes |
| ActiveNamespaces.ActiveNamespace.RetainCompletedEffect | src/active_namespace.cpp:1608-1672 | a recorded result is entered exactly when the target still shows it; failed results are ignored and indeterminate ones entered as attempted |
| Namespace.WalkEnds | src/active_workspace.cpp:406-446 | the component walk ends at a missing name exactly when directories lead to one, and at a non-directory exactly when one stands in the way; otherwise it opens the parent directory |
| Workspace.PathWorkspace.RenameAt | src/active_namespace.cpp:652-684 | a rename as IEEE Std 1003.1-2017 has it: two links of one file are left alone, a directory replaces only an empty directory |
| Workspace.PathWorkspace.UnlinkAt | src/active_namespace.cpp:869-882 | an unlink under the flag of the object's type, refused for directories that hold anything |
| Workspace.PathWorkspace.DirectoryEmpty | src/active_namespace.cpp:560-585 | a directory that cannot be listed reads as not empty |
| Workspace.PathWorkspace.RemoveLeaf | src/active_namespace.cpp:869-882 | absent, removed or refused, and which of the three |
| Workspace.PathWorkspace.Prepare | src/active_namespace.cpp:421-533 | a new object under the prepared name, one call per stage; a failure takes it away again, unless that fails too |
| Workspace.PathWorkspace.LinkPrepared | src/active_namespace.cpp:587-621 | a link of an existing file, dropped unless the file is regular |
| Workspace.PathWorkspace.PublishPrepared | src/active_namespace.cpp:629-691 | the old leaf moves aside when the rules ask for it and the prepared object moves in; failed leaves the leaf, indeterminate leaves the old object at one of two names, and every crash state is one of three shapes; unless a call that was to undo an earlier one fails too, an unsuccessful publication leaves the names as they were, without the prepared one |
| Workspace.PathWorkspace.UpdateDirectory | src/active_namespace.cpp:693-747 | owner, mode and time in this order; failed changes nothing and no outcome touches the contents |
| Workspace.PathWorkspace.RestoreDisplaced | src/active_namespace.cpp:1881-1906 | prepared and published objects go, the displaced one returns, and it is never let go on the way |
| Workspace.PathWorkspace.PublishRecovery | src/active_namespace.cpp:1039-1071 | a rebuilt object takes the place of an empty directory or a file, exactly when the rename rules allow |
| Durability.DurabilityAuthority.RetainDirtyFilesystem | src/active_namespace.cpp:1674-1701 | one entry per device; authority is lost exactly when the descriptor is missing or a call fails, and then for good |
| Durability.DurabilityAuthority.Synchronize | src/active_namespace.cpp:2076-2101 | confirmed exactly when authority is complete and every barrier passes, and then every filesystem passed one after its last registration; a failed barrier drops nothing |
| Durability.Confirm | src/active_namespace.cpp:2076-2101 | when every retained filesystem passed its barrier no registration is left waiting |
| Durability.DurabilityAuthority.RetainAll | src/active_namespace.cpp:1674-1701 | every directory handed over has its filesystem registered; authority is lost exactly when a descriptor is missing or a call fails |
| Durability.ConfirmedCovers | src/active_namespace.cpp:2076-2101 | after a confirmation, every directory changed by any operation before it that handed its changes over is on a filesystem that passed a barrier since the operation registered it |
| Durability.UnseenRecovery | src/active_namespace.cpp:1872-1881 | a concrete completed recovery whose changed directory is not handed over |
| Durability.UnseenPublication | src/active_namespace.cpp:687-691 | a concrete completed publication that hands nothing over when the duplicate fails |
| StepNames.StepNamesOrder | src/journal_store.cpp:185-198 | step names are injective and sort as their sequences, for every 64-bit sequence |
| StepNames.StepName | src/journal_store.cpp:185-198 | twenty digits and the suffix, for every 64-bit sequence |
| Journal.StepKeeps | src/journal_store.cpp:316-382 | every step of every process, failing calls and crashes included, keeps the store's invariant and leaves the others alone |
| Journal.CursorStep | src/journal_store.cpp:679-705 | no step but one linearization step per job changes a cursor, and there register and outcome move as an atomic compare-and-publish register |
| Journal.CursorReturns | src/journal_store.cpp:679-734 | the outcome a caller sees is the one at the linearization step, readers get whole values only, and an exception says truthfully whether the cursor was written |
| Journal.EffectOnce | src/journal_store.cpp:679-734 | a job on the cursor takes effect once |
| Journal.CursorIsSequential | src/journal_store.cpp:679-734 | in every interleaving, the jobs on a cursor took effect one after another on a single register, each with that register's answer, and the cursor holds what the register holds |
| Journal.OutcomeIsInHistory | src/journal_store.cpp:679-734 | the outcome a caller sees, or the success an exception admits to, is that of exactly one entry of this history, made while the caller was waiting |
| Journal.VisibleForever | src/journal_store.cpp:338-382 | a visible declaration, step or evidence record never goes away and never changes a byte |
| Journal.ImmutableReturns | src/journal_store.cpp:338-382 | a publisher that returns, or throws saying its value is visible, left exactly its bytes |
| Journal.LocatorSafety | src/journal_store.cpp:653-666 | a visible locator names a visible declaration of its request, in every interleaving |
| Journal.LoadActiveSound | src/journal_store.cpp:753-770 | following a locator never ends in a corrupt index, and finds a declaration of the request |
| Journal.ReferenceRoundTrip | src/journal_store.cpp:463-486 | locator bytes parse back to their identity and to no other |
| JournalOutcomes.CursorWriter | src/journal_store.cpp:679-705 | a cursor never goes away; whoever changes it expected exactly the identity it had, and whoever writes the first one expected none |
| JournalOutcomes.CasMeans | src/journal_store.cpp:679-705 | each outcome of compare-and-publish, in the identities and bytes at one step of the wait: a first write, a success that changes nothing, an expected overwrite, a conflict or a corrupt cursor that stays as it is |
| JournalOutcomes.LoadMeans | src/journal_store.cpp:722-734 | a load answers the cursor there was at one step of the wait, or that it was corrupt, or that there was none |
| JournalOutcomes.SilentThrow | src/journal_store.cpp:316-336 | a compare-and-publish that throws without saying that its value is visible changed no cursor at any of its steps |
| JournalOutcomes.ConflictMeans | src/journal_store.cpp:338-382 | an immutable publication ends in a conflict only when other bytes stand under its name, and for a declaration never succeeds without its locator |
| JournalOutcomes.LocatorPublished | src/journal_store.cpp:653-666 | a publisher of a declaration that returns put the locator of its request in place while the caller was waiting |
| JournalOutcomes.ActiveFound | src/journal_store.cpp:753-770 | once a locator is visible, a lookup that begins finds a declaration of the request unless a call fails |
| JournalOutcomes.TargetMeans | src/journal_store.cpp:185-198 | no two different declarations, steps or records share a name |
| JournalOutcomes.LockOwner | src/journal_store.cpp:488-524 | in every run a cursor lock belongs to a process that is at a compare-and-publish of that cursor |
| JournalOutcomes.TemporaryGoes | src/journal_store.cpp:316-382 | a process lets go of its temporary name only by removing it, unless a call fails |
| JournalOutcomes.LeftAlone | src/journal_store.cpp:642-770 | after any run, a process that is left alone and whose cursor nobody has locked returns a result that is no exception |
| JournalOutcomes.AnyJob | src/journal_store.cpp:642-770 | so any job can be started and done after any run |
| Lease.AtMostOneHeld | src/mutation_lease.cpp:108-130 | at every moment of every interleaving at most one lease of a directory and exclusion domain is held |
| Lease.AnswerIsExact | src/mutation_lease.cpp:162-229 | an answer of held, in two looks, is exact at its last look, excludes every other holder of that key, and a granted lease is held |
| Lease.ReplacedIsNotHeld | src/mutation_lease.cpp:108-130 | a lease whose file was replaced under its name is not held while another one is |
| Lease.LockNameInjective | src/mutation_lease.cpp:64-75 | different exclusion domains never share a lock file |
| Lease.Available | src/mutation_lease.cpp:162-229 | after any run, an acquisition that nobody disturbs is granted when nobody has the lock file locked, and held then says so |
| Lease.ReleaseFrees | src/mutation_lease.cpp:36-51 | a held lease that is released leaves its lock file free |
| PayloadStages.PayloadStage.Begin | src/payload_stage.cpp:846-889 | an entry starts once, in order, as the image has it, and does start unless a call fails or, verifying, its file is missing; verifying writes nothing |
| PayloadStages.PayloadStage.Write | src/payload_stage.cpp:891-945 | bytes are appended, or found to continue the sealed file; they are accepted unless a call fails, they exceed the declared size, or they differ from that file |
| PayloadStages.PayloadStage.End | src/payload_stage.cpp:947-1001 | a completed entry's file holds exactly the replayed bytes, of the declared size, and of the declared digest when the stage wrote it; it completes unless a call fails, the size differs, or the digest does |
| PayloadStages.PayloadStage.Seal | src/payload_stage.cpp:1003-1044 | completed means the marker equals the binding and every selected entry holds its replay, in both modes, and so has its declared digest exactly when the replay does; an indeterminate seal can be retried to completion |
| PayloadStages.PayloadStage.Abandon | src/payload_stage.cpp:1046-1080 | before the marker is visible the whole stage goes unless a call fails or something foreign lies in it, after it nothing changes; whatever is foreign stays as it is |
| PayloadStages.PayloadStage.PutInPlace | src/payload_stage.cpp:982-996 | the pending file takes its entry's name and no other entry changes |
| PayloadStages.PayloadStage.ExpectedIndex | src/payload_stage.cpp:560-571 | the binary search finds the selected entry, exactly when there is one |
| PayloadStages.PayloadStage.constructor | src/payload_stage.cpp:1182-1230 | a marker with the binding decides between writing and verifying, whatever the entries hold |
| PayloadStages.SupplyAll | src/payload_stage.cpp:846-1044 | a replay that supplies every selected entry faithfully, in any order and in pieces of any size, ends in a completed seal unless a call fails, and every entry's file then holds its bytes, in both modes |
| CaptureRecord.RecordRoundTrip | src/capture_store.cpp:1652-1658 | loading a stored record returns it exactly when its whole file is within four mebibytes and it is meaningful, every signed time included; a larger one is refused unread |
| CaptureRecord.DecodeRoundTrip | src/capture_store.cpp:748-796 | decoding an encoded record returns it exactly when its body is within four mebibytes and it is meaningful |
| CaptureRecord.OversizedRecord | src/capture_store.cpp:254-278 | a concrete record, of a long path of short components, that is encoded, decodes, and is refused by loading |
| CaptureRecord.NearlyCanonical | src/capture_store.cpp:408-546 | every accepted file is the encoder's output for the loaded record, or its twin with a negative zero time, and that twin is accepted too |
| CaptureRecord.OtherAttemptRefused | src/capture_store.cpp:561-578 | a record of another attempt is refused as a binding mismatch |
| CaptureRecord.EncodeRecordBytes | src/capture_store.cpp:748-758 | appending field by field and framing yields the specified encoding |
| CaptureRecord.UnframeBody | src/capture_store.cpp:512-546 | accepts a frame exactly when magic, version, size, checksum and end agree |
| CaptureRecord.FrameRoundTrip | src/capture_store.cpp:496-546 | a framed body comes back exactly when it is within the limit |
| CaptureRecord.FactsCanonical | src/capture_store.cpp:606-731 | nine optional facts, each with one spelling but for a zero time |
| CaptureLayouts.FrameLayout | src/capture_store.cpp:496-510 | the envelope of every record file, octet by octet: type, version, size, checksum, body |
| CaptureLayouts.BodyLayout | src/capture_store.cpp:748-758 | the body of every record: attempt, path, three flags, observation |
| CaptureLayouts.AttemptLayout | src/capture_store.cpp:548-558 | the attempt: four texts and the nonce |
| CaptureLayouts.SightLayout | src/capture_store.cpp:622-635 | the observation: the subject, four codes, the facts |
| CaptureLayouts.FactsLayout | src/capture_store.cpp:636-668 | the nine facts, their order and their widths |
| ByteCodec.Buffer.AppendI64 | src/capture_store.cpp:386-394 | sign and magnitude of every signed value, the minimum included |
| ByteCodec.Buffer.AppendBig | src/capture_store.cpp:365-384 | shifts and masks produce the big-endian octets |
| ByteCodec.Buffer.AppendString | src/capture_store.cpp:397-406 | a four-octet length and the text, refused from four gibibytes on |
| ByteCodec.ByteReader.I64 | src/capture_store.cpp:439-458 | reads exactly the accepted signs and magnitudes |
| ByteCodec.ByteReader.UBig | src/capture_store.cpp:418-438 | reads the value of the octets or refuses a truncated one |
| ByteCodec.ByteReader.String | src/capture_store.cpp:459-467 | reads a bounds-checked text |
| ByteCodec.SignedRoundTrip | src/capture_store.cpp:386-458 | both spellings of a signed value read back, for every value |
| ByteCodec.SignedCanonical | src/capture_store.cpp:439-458 | an accepted signed value has its own spelling, or is zero with a negative sign |
| ByteCodec.BigAt | src/capture_store.cpp:372-384 | a shift and a mask pick the octet of that place |
| RejectedStore.FoundIffReadable | src/rejected_store.cpp:2105-2167 | an indexed record is found by request exactly when its file is within four mebibytes, and by identity exactly when, besides, its reason belongs to its source side |
| RejectedStore.OversizedRecord | src/rejected_store.cpp:208-232 | a concrete record, of a path longer than the limit, that is published and indexed and found by neither lookup |
| RejectedStore.IdentifiedAgrees | src/rejected_store.cpp:2105-2167 | whatever the identity lookup returns, attempt, plan, source, reason and observation, the request-bound load returns too |
| RejectedStore.LoadMeans | src/rejected_store.cpp:2105-2140 | whatever lies in the store, a request-bound load finds a record exactly when attempt, plan and request are those asked for, the file is within four mebibytes and a regular payload has its size and digest; it finds none exactly when nothing is stored there for that plan |
| RejectedStore.IdentifiedMeans | src/rejected_store.cpp:2142-2167 | whatever lies in the store, a load by identity finds a record exactly when it has that identity, path, source and reason agree, and its payload has its size and digest |
| RejectedStore.OtherPlanRefused | src/rejected_store.cpp:1158-1210 | once an attempt stores a record, loading anything of it under another plan, or that path under another request, is refused |
| RejectedStore.OnePlan | src/rejected_store.cpp:1158-1210 | all records of an attempt are of one plan |
| RejectedStore.MismatchedReason | src/rejected_store.cpp:753-790 | a concrete record that is published and indexed and still refused by identity |
| RejectedStore.ObjectStore.PublishRecord | src/rejected_store.cpp:1724-1786 | at every crash point an indexed record implies its indexed payload, both the primary's files; republication repairs a missing index exactly when the record file is within the limit, and another record for the same path is refused |
| RejectedStore.ObjectStore.PublishIdentityIndex | src/rejected_store.cpp:1278-1307 | payload link first, record link last; existing links are the right ones |
| RejectedStore.ObjectStore.PublishRegularPayload | src/rejected_store.cpp:1604-1645 | the payload is in place exactly when it and whatever stood there have the observed size and digest, unless a call fails |
| RejectedStore.ObjectStore.BindAttempt | src/rejected_store.cpp:1158-1210 | the first publication binds the attempt to its plan, and a publication under another plan is refused without a change |

## Left out

- WholeRun.WholeRunUndo: equality is up to modification times of directories the attempt did not admit; nothing records those times.
- Refinement.RunRefines: the inode numbers of the target the run starts from are taken from the filesystem: below the next new one, and one file for each.
- Crash.CrashedOperationRecovers: before the operation the directories above the path have the admitted owner and mode, without which the source's own refresh gives up.
- Conservation.OldObjectSurvives: ends where discarding begins, which takes displaced objects away on purpose.
- Restart.RestartRebuilds: restart after a recovery or a discard has begun, where recovered paths no longer pass the replay check.
- Journal.CursorStep: publication requires no declaration file or namespace directory here; the source refuses earlier, which only removes runs.
- PayloadStages.PayloadStage.Abandon: further calls after an exception, other than the destructor, are excluded.
- Reading object facts from stat, and failures of stat and of the component walk for other reasons than a missing or non-directory component.
- Copying a payload is one step of preparation; its digest check is part of that step.
- Mode masking, special handling of symbolic link modes beyond 0777, and sizes of regular files separate from their contents.
- Durability.ConfirmedCovers: speaks of completed operations; one that failed or stopped may leave changes that nobody handed over.
- RunCleanup.CutShortCleanup: the modification times above an attempt that stopped after its sidecar was gone, since a later attempt then has nothing to do (`Cleanup.NothingLeft`).
- The modification time of a directory above the path while its refresh is interrupted.
- The walk into a displaced directory is on the subtree's value, written back by its parent; descriptors and readdir order are left out, any order is allowed.
- Decoding a capture record is stated on values, the reader's primitives and the frame as methods.
- The size limits that the payload binding, the attempt bindings and the journal and evidence records have, stage locks between processes, and opening sealed payloads for reading.
- Power-loss durability of journal retries, which return without a new sync.
- Observation, capture of old objects, lease nonces, decoding of completed evidence, and the owner library's identities, plans and journal codecs.
- EINTR retries, errno values and messages, descriptor ownership and close-on-exec flags.
