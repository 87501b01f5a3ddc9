# dcc-mcp-obs, modelled and proved

The adapter puts a native plugin into an OBS installation, talks to it over a local WebSocket, and
owns the OBS process it has started. This project models the parts that change shared state step by
step and have many ways to fail, and proves what they promise.

| file | what it models |
|---|---|
| `FileSystem.dfy` | a directory tree; every mutating call may fail, and `faults` counts the failures that nothing in the tree explains |
| `Ownership.dfy`, `Receipts.dfy`, `PortablePath.dfy` | object identities, owned destinations, pruning, snapshots; receipts and their verification; what portable paths promise |
| `Recovery.dfy` | the recovery tree of an upgrade or an uninstall, and its retirement |
| `Upgrade.dfy`, `Rollback.dfy`, `Replacement.dfy` | moving the old files aside, publishing the new ones, rolling back; the upgrade as a whole |
| `Uninstall.dfy`, `Install.dfy` | removal; bundle validation, staging, a fresh install, an upgrade, and an install followed by an uninstall |
| `Witnesses.dfy` | two installations in which an upgrade goes wrong |
| `UiTaskGate.dfy`, `UiProtocol.dfy` | the gate between waiting thread and UI thread; many clients, waiters, UI tasks, host events and plugin restarts, interleaved with a clock |
| `Transport.dfy`, `Deadline.dfy` | the serialised WebSocket session and its error codes; time budgets across the two languages |
| `SceneHost.dfy`, `SceneSession.dfy`, `SceneRecording.dfy` | scene recordings: OBS handles, sessions, and the manager |
| `Reconcile.dfy`, `ProgramFrame.dfy` | reading back after a mutation until a deadline; the bytes that are accepted as a frame |
| `OwnedHost.dfy` | the life of the owned OBS process |
| `KeyCodec.dfy`, `Overlay.dfy` | key lists as text on both sides; anchors of the two overlays |

The file system, the network, OBS and the system calls of the owned process are classes whose methods
choose among all outcomes; the code under study is written as methods over them, with the branches of
the original. JSON, SHA-256, case folding and the CRC are function parameters. A method whose contract
speaks of `old` states its whole effect; the lemmas beside it say what the specification functions mean.

What the proofs show about the code that its documentation does not say:

- An upgrade or an uninstall that reports anything but `OBS_RECOVERY_REQUIRED` has restored the bytes and
  modes of every owned file. Even when it does report that code, one single failing call never costs an
  old file of an installable upgrade, nor any file of an uninstall. Directories that had to be made
  again get a default mode (`Rollback.RestoreAll`).
- One harmless failing call can end an upgrade in `OBS_RECOVERY_REQUIRED` with all files in place: when
  `mkdir` fails in the recovery tree below a directory that was made just before, that directory is not
  recorded. A rollback without further failures fails if and only if the recovery tree is not exactly
  what is recorded (`Rollback.RollBack`). A single failure has this effect only if some owned file needs
  two directories that no file before it needs (`Upgrade.Delicate`), and it has this effect if the
  failing call makes a second directory for the first file (`Replacement.ReplaceOwnedInstall`, and
  `Witnesses.SecondDirectoryFails` for one file a/b/c).
- Without a failing call an upgrade succeeds exactly if `Upgrade.Installable` holds: no new path is an
  existing directory or lies below a file that stays, and the receipt has at most 65,536 bytes. A new
  file where the old version has a directory of its own is not possible, although both versions verify
  (`Witnesses.FileInPlaceOfDirectory`).
- A fresh install does not have the second condition: with a longer receipt it stays, and can then be
  neither verified nor uninstalled (`Install.FreshVerifies`).
- A bundle may use the receipt's name as a directory. It is accepted and can never be staged
  (`Install.AcceptedButNotStaged`); `Install.Stage` proves that this is the only such case.
- `OBS_UI_INDETERMINATE` says nothing: the same run may go on either way
  (`UiProtocol.IndeterminateSaysNothing`). `OBS_UI_TIMEOUT` is always true, whether
  the waiting thread says so or the UI task whose claim was refused.
- A mutation can succeed without any claim when its task finds nothing to change, as
  `SetWindowCaptureMethod` may (native/src/plugin-main.cpp:1871-1880).
- The native key parser accepts one comma at the end; Python would read a further, empty key
  (`KeyCodecs.CommaAtTheEnd`). Python sends lists that native code finds too long
  (`KeyCodecs.SomeListIsTooLong`).
- The two overlays read back the same anchor except in `Overlays.InDispute`, where the presentation
  overlay says custom (`Overlays.SomePositionIsDisputed`).
- A second `start` of an owned host that is ready takes its readiness away for good
  (`OwnedHosts.OwnedObsHost.Start` and `OwnedHosts.Advances`).

## Model

| member | source | states |
|---|---|---|
| `Ownership.PrepareOwnedDestination` | src/dcc_mcp_obs/install_cli.py:1445-1463 | only directories above the path are added; without a fault it succeeds if and only if no file stands above the path |
| `Ownership.PruneEmptyOwnedDirectories` | src/dcc_mcp_obs/install_cli.py:1466-1474 | only owned parents disappear; if no removal fails, none of them is left empty |
| `Ownership.ByDepth` | src/dcc_mcp_obs/install_cli.py:1466-1474 | a permutation of the set in which parents come before what lies below them |
| `Ownership.SnapshotOwnedFiles` | src/dcc_mcp_obs/install_cli.py:1142-1166 | succeeds exactly if every path is the expected regular file, and then has the bytes and mode of each |
| `Ownership.RestoreOwnedSnapshot` | src/dcc_mcp_obs/install_cli.py:1169-1175 | never overwrites; writes bytes and mode; changes no other path; without a fault it fails only for a taken path or a missing parent |
| `Receipts.CheckShape` | src/dcc_mcp_obs/install_cli.py:930-962 | accepts exactly the lists of portable paths that are distinct and prefix-free after case folding, none being the receipt |
| `Receipts.ShapeSeparates` | src/dcc_mcp_obs/install_cli.py:684-697 | such paths are distinct, none lies above another, none is the receipt |
| `PortablePaths.PortableIsUnambiguous` | src/dcc_mcp_obs/install_cli.py:1625-1655 | the paths accepted are exactly those that are resolved without a step up or a step that stays, have no character with a meaning elsewhere, no dot or blank at the end of a component, and no component whose folded stem is one of the 25 names of devices |
| `PortablePaths.PortableStaysBelow` | src/dcc_mcp_obs/install_cli.py:1625-1655 | below any directory such a path is resolved to itself, and its text is read back as the same components whichever separators a system knows |
| `PortablePaths.ShapeMeans` | src/dcc_mcp_obs/install_cli.py:684-697 | the shape of a list of paths, said of each two of them: some component that both have differs even when case is folded, and none is the receipt |
| `Receipts.Verify` | src/dcc_mcp_obs/install_cli.py:909-1005 | succeeds for exactly the intact installations, with their receipt and the identities of all they own; a failure means that no receipt verifies; what intact means is said by the next three rows |
| `Receipts.SameBytes` | src/dcc_mcp_obs/install_cli.py:985-996 | with a digest that tells all contents apart: an installation that verifies, and whose receipt is still there, goes on verifying if and only if every file of the receipt has the same bytes; each file is as long as its entry says |
| `Receipts.EditIsNoticed` | src/dcc_mcp_obs/install_cli.py:985-996 | once a file has been edited, the installation verifies under no version and no receipt |
| `Receipts.VerifiedIsOurs` | src/dcc_mcp_obs/install_cli.py:914-936 | a receipt that verifies is of this product, schema and platform, is read from at most 65,536 bytes, and has the version asked for, or else none above the adapter's |
| `Receipts.NewerIsLarger` | src/dcc_mcp_obs/install_cli.py:923-932 | versions are compared as numbers written with three digits of any large enough base |
| `Receipts.HeldVerifies` | src/dcc_mcp_obs/install_cli.py:909-935 | a complete publication verifies if and only if its receipt is short enough to be read back |
| `Receipts.OwnedIsSeparate` | src/dcc_mcp_obs/install_cli.py:1411-1423 | the paths of a receipt and the receipt itself are distinct files, none above another |
| `Recovery.ListingsDecideExactness` | src/dcc_mcp_obs/install_cli.py:1246-1274 | comparing one directory listing after another decides whether the whole tree is the expected one |
| `Recovery.RequireExactRecoveryInventory` | src/dcc_mcp_obs/install_cli.py:1246-1274 | succeeds if and only if the tree holds exactly the expected objects |
| `Recovery.PrepareRecoveryDestination` | src/dcc_mcp_obs/install_cli.py:1178-1191 | adds only directories above the path; on success the tree is exactly what is recorded; on failure whatever was recorded is still there, and the tree is exact unless two directories were needed; if the first can be made and the second cannot, it is not |
| `Recovery.RestoreDirectories` | src/dcc_mcp_obs/install_cli.py:314-334 | adds only missing directories; on success each exists with its original mode |
| `Recovery.RestoreFiles` | src/dcc_mcp_obs/install_cli.py:335-341 | adds only missing files; on success each has its original bytes and mode |
| `Recovery.RestoreComplete` | src/dcc_mcp_obs/install_cli.py:314-352 | on success every directory and file is back and the expectation describes exactly the tree; no other tree is touched; without a fault it fails only for a foreign object |
| `Recovery.RebuiltIsSameTree` | src/dcc_mcp_obs/install_cli.py:314-352 | a rebuilt tree has the same paths, bytes and modes as the original, although other objects |
| `Recovery.RetireFile` | src/dcc_mcp_obs/install_cli.py:1356-1367 | one step of retirement: nothing is removed unless the guarding publication stands; the tree stays exactly the remaining expectation, and what is gone can be rebuilt |
| `Recovery.RetireDirectory` | src/dcc_mcp_obs/install_cli.py:1368-1379 | the same for a directory |
| `Recovery.DeepestIsEmpty` | src/dcc_mcp_obs/install_cli.py:1368-1379 | with all files gone, a deepest expected directory is empty, so that its removal cannot be refused |
| `Recovery.RetireOwnedRecovery` | src/dcc_mcp_obs/install_cli.py:1334-1392 | all or nothing: on success the tree is gone, was exactly the expected one, and the publication that guards its removal stood before and after; on an error other than RecoveryRequired it is the same tree, and the expectation fits it; one failing call is always survived; no other tree changes |
| `Upgrade.MoveAside` | src/dcc_mcp_obs/install_cli.py:796-805 | at every exit each file is at its old place or in the recovery tree, and all objects recorded are there; on success all have moved |
| `Upgrade.Publish` | src/dcc_mcp_obs/install_cli.py:806-815 | the same for staged files; it fails exactly if a new path is not free, or a call fails |
| `Upgrade.VerifyPublication` | src/dcc_mcp_obs/install_cli.py:816-824 | what has been published verifies if and only if the receipt is short enough, and pruning has spared it |
| `Upgrade.TryReplace` | src/dcc_mcp_obs/install_cli.py:795-827 | the guarded part of an upgrade: at every exit the old files and the new are where the lists say; without a fault it succeeds if and only if the upgrade is installable |
| `Rollback.Unpublish` | src/dcc_mcp_obs/install_cli.py:836-846 | removes nothing but published files, each only while it is the object that was recorded, and on success all of them |
| `Rollback.RestoreAll` | src/dcc_mcp_obs/install_cli.py:847-866 | adds nothing but old files; on success each has its old bytes and mode, and what the recovery tree holds for it is the recorded object; without a fault it succeeds if the recovery tree and the target allow it |
| `Rollback.NoDirectoryInTheWay` | src/dcc_mcp_obs/install_cli.py:846-853 | once the new files are gone and pruned, no directory occupies the place of an old file |
| `Rollback.UndoAndRestore` | src/dcc_mcp_obs/install_cli.py:834-866 | after any interruption: success means that every old file is back; without a further fault it succeeds; files of others and the recovery tree are untouched |
| `Rollback.ConfirmRestored` | src/dcc_mcp_obs/install_cli.py:867-884 | success means that the installation verifies with the previous receipt, that every restored object is still there, and that the guard stands; accepts every restored installation that verifies |
| `Rollback.OwnedMeansStillThere` | src/dcc_mcp_obs/install_cli.py:1301-1331 | the guard of a rollback asks for every published file as the same object, for every published directory with its mode, and for nothing else |
| `Rollback.RollBack` | src/dcc_mcp_obs/install_cli.py:828-891 | success means that contents are restored and the recovery tree is gone; without a further fault contents are restored, and it fails if and only if the recovery tree was not exact |
| `Replacement.ReplaceOwnedInstall` | src/dcc_mcp_obs/install_cli.py:762-891 | the upgrade as a whole: frame, success, restoration after any error but RecoveryRequired, an exact condition for success without faults and then no owned directory left empty, no loss through a single fault, and when a single fault ends in RecoveryRequired |
| `Uninstall.ReturnAll` | src/dcc_mcp_obs/install_cli.py:1508-1528 | brings moved files back, from the quarantine or from memory, adding nothing else; success means that what the quarantine held was the recorded object in each case |
| `Uninstall.TryUninstall` | src/dcc_mcp_obs/install_cli.py:1488-1503 | the guarded part of an uninstall: at every exit each file is in place or in quarantine; on success both are gone |
| `Uninstall.PutBack` | src/dcc_mcp_obs/install_cli.py:1504-1537 | success means that all files are back even if retirement had removed some, and that no quarantine is left |
| `Uninstall.UninstallOwned` | src/dcc_mcp_obs/install_cli.py:1477-1537 | the uninstall as a whole: frame, success, return of every file after any error but RecoveryRequired, an exact condition for success without faults, then no owned directory left empty, and an empty target if nothing else was in it |
| `Install.CheckSources` | src/dcc_mcp_obs/install_cli.py:670-707 | accepts exactly the entries whose sources are portable, below payload, distinct, present, and have their digest |
| `Install.ValidateBundle` | src/dcc_mcp_obs/install_cli.py:641-708 | accepts exactly the acceptable bundles, also by their total length, and what it accepts has distinct, prefix-free targets, each with the bytes of its source below payload and with the manifest's digest |
| `Install.SumLengths` | src/dcc_mcp_obs/install_cli.py:1576-1612 | the total length of all members, which is no less than that of each |
| `Install.AcceptedButNotStaged` | src/dcc_mcp_obs/install_cli.py:666-697 | an accepted bundle that uses the receipt's name as a directory |
| `Install.Stage` | src/dcc_mcp_obs/install_cli.py:722-747 | in an empty stage all files and the receipt can be created exclusively if and only if no target lies below the receipt's name |
| `Install.RemoveTree` | src/dcc_mcp_obs/install_cli.py:757-759 | removes nothing outside the tree, and without a fault the tree |
| `Install.InstallFresh` | src/dcc_mcp_obs/install_cli.py:711-759 | either the whole installation is there or nothing is; the stage is gone if nothing fails |
| `Install.InstallOver` | src/dcc_mcp_obs/install_cli.py:711-759 | staging and upgrade together: the guarantees and the exact condition of both, files that only the old version owned are gone, other directories stay, one fault costs no old file, and the stage is gone if nothing fails |
| `Witnesses.FileInPlaceOfDirectory` | src/dcc_mcp_obs/install_cli.py:806-812 | two versions that verify, a/b and a, of which the second cannot replace the first |
| `Witnesses.SecondDirectoryFails` | src/dcc_mcp_obs/install_cli.py:1178-1191 | an upgrade of a/b/c in which the one failing call makes the second directory: RecoveryRequired, with all files in place |
| `Install.FreshVerifies` | src/dcc_mcp_obs/install_cli.py:743-750 | a fresh install verifies if and only if its receipt has at most 65,536 bytes, and otherwise under no version |
| `Install.InstallThenUninstall` | src/dcc_mcp_obs/install_cli.py:711-759 | install and uninstall both succeed exactly under these two conditions, and then leave nothing behind and nothing changed |
| `UiTaskGates.UiTaskGate.ClaimMutation` | native/src/ui-task-gate.hpp:40-50 | wins if and only if the gate is pending and the deadline has not come; a late claim cancels |
| `UiTaskGates.Contend` | native/src/ui-task-gate.hpp:20-55 | of any attempts to start, cancel or claim on one gate only the first can succeed, and what it decides stays |
| `UiProtocol.ClaimIsTheGates` | native/src/ui-task-gate.hpp:40-50 | the claim and the later reading of the clock, as steps of the interleaving, act on the gate and on the UI task as the gate's own operation |
| `UiProtocol.AdvanceValid` | native/src/plugin-main.cpp:2543-2641 | each step of a waiter or of a task keeps the invariant of its request and undoes no cancellation, answer or execution |
| `UiProtocol.RunValid` | native/src/plugin-main.cpp:1413-2641 | the invariant holds in every interleaving of clients, waiters, tasks, host events, restarts and the clock |
| `UiProtocol.TimeoutMeansNever` | native/src/plugin-main.cpp:1457-1460 | after the answer OBS_UI_TIMEOUT, from the waiter or from a task whose claim was refused, the mutation is never executed, then or later |
| `UiProtocol.SuccessMeansOnce` | native/src/plugin-main.cpp:2543-2552 | a mutation reported as done was executed exactly once, or had nothing to change, and stays so |
| `UiProtocol.AnswerIsTheTasks` | native/src/plugin-main.cpp:2543-2641 | over all runs: a completed answer is the one that the UI task has published, and says how a step of the run ended it; an indeterminate one is given only after the task began |
| `UiProtocol.UndisturbedIsExecuted` | native/src/plugin-main.cpp:2603-2641 | in any state, a request that is sent and served before its deadline is executed once, is answered with its own outcome and the next sequence number, and changes nothing else |
| `UiProtocol.GivingUpCancels` | native/src/plugin-main.cpp:2608-2639 | a waiter whose deadline has come, or whose wait fails, withdraws a task that has not begun, which is then refused, and otherwise leaves the outcome open |
| `UiProtocol.AnswersAreTaken` | src/dcc_mcp_obs/bridge.py:2698-2714 | over all runs: a client that waits takes exactly the succeeded answers of its own instance, in order, and a new client the first of any |
| `UiProtocol.ExecutionIsAdmitted` | native/src/ui-task-gate.hpp:40-50 | a mutation is executed at most once, after one claim whose reading of the clock was before the deadline |
| `UiProtocol.AnswersStand` | native/src/ui-task-gate.hpp:20-55 | cancellation is absorbing, and no answer changes |
| `UiProtocol.IndeterminateSaysNothing` | native/src/plugin-main.cpp:2618-2638 | after OBS_UI_INDETERMINATE the mutation may be executed, and may be cancelled |
| `UiProtocol.SequencesIncrease` | src/dcc_mcp_obs/bridge.py:2698-2714 | in every run no client refuses a sequence number; what it accepts is of one instance and strictly increases, also over restarts |
| `Transports.Socket.Receive` | src/dcc_mcp_obs/protocol.py:409-429 | the replies of a server that keeps to the order: each is for the oldest unanswered request |
| `Transports.EventsUseUpRoom` | src/dcc_mcp_obs/protocol.py:392-407 | events before a reply change nothing but the room that is left |
| `Transports.ReceiveResponse` | src/dcc_mcp_obs/protocol.py:392-407 | reads at most 65 messages, and its result is the verdict on them unless time or the socket has run out; the reply it returns is the last message read; against an ordered server it is the reply to the one open request, and never a mismatch |
| `Transports.JudgedByTheReply` | src/dcc_mcp_obs/protocol.py:296-307 | a judgement in favour rests on one granted reply to this request, with this payload, after at most 64 events and nothing else |
| `Transports.Transport.EnsureConnected` | src/dcc_mcp_obs/protocol.py:332-376 | a connection is kept only after a complete handshake, and has no unread reply; it is refused for the first reason in the messages read, or because a call failed or time ran out |
| `Transports.Transport.VendorRequest` | src/dcc_mcp_obs/protocol.py:238-330 | what is returned is the payload of the granted reply that was read last, to its own request; every failure has its reason in the request, the messages read, the clock or a failed call, and drops the socket; Indeterminate is reported if and only if a mutation was handed to send; the frame carries the native deadline of the caller's budget |
| `Transports.Converse` | src/dcc_mcp_obs/protocol.py:231-330 | over any sequence of requests the mutations handed to sockets are exactly those, in order, that were not reported as failed; no mismatch against an ordered server |
| `Deadlines.AlwaysAdmitted` | src/dcc_mcp_obs/protocol.py:272-278 | a plugin whose clock is not behind admits every deadline |
| `Deadlines.ReserveIsNeeded` | src/dcc_mcp_obs/protocol.py:272-275 | with a cap above 119.999 seconds some deadline is turned away |
| `Deadlines.LateByLessThanOneMillisecond` | src/dcc_mcp_obs/protocol.py:276-278 | the deadline is never early, except for the cap, and late by less than a millisecond |
| `Deadlines.NoFreshBudget` | native/src/ui-task-gate.hpp:9-18 | the UI thread is left with what the caller had left, less the time on the way, up to rounding |
| `SceneHosts.Release` | native/src/scene-recording-session.cpp:273-314 | gives back all handles of a recording in an order in which users precede what they use, or none if its output is active and not forced |
| `SceneHosts.ReleaseInactive` | native/src/scene-recording-session.cpp:331-340 | gives back every recording that had ended before the call, and none that runs after it; nothing is asked or forced to stop, and nothing else changes |
| `SceneHosts.AnyActive` | native/src/scene-recording-session.cpp:325-329 | true only of a session that was active when asked, false only of one that is inactive for good |
| `SceneHosts.RunningShrinks` | native/src/scene-recording-session.cpp:260-260 | outputs that end, or that others start, add nothing to what runs |
| `SceneSessions.TidySession` | native/src/scene-recording-session.cpp:331-340 | a session gets a stop time only when nothing of it runs |
| `SceneSessions.ActiveRecordingCount` | native/src/scene-recording-session.cpp:397-405 | the count lies between what runs after it and what ran before it |
| `SceneSessions.SceneActive` | native/src/scene-recording-session.cpp:407-417 | a scene that is reported free is not recorded any more |
| `SceneSessions.ActiveSessionsCount` | native/src/scene-recording-session.cpp:431-439 | that many active sessions have at least as many active recordings |
| `SceneSessions.PruneHistory` | native/src/scene-recording-session.cpp:431-442 | leaves fewer than 32 sessions, drops none that is active, of a full history only the first that is not, and gives back what it drops; the break is unreachable by counting |
| `SceneRecordings.Prepare` | native/src/scene-recording-session.cpp:534-693 | acquires everything for one recording if and only if OBS refuses nothing, or gives back what it had, wherever it fails |
| `SceneRecordings.PrepareAll` | native/src/scene-recording-session.cpp:512-694 | the same for all of them: it succeeds if and only if OBS refuses nothing and no file is there yet or named twice |
| `SceneRecordings.RollBack` | native/src/scene-recording-session.cpp:700-703 | releases every recording and removes every file of the start that failed |
| `SceneRecordings.StartOutputs` | native/src/scene-recording-session.cpp:696-708 | all outputs are started, if and only if OBS refuses none, or nothing is active, held or written that was not before |
| `SceneRecordings.CheckSpecs` | native/src/scene-recording-session.cpp:470-493 | accepts requests that are well formed, distinct in scene and prefix, and of scenes that are not recorded; a refusal has its reason |
| `SceneRecordings.JoinedExclusive` | native/src/scene-recording-session.cpp:466-493 | recordings that pass these tests join the others without exceeding eight, sharing a scene or sharing a file |
| `SceneRecordings.Manager.Start` | native/src/scene-recording-session.cpp:458-715 | all or nothing, with the invariant: at most eight active recordings, no scene and no file twice, at most 32 sessions, and every live handle held once; others run on, and only new outputs are ever forced to stop. If OBS refuses nothing it succeeds for all requests that fit beside what runs before, and only for those that fit beside what runs after; every refusal has its reason |
| `SceneRecordings.Manager.Status` | native/src/scene-recording-session.cpp:717-726 | what it reports as active was, and what it reports as inactive is for good; nothing that runs is dropped or stopped, and no other session changes |
| `SceneRecordings.Manager.Stop` | native/src/scene-recording-session.cpp:728-749 | whatever of the session still runs has been asked to stop, and forced if it had been asked before; nothing else is asked or forced, and only what was asked is marked |
| `SceneRecordings.Manager.Shutdown` | native/src/scene-recording-session.cpp:756-759 | over any run ending here each handle ever acquired has been released exactly once |
| `Reconciliation.Bridge.Request` | src/dcc_mcp_obs/bridge.py:2669-2696 | nothing is sent at or after the deadline, nothing accepted after it; a failure means that the time is up, or that the transport or the host refused |
| `Reconciliation.Bridge.Checked` | src/dcc_mcp_obs/bridge.py:2698-2714 | an accepted response has a larger sequence number than all before, and is recorded; a failure leaves number and record, and has its reason |
| `Reconciliation.Bridge.Poll` | src/dcc_mcp_obs/bridge.py:1118-1122 | sleeps the poll interval, or what is left until the deadline if that is less; refuses only when nothing is left |
| `Reconciliation.Bridge.MutateAndReconcile` | src/dcc_mcp_obs/bridge.py:2489-2507 | verified means that a readback after the acceptance, with a larger number, fits, and that none before it did; any failure means that no readback accepted since the call fits, and has its reason: a time-out that the deadline has come, a rejection that the mutation was not accepted, a failed postcondition that all readbacks were taken, with a pause between any two |
| `Reconciliation.Bridge.RecordingMutation` | src/dcc_mcp_obs/bridge.py:2600-2648 | the same, and a stop ends after a bounded number of readbacks as verified, as pending with at most one second left, or as an error with its reason |
| `Reconciliation.Bridge.StopSceneRecordings` | src/dcc_mcp_obs/bridge.py:1887-1912 | at most two requests to stop, each followed by its readbacks, with the same meaning of verified and of each failure; a failed postcondition means both requests and all their readbacks |
| `Reconciliation.NextRound` | src/dcc_mcp_obs/bridge.py:2613-2648 | each further round was preceded by a request and a pause, and began more than a second before the deadline |
| `ProgramFrames.ParseOfEncoded` | src/dcc_mcp_obs/bridge.py:4048-4071 | reading the encoding of chunks gives the chunks |
| `ProgramFrames.EncodedParse` | src/dcc_mcp_obs/bridge.py:4048-4071 | writing what was read gives the bytes |
| `ProgramFrames.OneReading` | src/dcc_mcp_obs/bridge.py:4048-4071 | bytes are the encoding of at most one list of chunks |
| `ProgramFrames.FieldsOfFrame` | src/dcc_mcp_obs/bridge.py:4035-4044 | the tests at fixed places are implied by the chunk structure |
| `ProgramFrames.EncodedIsAccepted` | src/dcc_mcp_obs/bridge.py:4035-4071 | complete chunks are accepted once encoded, up to the size cap; the lower bound of 33 bytes never matters |
| `ProgramFrames.Decode` | src/dcc_mcp_obs/bridge.py:4035-4073 | the walk accepts exactly the encodings of 1 to 128 valid chunks with a 320x180 header first, some image data, and one empty end chunk last |
| `ProgramFrames.FrameOfBytes` | src/dcc_mcp_obs/bridge.py:4035-4073 | what is accepted, said of bytes and cuts between them: each piece has its length first, most significant byte first, and last the checksum of its type and data, and nothing is left over |
| `KeyCodecs.AlphabetsAgree` | src/dcc_mcp_obs/bridge.py:125-144 | Python and native code allow the same keys |
| `KeyCodecs.JoinedIsSplit` | src/dcc_mcp_obs/bridge.py:1363-1365 | joined keys are split into the same keys, by either side |
| `KeyCodecs.TokensAreJoined` | native/src/plugin-main.cpp:3269-3285 | the parts that native code sees make up the text, but for a comma at the end |
| `KeyCodecs.ParseKeys` | native/src/plugin-main.cpp:3269-3289 | valid if and only if the text is at most 32 bytes and is one to four valid keys joined, perhaps with a comma at the end, or empty; then it returns these keys |
| `KeyCodecs.JoinKeys` | native/src/agent-input-overlay.cpp:521-527 | the native join is the join of Python |
| `KeyCodecs.RoundTrip` | src/dcc_mcp_obs/bridge.py:1462-1462 | any one to four allowed keys come back unchanged, unless their text exceeds 32 bytes, and then they are refused |
| `KeyCodecs.SomeListIsTooLong` | src/dcc_mcp_obs/bridge.py:1439-1440 | Python allows a list that native code refuses |
| `KeyCodecs.CommaAtTheEnd` | native/src/plugin-main.cpp:3272-3285 | the comma at the end, read differently by the two sides |
| `Overlays.FindAnchor` | native/src/presentation-overlay.cpp:301-324 | the row by row look-up reads the same anchor as the agent overlay if and only if the position is not in dispute |
| `Overlays.AnchorsAreReadBack` | native/src/agent-input-overlay.cpp:240-302 | every anchor is read back as itself if and only if the three places along each axis are more than one apart |
| `Overlays.GapsOfAnchor` | native/src/agent-input-overlay.cpp:282-302 | each anchor leaves the gaps that its row and column of the table stand for: the margin on one side, equal gaps, or none before it for lack of room |
| `Overlays.RoomIsEnough` | native/src/agent-input-overlay.cpp:240-302 | this holds if the canvas exceeds the overlay by two margins and two; then the overlay keeps its margins, and both overlays agree |
| `Overlays.LessRoomIsNot` | native/src/presentation-overlay.cpp:279-324 | with exactly that much room an anchor is lost |
| `Overlays.SomePositionIsDisputed` | native/src/presentation-overlay.cpp:301-324 | a canvas with room for both margins and a position that the two overlays read differently |
| `OwnedHosts.OwnedObsHost.Failure` | src/dcc_mcp_obs/owned_obs.py:237-245 | the first error is kept and carried; readiness ends |
| `OwnedHosts.OwnedObsHost.Start` | src/dcc_mcp_obs/owned_obs.py:272-343 | ready if and only if it does not fail, which is if and only if there was no process and nothing went wrong, and then after spawning, verifying the identity, the port, the authentication, the status and the identity once more, in this order; a second start fails; ready means process, transport, bridge and instance are there and no exit code |
| `OwnedHosts.OwnedObsHost.WaitForExit` | src/dcc_mcp_obs/owned_obs.py:345-360 | the exit code is the first result of a wait and never changes; it fails only without a process or if something goes wrong |
| `OwnedHosts.OwnedObsHost.Close` | src/dcc_mcp_obs/owned_obs.py:362-413 | the first close makes, on every path and in this order, the request to shut down, only to a verified and ready process, the adapter's closer, the disconnect and the wait; a second makes none of them; it succeeds if and only if it is the first, the host was ready, and nothing went wrong |
| `OwnedHosts.OwnedObsHost.Disconnect` | src/dcc_mcp_obs/owned_obs.py:415-418 | closes the transport unless that has been done |
| `OwnedHosts.OwnedObsHost.RetainUntilExit` | src/dcc_mcp_obs/owned_obs.py:420-433 | gives up only if its waits are broken off as often as is assumed |
| `OwnedHosts.AdvancesFurther` | src/dcc_mcp_obs/owned_obs.py:237-433 | what no call undoes, no sequence of calls undoes |
| `OwnedHosts.Live` | src/dcc_mcp_obs/owned_obs.py:237-433 | over any calls the process is spawned at most once, a shutdown is submitted at most once, all exit codes returned are the first one, and all errors returned carry the first error |

## Left out

- Reads of the file system are taken to succeed, and only mutating calls fail. A failing `lstat` directly after a publishing rename would leave a file that no list names.
- Symbolic links, reparse points, hard links, foreign processes that change the tree during a transaction, the leases that detect them, and the legacy plugin directory on Windows.
- NFKC normalisation and UTF-8 lengths of paths: characters are counted. ZIP and TAR parsing and the re-check of the archive's identity are given values.
- Receipts.CheckShape: the types of the fields, the digests and the sizes of a receipt are checked by the given parser.
- Receipts.SameBytes: takes a digest that tells all contents apart, as SHA-256 is trusted to do.
- Install.ValidateBundle: the compression ratio and the file types of the archive's members are not modelled, because they belong to the archive format.
- Rollback.RestoreAll: states bytes and modes of files, not modes of directories, because the code makes directories again with default modes.
- Recovery.RebuiltIsSameTree: states paths, bytes and modes, not object identities or times, because the code writes new objects.
- Replacement.ReplaceOwnedInstall: states nothing about bytes when it reports RecoveryRequired after more than one failing call, or after one failing call in the rollback of an upgrade that is not installable, because the code then retires the recovery tree although the rollback has failed.
- Transports.Socket.Receive: the decoding of a message is one given outcome, readable or not.
- Transports.Transport.VendorRequest: takes the state when the lock is acquired as its start, because nothing else changes a transport while the lock is held; a caller that does not get the lock in time sees OBS_TIMEOUT. Every failure is an Exception. An interrupt of the keyboard passes the handlers of the code and would leave a socket with an unread reply.
- Transports.Transport.EnsureConnected: models the outcome of authentication, not the hash that is sent.
- Reconciliation.Bridge.RecordingMutation: for a stop, requires that a poll interval and a request together take some time, because with an interval of zero and a clock that stands still the loop does not end.
- Overlays.FindAnchor: the two overlays compute positions with the same expressions, so that one function stands for both; the size of the presentation overlay is given.
- OwnedHosts.OwnedObsHost.RetainUntilExit: takes the number of interruptions as a parameter, because the original waits as long as the process lives.
- Deadlines.AlwaysAdmitted: real numbers stand for the floating-point clock readings; the same holds for the overlays' coordinates and the reconcile loops.
- SceneRecordings.CheckSpecs: whether names, prefixes, paths and bindings of a request are well formed is one flag of the request.
- SceneRecordings.Manager.Start: the directory, the scene's sources and the window's identity are answers of the environment; byte and frame counters, encoder settings and overlay placement inside a recording are not modelled. Only this manager creates and removes the files of its recordings.
- UiProtocol.RunValid: instance identifiers are never reused, and a restart ends all tasks of the old instance.
- The field-by-field validation of responses, the argument ranges of the other requests, text and rendering of the overlays, the argument parser and the skill scripts: each is settled by reading one branch.
