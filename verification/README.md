# HyDFS: a verified model

HyDFS keeps replicated files on a hash ring. Servers learn about each other by gossip or ping/ack (with or
without suspicion), place each file on a primary and the next alive members, let clients append to several
replicas at once, and repair the replicas with stabilization, merge and garbage collection. This project
models those parts and proves what they promise, and where they do not keep the promise, exactly when.

Code that changes things step by step (membership list, merge loop, metadata map, transfer handlers,
stabilization, merge, garbage collection) is a class whose methods are proved equal to a function of the old
state; the theorems are about those functions. Calls between servers are atomic steps that may fail; map
iteration order, the clock and the fate of every call are parameters.

## How it is organised

| part | modules |
|---|---|
| ring placement | `Members`, `Cyclic`, `Ring`, `Placement`, `Trigger` |
| append metadata and its locks | `AppendLog`, `MetadataStore`, `ConcurrentAppends`, `SyncCheck` |
| storing and streaming | `Storage`, `Transfer` |
| stabilization, merge, collection | `Cluster`, `HyDFS`, `Stabilization`, `Convergence`, `Recovery`, `FileContent`, `MergeFaults`, `LostCopy`, `PeriodicMerge`, `GarbageCollection`, `StorageScenarios` |
| membership | `Membership`, `MembershipMerge`, `MembershipRank`, `PingAck`, `GossipSystem`, `GossipProgress`, `Detection`, `GossipScenarios`, `Protocols` |

The two `Scenarios` modules hold concrete states and runs for the failures named below.

## What holds only under a condition

* **Ring partition.** Every hash has exactly one alive owner, the clients' primary, exactly when alive
  members have distinct hashes (`Placement.RingPartition`). Of alive members with one hash, one owns the whole ring.
* **Distinct targets.** A client names no target twice exactly when the ring has at least RF members
  (`Placement.TargetsDistinct`).
* **Garbage collection** ignores liveness: it keeps a fixed window of RF list positions, so with members down it
  deletes copies from current targets. `GarbageCollection.DroppedTargets` says exactly from which,
  `CollectorDropsTarget` gives a ring where it happens, and `Placement.GcSparesPrimary` shows that the primary is
  never among them while fewer than RF members are down. In a ring of fewer than RF members the collector at some
  positions indexes with a negative number and crashes, exactly where `Placement.CollectorCrashes` says (a pair with RF 3:
  `StorageScenarios.PairCrashes`); elsewhere its window shrinks to RF modulo the ring size. If the ends of its window
  carry one hash, as entries of a server that left and joined again do, it keeps everything (`Placement.GcWindow`).
* **The trigger** compares list positions, and dead entries count as positions. It never fires for nothing; it stays silent
  on a change in the node's own view exactly when the changed member is RF or more positions ahead, not the one
  before, and yet fewer than RF-1 alive members are before it or none is behind it (`Trigger.TriggerExact`, a ring of five in
  `Trigger.TriggerMisses`). Unless that happens the reaction to a failure restores all targets
  (`Recovery.FailureRepaired`).
* **Appends are not pulled.** `ring.go:232` asks for an AppendID, but `grpc_server.go:102` looks it up as a file
  name, so the download never succeeds (`Stabilization.AppendNotServed`). The repository's README (line 16) promises that
  data written to one server reaches all replicas; for appends this is not so. After a merge a successor lists
  an append if and only if the primary listed it (`Recovery.MergeKeepsPrimaryAppends`);
  `StorageScenarios.MergeDropsAppend` is a state where an append that only a replica received is dropped.
* **Merge after a loss.** A primary that pulls back a lost file gets base and appends as one piece and an empty
  append list. Its readers see the right bytes, but its next merge empties the append lists of the successors that had
  kept the file. They then serve the same bytes as the primary exactly when the first successor that had the file
  listed no appends for it (`LostCopy.RecoveredThenMerged`). A freshly joined primary is enough
  (`StorageScenarios.JoinThenMergeDiverges`).
* **Merge when calls fail.** `ensureRemoteFileInSync` goes on whatever became of the stabilization
  (hydfs_operations.go:477-483), and the list is then imposed. A turn leaves a successor listing appends without their data
  exactly when it imposes the list and some append of the primary is neither on the successor's disk before nor
  transferred (`MergeFaults.TurnStaysGood`). The lists agree from then on, so no later turn repairs it
  (`StorageScenarios.MergeBreaksStore`). Whatever fails, no file and no base is lost (`MergeFaults.MergeKeepsFiles`).
* **AppendIDs.** The comment at metadata.go:73 speaks of microseconds, but the timestamp in an AppendID is in seconds
  (hydfs_operations.go:140-145). Two appends of one client to one file within a second get one AppendID; then the second
  replaces the data of the first and adds no record (`Storage.ResendReplacesData`).
* **Replay.** Re-sending an append list rebuilds it exactly when it is duplicate-free and sorted per client
  (`AppendLog.ReplayExact`).
* **Final states.** While it stays in the list, a dead or left entry about another node leaves that state exactly when
  the introducer admits a join request of that very node (`GossipProgress.OnlyJoinRevives`). A second delivery of a request
  sent before the node died is enough (`GossipScenarios.RepeatedJoinRevives`). The sweep removes a dead entry after the
  cleanup timeout; a node that is not in the list gets a live entry exactly when such a request is admitted or a list with a
  live entry about it is received, however old (`GossipProgress.OnlyNewsFiles`, `GossipScenarios.DelayedListRevives`).
* **Order of gossip.** In both gossip modes merging is a maximum of ranks, and the rank a node ends with does not depend
  on order or repetition. For the entry itself, up to its update time, there are three cases (`MembershipRank.OrderExact`).
  If the node's entry is final or a voluntary leave was received, order does not show exactly when all received leaves are
  the same. Otherwise, with suspicion it never shows. Otherwise, without suspicion, the program's default, it does not show
  exactly when no two of the highest received entries, if above the node's own, differ in incarnation. Runs after which such
  entries travel are `GossipScenarios.AmbiguousReached` and `GossipScenarios.TwoLeavesReached`.
* **Round robin.** The order is rebuilt only when the number of candidates changes, so a candidate that replaces another
  is not picked until then (`Protocols.Selector.SelectRepeatedly`, `GossipScenarios.StaleSelection`).

## Assumptions of the storage theorems

`Named` stores follow the system's conventions: no AppendID is a file name, each AppendID belongs to one file, metadata
carries the hash of its name, and lists are ordered. Every stabilization and every merge keeps this, whatever calls fail.
`Good` adds that listed files and appends have non-empty data on disk. Every stabilization keeps that too; a merge
keeps it if every append transfer succeeds (`MergeFaults.MergeStaysGood`), and turn by turn exactly under the condition above.
`Faithful` adds, for one file, that all holders have the bytes that were written. `Running` says that the node is in its
list with an alive predecessor and that its successors are up. A merge needs the file in the primary's range, as for the
periodic merge and for a client's merge request (`Recovery.ClientMergeAligns`); otherwise `stabilizeRing` ignores the name.

## Model

| member | source | states |
|---|---|---|
| Ring.GetNodeIndex | ring.go:12-19 | the position of the first member with the ID, or -1 exactly when there is none |
| Ring.GetPrimaryKeyRange | ring.go:32-58 | the backward modular walk ends at the nearest alive predecessor in list order, the last alive one when none is below, or the node itself when it alone is alive |
| Ring.GetSuccessors | ring.go:124-139 | the first n-1 alive members of the list rotated to start after the node, none for n = 0 |
| Ring.GetAllKeyRange | ring.go:62-82 | the range from RF positions before the node, with Go's remainder: absent node, negative index or range |
| Ring.FindPrimary | hydfs_operations.go:422-449 | the first alive hash at or above the file's hash, else the first alive member, else none |
| Ring.FindTargetNodes | hydfs_operations.go:415-461 | the alive members among the RF list positions that start at the primary |
| Ring.WindowIndex | hydfs_operations.go:453-458 | the modular index visits the list positions lap after lap, for any replication factor |
| Ring.HandleReplicationWindowChange | ring.go:290-313 | stabilization starts when one of the next RF-1 positions, or the position before, is the changed member |
| Placement.RingPartition | ring.go:32-58 | for every hash exactly one alive member's range holds it and it is the clients' primary, if and only if alive hashes are distinct |
| Placement.PrimaryOwns | hydfs_operations.go:422-449 | the clients' primary always claims the hash, including wrap-around and a single alive member |
| Placement.OwnerIsPrimary | ring.go:110-121 | no other alive member claims it when alive hashes are distinct |
| Placement.CollisionOwnsAll | ring.go:41-47 | two alive members with one hash make one of them claim every hash |
| Placement.ClientReplicas | hydfs_operations.go:451-460 | the targets are a prefix of the primary and its successors, at least RF minus the non-alive count, and all of them when everybody is alive |
| Placement.TargetsDistinct | hydfs_operations.go:453-458 | no member is named twice if and only if RF is at most the ring size |
| Placement.GcWindow | ring.go:62-82 | unless its index is negative the collector keeps a hash if and only if the ends of its window carry one hash or the member is fewer than GcWidth positions from the first hash at or above it: RF, or RF modulo the size of a smaller ring |
| Placement.CollectorCrashes | ring.go:74-75 | the index is negative exactly when RF exceeds the ring size plus the position and not by whole turns |
| StorageScenarios.PairCrashes | ring.go:74-75 | in a ring of two with RF 3 the first server's collector crashes |
| Placement.GcExactWhenAllAlive | ring.go:316-343 | with all alive the collector keeps exactly the files the member is a target of, or everything if its window's ends carry one hash |
| Placement.GcSparesPrimary | ring.go:329-343 | with fewer than RF members down a file's primary keeps it |
| Placement.GcKeepsTarget | ring.go:329-343 | a current target keeps the file if and only if it lies in the window that ignores liveness or the window's ends carry one hash |
| Placement.NewPrimaryWasTarget | hydfs_operations.go:422-460 | after any further failures, with fewer than RF members down altogether, the new primary was a target before |
| Trigger.TriggerDistance | ring.go:301-302 | the trigger fires if and only if the changed member is less than RF steps ahead or one step behind |
| Trigger.SuccessorsIgnoreDead | ring.go:124-139 | a dead entry and no entry give the same successors |
| Trigger.RangeIgnoresDead | ring.go:38-54 | a dead entry and no entry give the same primary range |
| Trigger.SuccessorsChange | ring.go:131-137 | the successor list changes if and only if fewer than RF-1 alive members lie before the changed one |
| Trigger.RangeChange | ring.go:41-54 | the primary range changes if and only if no alive member lies between the changed one and the node |
| Trigger.TriggerExact | ring.go:290-313 | for every liveness pattern the trigger fires only for changes of the successor list or range, for all but the Missed ones, and with everybody alive none is Missed; a dead entry and none are alike |
| Trigger.TriggerMisses | ring.go:301-302 | a ring of five with one dead entry where a failure changes the successors and the trigger stays silent |
| AppendLog.InsertAppend | metadata.go:78-93 | the new append goes before the first later append of the same client, else last |
| AppendLog.StrLessIs | metadata.go:81-82 | timestamps compare at their first difference, or the shorter one is smaller |
| AppendLog.TimestampsCompare | hydfs_operations.go:140 | decimal timestamps of one length compare as the numbers they are |
| AppendLog.InsertPlace | metadata.go:80-92 | the new append stands before an entry of its client with a later timestamp, the first such one, or last |
| AppendLog.AppendToKeeps | metadata.go:133-157 | unique IDs and per-client order are kept, existing entries keep their relative order, and one entry is added if the ID is new |
| AppendLog.AppendAllOrdered | metadata.go:133-157 | any sequence of calls keeps the invariant |
| AppendLog.AppendAllIds | metadata.go:145-151 | after any calls the IDs are exactly the old ones and those of the calls |
| AppendLog.ReplayExact | metadata.go:133-157 | replaying a list into an empty file reproduces it if and only if it is ordered |
| SyncCheck.FilesAndAppendsMatch | hydfs_operations.go:486-507 | hash, length and one-sided membership decide |
| SyncCheck.OrdersMatch | hydfs_operations.go:545-557 | true if and only if the ID sequences are equal |
| SyncCheck.MatchExact | hydfs_operations.go:486-507 | with unique IDs the check holds if and only if hashes agree and the IDs are a permutation of each other |
| SyncCheck.OrderImpliesAppends | hydfs_operations.go:545-557 | equal order implies the append part of the sync check |
| SyncCheck.Pigeonhole | hydfs_operations.go:491-504 | equal length and one-sided membership of distinct IDs give a permutation |
| SyncCheck.MatchNeedsUnique | hydfs_operations.go:495-504 | with duplicate IDs the check accepts lists that differ |
| MetadataStore.Metadata.AddFile | metadata.go:104-114 | adds or overwrites the entry and keeps one lock per file |
| MetadataStore.Metadata.GetFile | metadata.go:117-130 | the entry, or nothing when absent |
| MetadataStore.Metadata.AppendToFile | metadata.go:133-157 | fails exactly on an unknown file, ignores a known AppendID, else inserts; an ordered list stays ordered |
| MetadataStore.Metadata.DeleteFile | metadata.go:172-190 | removes the entry and its lock, and reports whether it was there |
| MetadataStore.Metadata.ListFiles | metadata.go:160-168 | every name once, in some order |
| ConcurrentAppends.RunInv | metadata.go:133-157 | under every schedule the lock holder is the one call in its critical section and the metadata is the serial result short of it |
| ConcurrentAppends.Linearizable | metadata.go:96-157 | whenever a file's lock is free its metadata is the result of its calls one by one in lock order, each once |
| ConcurrentAppends.HistoryGrows | metadata.go:138-139 | the lock order only grows |
| ConcurrentAppends.RealTimeOrder | metadata.go:133-157 | a call that took the lock before another had started on it comes earlier in the lock order |
| ConcurrentAppends.NoAppendLost | metadata.go:133-157 | a call that has returned is in the list, also while another call holds the lock |
| ConcurrentAppends.MovesOn | metadata.go:138-139 | a scheduled call moves on unless it waits for a taken lock or is through; a waiting call takes a free lock |
| ConcurrentAppends.HolderReturns | metadata.go:138-156 | from any state the holder of a lock, scheduled for its remaining steps, returns and frees it |
| ConcurrentAppends.AloneReturns | metadata.go:133-157 | a call run alone returns in six steps with the old list and its append put in, or the old list if the AppendID was there, and touches no other file |
| ConcurrentAppends.AllReturn | metadata.go:133-157 | from every reachable state all calls on existing files have returned after six fair rounds per call, in any order |
| ConcurrentAppends.MissingFileFails | metadata.go:134-137 | a call on a file that does not exist fails and changes nothing |
| Membership.MembershipList.SortNodes | membership_list.go:40-49 | some list sorted by hash with the same entries |
| Membership.MembershipList.AddOrUpdate | membership_list.go:18-37 | the map gains or replaces one entry; the list stays sorted with unique IDs |
| Membership.MembershipList.Remove | membership_list.go:51-63 | the map loses one entry; the list stays sorted |
| Membership.MembershipList.Snapshot | membership_list.go:146-156 | the map the list stands for |
| Membership.SweepIsRight | membership_list.go:78-118 | the branches of the sweep in terms of status, elapsed time and timeouts, for every configuration |
| Membership.SilenceWithSuspicion | membership_list.go:87-118 | an entry only sweeps touch is live, then suspect, then dead and reported once, then gone, each by the first sweep beyond its timeout and not before |
| Membership.SilenceWithoutSuspicion | membership_list.go:95-118 | the same without suspicion: live until the first sweep beyond both timeouts, then dead and reported once, then gone |
| Membership.MembershipList.Collect | membership_list.go:76-119 | the updates, the positions to cut and the newly dead of one pass |
| Membership.MembershipList.ApplyUpdates | membership_list.go:121-130 | each update overwrites its own entry and no other |
| Membership.MembershipList.ApplyRemovals | membership_list.go:132-136 | cutting positions from the highest down leaves exactly the entries to keep |
| Membership.MembershipList.MarkSuspectIfNeeded | membership_list.go:65-144 | exactly the dead overdue for cleanup are gone, exactly the suspects overdue for the dead timeout (without suspicion the live ones overdue for both) are dead and reported, exactly the live ones overdue for the suspicion timeout are suspects with suspicion on, all others are as they were |
| Membership.SweptContents | membership_list.go:121-141 | the list of kept and updated entries stands for the mapped map |
| Membership.ListDetermined | membership_list.go:40-49 | with distinct hashes the members determine the list, so servers that agree on members agree on the ring |
| MembershipMerge.Server.constructor | server.go:47-101 | counters 1 and a list holding only the server itself, alive |
| MembershipMerge.Server.HandleDeadNode | membership_merge.go:187-195 | a node is reacted to as failed once |
| MembershipMerge.Server.HandleNewlyJoinedNode | membership_merge.go:197-205 | a node is reacted to as joined once |
| MembershipMerge.Server.IncreaseHeartbeat | server.go:155-177 | the own entry is rewritten alive with the next heartbeat, under gossip only |
| MembershipMerge.Server.Sweep | server.go:108-119 | one tick of the failure detector on the whole server state; what it does to entries is stated by MarkSuspectIfNeeded |
| MembershipMerge.Server.LeaveGroup | cli.go:108-126 | the own entry becomes a voluntary leave at the current incarnation |
| MembershipMerge.Server.MergeReceived | membership_merge.go:11-68 | all branches of one loop iteration as one function of the state |
| MembershipMerge.Server.MergeMembership | membership_merge.go:8-70 | the whole loop is the fold of the iterations over one snapshot |
| MembershipMerge.MergePointwise | membership_merge.go:9-68 | with unique received IDs every entry is merged once against the current one, the others stay, and the incarnation grows by one exactly on a refutation |
| MembershipMerge.MergeReacts | membership_merge.go:21-37 | exactly the nodes first heard of, not as dead, are reacted to as joined, and exactly those whose end is reported as failed |
| MembershipMerge.StatusOrder | membership_merge.go:169-185 | suspect overrides alive, a final status overrides both, nothing overrides its equal |
| PingAck.PingMergeIsMax | membership_merge.go:74-166 | under ping/ack, in both modes, merging is the maximum of status and incarnation |
| PingAck.OnlyItselfRefreshes | membership_merge.go:109-113 | under ping/ack, of entries that say the same exactly the one sent by the node itself sets the update time |
| PingAck.OwnDeathIgnored | membership_merge.go:51-54 | a server told of its own death keeps its entry, in every configuration |
| Detection.NewsSpares | membership_merge.go:104-113 | in every reachable state fresh news, from the node itself under ping/ack or with a higher heartbeat under gossip, sets the entry live as of now, and no sweep within the suspicion timeout touches it |
| Detection.HearsayIgnored | membership_merge.go:109-126 | under ping/ack what a third node says of a live member leaves its entry and clock |
| Detection.PingAnswered | rpc_server.go:53-65 | a pinged server answers with its list, and the answer spares it from suspicion at the one that pinged |
| Detection.HeartbeatWins | server.go:155-177 | after a heartbeat a server's own entry is live with a heartbeat above every entry about it anywhere, and every server that has it as live takes it and starts its clock anew |
| Detection.LeaveSpreads | cli.go:108-126 | after leaving the own entry is a leave at the own incarnation, which every other server takes in every configuration |
| Detection.SilenceDetected | membership_list.go:65-144 | in every run, either protocol, with suspicion: a live member nothing is told about is suspected, declared dead and reported, and removed by the first sweeps beyond the timeouts, and not earlier |
| Detection.SilenceDetectedPlain | membership_list.go:65-144 | the same for every run without suspicion |
| Detection.JoinFiled | rpc_server.go:19-35 | the introducer files a newcomer live at its current counters with its own hash |
| Detection.JoinHandshake | rpc_server.go:218-241 | the newcomer gets the introducer's configuration and a live entry for every live member it did not know, and the reply lists the newcomer |
| MembershipRank.MergeIsMax | membership_merge.go:72-166 | under gossip, in both suspicion modes, merging is the maximum of the ranks of that mode |
| MembershipRank.FoldIsSupremum | membership_merge.go:72-166 | in both modes folding received entries gives the least upper bound of their ranks |
| MembershipRank.SameRank | membership_merge.go:72-166 | same entries in any order and repetition: same rank, in both modes |
| MembershipRank.OrderIndependent | membership_merge.go:72-128 | with suspicion two nodes of one rank end with entries equal up to the update time, unless final |
| MembershipRank.ListsFold | membership_merge.go:8-70 | merging any sequence of whole lists folds, for each other node, what the lists say about it |
| MembershipRank.NodesAgree | membership_merge.go:8-70 | two servers that merged any lists rank a third node alike in both modes once the same entries about it reached both, and their entries agree up to time if order does not show |
| MembershipRank.FinalFold | membership_merge.go:76-85 | in both modes the fold ends with one of the received leaves, or else with the final entry the node had |
| MembershipRank.OrderExact | membership_merge.go:72-166 | in both modes and for all entries, every order and repetition gives the same entry up to the update time if and only if: all received leaves are the same when a final entry is at hand, else suspicion is on or no two leading entries differ in incarnation |
| GossipScenarios.TwoLeavesReached | cli.go:108-126 | a run from the empty system that sends two different leaves of one node |
| MembershipRank.TwoOrders | membership_merge.go:141-149 | two live entries give the same result in both orders if and only if status or heartbeat differ or the incarnations are equal |
| GossipScenarios.AmbiguousReached | membership_merge.go:40-50 | a run from the empty system that sends two live entries with one heartbeat and different incarnations |
| MembershipRank.FinalAbsorbs | membership_merge.go:74-166 | in every configuration a merge keeps a final entry about another node final |
| MembershipRank.SweepRaises | membership_list.go:76-119 | the sweep never lowers the rank, in either mode, of an entry it keeps and leaves final ones alone |
| GossipSystem.MergeBounded | membership_merge.go:8-70 | a merge writes no counter its subject has not issued |
| GossipSystem.StepInv | rpc_server.go:19-65 | every step of the system keeps the origin bound, in every mode |
| GossipSystem.OriginBound | membership_merge.go:40-50 | in every run no entry or message about X exceeds X's own counters, lists have unique IDs and every entry carries its subject's hash |
| GossipProgress.RefutationRenews | membership_merge.go:40-50 | a refutation leaves the own entry alive at the new incarnation, as of now |
| GossipProgress.SuspicionIsRefuted | membership_merge.go:41-42 | a server refutes exactly if it is live in its own list and hears itself suspected at its entry's incarnation or above |
| GossipProgress.RefutationWins | membership_merge.go:87-94 | in every reachable state a server that hears it is suspected gets an incarnation above all entries about it anywhere, and every server with suspicion and a non-final entry adopts it |
| GossipProgress.EntryMovesForward | membership_merge.go:74-166 | no step but an admitted join takes an entry about another node out of a final state or, under gossip, lowers the rank of the current mode |
| GossipProgress.OnlyJoinRevives | rpc_server.go:19-35 | a kept final entry stops being final if and only if the step admits a join request of that node |
| GossipProgress.OnlyNewsFiles | membership_merge.go:21-30 | a node that is not listed gets a live entry if and only if the step admits its join request or receives a list with a live entry about it |
| GossipScenarios.DelayedListRevives | membership_list.go:113-118 | a run in which a dead entry is removed and a list sent before the death makes the node alive again |
| GossipScenarios.RepeatedJoinRevives | rpc_server.go:19-35 | a run in which a join request delivered twice turns a dead entry alive |
| GossipProgress.RunsMoveForward | membership_merge.go:8-70 | over every stretch of every run, across mode switches, final stays final, and while gossip runs in one mode its rank never falls |
| Protocols.Selector.SelectNextKNodes | protocols.go:16-52 | the next k picks of the order, all of it if k is larger; the order is rebuilt only when the candidate count changed, and then names exactly the listed members other than the server itself that are not dead; a first selection is empty exactly if there are none or k is 0 |
| Protocols.Candidates | protocols.go:17-23 | an ID is named exactly if it is in the snapshot, is not the server itself and is not dead there, and once |
| Protocols.Selector.SelectRepeatedly | protocols.go:25-51 | any selections, with any k and any snapshots of unchanged candidate count, pick one uninterrupted stream: any n consecutive picks name each of the n members of the order once, and nobody else is picked |
| Protocols.RoundRobinFair | protocols.go:40-49 | the fairness of that stream: any n consecutive picks, across calls, name every one of the n candidates exactly once |
| GossipScenarios.StaleSelection | protocols.go:29-30 | a fresh selector asked with one candidate and then another in its place picks the first both times |
| Protocols.GossipList | protocols.go:65-79 | every entry of the snapshot once, as it is but for its update time |
| Protocols.PingList | protocols.go:104-118 | every entry of the snapshot once, as it is but for heartbeat and update time |
| Storage.ReadPathsJoined | grpc_server.go:117-165 | when all parts are on disk the stream is the parts joined by newlines |
| Storage.MissingSkipped | grpc_server.go:118-165 | missing parts are skipped with their separators; the others are joined by newlines, with one more at the end if the last part is missing |
| Storage.StoreRoundTrip | grpc_server.go:94-169 | create, append in any way, read back: base and appends in metadata order joined by newlines |
| Storage.ResendReplacesData | grpc_server.go:231-240 | a second transfer under a listed AppendID replaces the data and not the record |
| Transfer.ChunkFile | grpc_client.go:34-62 | full 64 KB pieces and a rest that add up to the data, metadata on the first only; none for empty data |
| Transfer.ChunkAppend | grpc_client.go:151-178 | the same for an append |
| Transfer.StorageServer.FileTransfer | grpc_server.go:24-91 | stores the concatenated data under the first name with the first metadata; a broken stream, a known name, missing metadata or a disk error changes nothing |
| Transfer.StorageServer.AppendTransfer | grpc_server.go:172-252 | writes the data and inserts the record of the first chunk with the received size; a broken stream, an unknown file or a disk error changes nothing |
| Transfer.StorageServer.GetFile | grpc_server.go:94-169 | the streamed chunks carry exactly the file's content |
| Transfer.StorageServer.UpdateAppendOrder | rpc_server.go:131-150 | replaces the append list of a known file and nothing else |
| Transfer.SendFileToNode | grpc_client.go:17-79 | whatever the chunk boundaries the target ends with exactly the data and metadata sent, or is unchanged: if it knew the file, the transfer failed, the data was empty or had no content hash |
| Transfer.SendAppendToNode | grpc_client.go:134-194 | the target gains exactly this append, or is unchanged; empty data arrives as an append with all fields empty |
| Transfer.ReceiveFileFromNode | grpc_client.go:82-131 | the local file ends with exactly the content served; after a failure it is gone if the stream was opened and untouched if not; no other file changes |
| HyDFS.System.GetFilesWithinRange | ring.go:85-106 | the names whose hash is in the range, in iteration order |
| HyDFS.System.FetchMetadataFromNode | rpc_server.go:81-95 | exactly the entries in range, or none when the call fails |
| HyDFS.System.Receive | grpc_client.go:82-131 | succeeds exactly if the stream completes and the server lists the name; after a failure nothing is under the name once the stream was opened; no other file changes |
| HyDFS.System.StabilizeRing | ring.go:247-288 | the loops of push and pull give the state the theorems are about; no file or append is lost, whatever calls fail |
| HyDFS.System.ExecuteMerge | hydfs_operations.go:384-412 | the loop over successors gives the state the theorems are about; no file is lost and no base changed, whatever calls fail |
| HyDFS.System.ExecuteMergeForAllFiles | hydfs_operations.go:559-567 | the loop over the files in range gives the state MergeAllConverges is about |
| HyDFS.System.DeleteFilesOutsideMyRange | ring.go:316-367 | of every file outside the window the metadata, the base and all appends go, and no other data; nothing if it crashes or counts nothing, and nothing on other servers |
| Stabilization.AppendNotServed | ring.go:229-235 | a download by AppendID never succeeds when no AppendID is a file name |
| Stabilization.StabilizeLosesNothing | ring.go:247-288 | whatever calls fail, no file and no append is lost on any server, base bytes and append order stay, and stores stay well-formed |
| Convergence.SentInOrder | ring.go:176-184 | pushing a list to a server without the file recreates the order |
| Convergence.PushSuccessorsEffect | ring.go:142-188 | with successful calls every successor is delivered all pushed files with all their appends and nothing else changes |
| Convergence.PullSuccessorsEffect | ring.go:191-244 | the puller keeps its entries and gains exactly the successors' names in range |
| Recovery.RoundEffect | ring.go:247-288 | the combined effect of a successful push and pull on every server |
| Recovery.TwoRoundsSpread | ring.go:247-288 | after two successful rounds primary and successors hold the same names in range: all that any of them held |
| Recovery.MergeConverges | hydfs_operations.go:384-412 | every successor ends with exactly the primary's append IDs in its order, whatever it had before |
| Recovery.MergeKeepsPrimaryAppends | hydfs_operations.go:509-543 | after a merge a successor lists an append if and only if the primary listed it |
| StorageScenarios.MergeDropsAppend | hydfs_operations.go:531-531 | a state where an append that only the successor had is listed nowhere after the merge |
| Recovery.ClientMergeAligns | hydfs_operations.go:187-237 | a merge at the clients' primary aligns every target the clients see |
| Recovery.SurvivesFailures | hydfs_operations.go:415-461 | after any further failures, with fewer than RF members down altogether, the new primary holds the file, its collector keeps it, and one stabilization puts it on every current target |
| Recovery.FailureRepaired | ring.go:290-313 | after one more failure the reaction of the new primary's trigger leaves the file on every current target, unless the trigger misses the change |
| PeriodicMerge.MergeAllConverges | hydfs_operations.go:559-567 | after merging every file of the range in turn every successor holds all of them with the primary's append IDs in order |
| FileContent.StabilizeFaithful | ring.go:142-244 | whatever calls fail, stabilization at a holder leaves every copy with the bytes that were written |
| FileContent.ReplicasReadAlike | hydfs_operations.go:384-412 | after a merge every successor serves the very bytes the primary served before it |
| LostCopy.BaseAlone | grpc_server.go:107-165 | a reader sees the base alone if and only if no append is listed |
| LostCopy.LostFileReturns | ring.go:200-220 | after a round a primary that had lost a file serves what the first successor holding it served, and lists no appends |
| MergeFaults.MergeKeepsFiles | hydfs_operations.go:463-543 | whatever calls fail, a merge loses no file on any server, changes no base and keeps names and list order |
| MergeFaults.StabilizeData | ring.go:176-184 | whatever calls fail, a successor that lists the file has an append's data after a stabilization exactly when it had it or its transfer succeeds |
| MergeFaults.StabilizeFiles | ring.go:157-166 | whatever calls fail, a successor holds a pushed file exactly if it did before or its transfer succeeds |
| MergeFaults.StabilizeNoNewAppends | ring.go:229-240 | whatever calls fail, after a stabilization the server has no append data it did not have: failed downloads leave nothing behind |
| MergeFaults.MissingAppendsTried | ring.go:229-235 | every append a successor lists and the puller does not is asked for, and afterwards nothing is under its name once the stream was opened |
| MergeFaults.ServedAppendFiled | ring.go:236-239 | if an AppendID is a file name at the successor after all, the puller files the append and its data |
| MergeFaults.FailedCalls | hydfs_operations.go:464-520 | a turn whose first call fails changes nothing; one that finds the file missing, or whose later calls fail, at most stabilizes |
| MergeFaults.OtherNameIsAll | ring.go:258-270 | a stabilization for a name not held in range is one for all files |
| MergeFaults.TurnStaysGood | hydfs_operations.go:477-531 | whatever calls fail, one successor's turn leaves all listed data on disk if and only if the list is not imposed or each append of the primary is on its disk or transferred |
| MergeFaults.MergeStaysGood | hydfs_operations.go:384-412 | a merge whose append transfers succeed leaves all listed data on disk, whatever else fails |
| MergeFaults.TurnIdle | hydfs_operations.go:522-525 | once the lists agree a turn changes nothing, so missing data stays missing |
| StorageScenarios.MergeBreaksStore | hydfs_operations.go:477-483 | a state in which a failed transfer leaves a successor listing an append without data, for good |
| LostCopy.RecoveredThenMerged | hydfs_operations.go:392-407 | after that the merge leaves earlier holders with the bare base, which agrees with the primary if and only if the first holder listed no appends |
| StorageScenarios.JoinThenMergeDiverges | hydfs_operations.go:392-407 | a freshly joined primary after whose first round and merge the two replicas serve different bytes |
| GarbageCollection.CollectExact | ring.go:332-362 | exactly the listed files outside the range go; the others keep metadata and all data |
| GarbageCollection.CollectDisk | ring.go:344-357 | data is on the disk afterwards exactly if it was and belongs to no file that is gone, with its bytes unchanged |
| GarbageCollection.CollectorKeepsWindow | ring.go:316-367 | a run leaves exactly the files of the window, with all their data, and no data of the others; or it crashes on a negative index and deletes nothing |
| GarbageCollection.DroppedTargets | ring.go:73-78 | exactly which current targets the collector deletes from |
| GarbageCollection.CollectorDropsTarget | ring.go:73-78 | a four-member ring with one dead member where the third copy is deleted |

## Left out

- UDP, JSON, the 4096-byte buffers, gRPC connections and generated code: calls are steps that succeed or fail.
- A call that fails halfway: an upload takes effect completely or not at all, also when the disk refuses the write.
- The command line, logging, bandwidth counters and directory cleanup at startup.
- SHA-1 and SHA-256: node and name hashes are given numbers below 256 (HashBits is 8, so the int32 cast at grpc_client.go:51 loses nothing); content hashes are opaque strings.
- The clock: each step is given its time.
- Wrap-around of the 64-bit incarnation and heartbeat counters, which are unbounded here.
- `handleCreate`, `handleAppend`, `handleMultiAppend`: fan-out and counting of replies.
- Aliasing of the `Appends` slices between the map and the copies handed out: append lists are values.
- Races of `UpdateAppendOrder`, `AddFile` and `DeleteFile` with `AppendToFile`: the concurrency theorem covers `AppendToFile` calls only, as the others do not take the per-file lock.
- Interleaving of several stabilization or merge runs: a run is one step of the server that starts it, made of atomic calls.
- Stabilization started from the membership steps: the trigger decision and the run are modelled separately, and the membership system records only that a node was reacted to.
- Transfer.StorageServer.FileTransfer: a stream without metadata makes the handler dereference nil; the status `Panicked` stands for that, and what the crash does to the process is not modelled.
- HyDFS.System.ExecuteMergeForAllFiles: without a primary range the source passes nil bounds and crashes on the first file; the model stops without effect.
- Recovery.MergeConverges: asks that the file be in the primary's range, as only then does stabilization push it by name.
- Recovery.TwoRoundsSpread: is about names; what becomes of contents is stated by `FileContent.ReplicasReadAlike` and `LostCopy.RecoveredThenMerged`.
- RPC by address: the source addresses members by host and port; the model uses the ID, so a restarted process at an old address is not distinguished.
- File names that are paths: a name is its own key on disk, without path cleaning or subdirectories.
