# Verified models of the distributed-systems and networking cores

This project models the state machines at the heart of the repository and proves
what each of them is for, over every input and every run:

- **Transactions** (`mini-dist-transaction`): optimistic concurrency control is
  serializable (`Occ.dfy`); multi-version snapshots read the commit history and
  the first committer wins (`Mvcc.dfy`); redo-all, undo-losers recovery is correct
  (`Wal.dfy`); cycle detection decides conflict serializability and yields a serial
  order (`ConflictGraph.dfy`); Redlock excludes (`DistLock.dfy`).
- **Consensus and election** (`mini-dist-protocol`, `mini-dist-system-theory`):
  Paxos agreement (`Paxos.dfy`), Raft election safety (`RaftElection.dfy`), Raft log
  matching (`RaftLog.dfy`), when the votes of that cluster yield one leader per term
  (`RaftVotes.dfy`), that its commits are then final (`RaftCommit.dfy`) and that
  polls elect, rounds repair logs and commits reach everybody (`RaftProgress.dfy`),
  total correctness of the ring election and exactly which initiators it needs
  (`RingElection.dfy`), over shared majority quorums (`Quorum.dfy`).
- **Causality**: vector clocks decide happens-before exactly (`VectorClocks.dfy`).
- **Scheduling and admission** (`mini-gateway-proxy`): smooth weighted round robin
  is fair (`WeightedRoundRobin.dfy`), the hash ring disturbs no more keys than it
  must (`ConsistentHash.dfy`, `LoadBalancer.dfy`), the sliding window bounds
  admissions (`SlidingWindow.dfy`), token and leaky bucket are dual and bounded
  (`Buckets.dfy`).
- **IPv4 fragmentation** (`mini-network-base`): fragments tile the payload and
  reassemble in any order (`IpFragment.dfy`); section 3.2 of RFC 791.

`MessageQueue.dfy`, `KeyedTable.dfy` and `Options.dfy` hold the circular queue, the
linearly searched tables and the option type that several components share.

Each component has the same two layers. Functions on values say what one call does;
runs are folds of such calls, in which a call that the code would refuse changes
nothing, and the theorems are about all runs. Classes carry the source's fields and
methods with its loops, and every method is proved equal to its function.

Assumptions, stated once: keys, owners and identifiers fit their fixed buffers, so
comparing strings is comparing identities; counters and timestamps do not overflow
except where the model says so (the window start of the sliding log, the MTU
arithmetic and the 16-bit lengths of fragmentation wrap as in the source); the clock
is an input that does not decrease; `double` is `real`. Fixed tables keep their sizes
and their behaviour when full. Where a theorem needs them not to be full this is a
stated condition on the run. Where a theorem has such a condition a lemma shows what
happens without it: `Occ.ForgottenReadBreaksSerializability` for a full read set,
`Occ.CommitWithoutRoom` and `Mvcc.SnapshotReadsExactly` for full tables, `Wal.RecoveryExact` for logs that
are not strict, `RaftVotes.TwoLeadersBreakMatching` for two leaders of a term,
`RaftCommit.ForgottenVoteCommitsTwo` for polls that are not fair,
`RingElection.OneElectionExactly` for inactive initiators, `SlidingWindow.BoundExactly`
for clocks below the window size, `SlidingWindow.JammedRefuses` for limits beyond
the buffer.

Where code and documentation disagree the model follows the code: forward validation
never rejects anything (`Occ.ForwardValidationNeverRejects`), accepting a Paxos value
does not raise the promise (`Paxos.UnpromisedAcceptBreaksAgreement`), a Redlock
holder that retries loses its lock (`DistLock.RetryLosesLock`), a node of the
synchronous Raft cluster forgets its vote when it becomes leader
(`RaftVotes.ForgottenVoteElectsTwo`), and reassembly does not reserve room for the
header (`IpFragment.ReassemblyOverruns`).

Beside what must never happen the theorems say what must: the lemmas named `...Exactly`
give, for each main operation, when it succeeds and what it then does in terms of the
history or of the state alone, and `TimeoutElects`, `FreshClusterCommits`, `LogsAreRepaired`, `ReleaseFrees` and `LapseFrees` give runs that
reach their goal.

Verify with `dafny verify dfyconfig.toml`.

## Model

| member | source | states |
|---|---|---|
| `Occ.Serializable` | mini-dist-transaction/src/occ.c:107-254 | for every interleaving of begin, read, write, validate, commit and abort, replaying the committed transactions one at a time in commit order on an empty store returns to each read the value it returned, ends in the current records, and the commit timestamps strictly increase |
| `Occ.ValidatedRunsAlone` | mini-dist-transaction/src/occ.c:116-178 | a transaction whose recorded versions are all still current could run alone, now, on the committed store and would read the same values and write its write set |
| `Occ.ForgottenReadBreaksSerializability` | mini-dist-transaction/src/occ.c:116-142 | every run that fits and in which a transaction will not remember a read has a continuation after which no order of the committed transactions, the commit order or any other, explains all their reads |
| `Occ.ForgottenReadLosesUpdate` | mini-dist-transaction/src/occ.c:116-178 | such a continuation with one more transaction: both read the key and write it, and where the value they read has a single source no order explains both |
| `Occ.FullReadSetForgets` | mini-dist-transaction/src/occ.c:134-140 | a concrete run with a 65th read whose committed transactions no order explains |
| `Occ.CommitWithoutRoom` | mini-dist-transaction/src/occ.c:233-254 | after every run that fits, a valid commit leaves the records of the serial execution if and only if each of its writes finds room in the record table or writes the empty value of a missing record |
| `Occ.ForwardValidationNeverRejects` | mini-dist-transaction/src/occ.c:185-198 | in every run forward validation accepts every transaction, because it compares with copies taken at begin |
| `Occ.ReadExactly` | mini-dist-transaction/src/occ.c:116-142 | after every run: nothing is read outside the read phase; a key the transaction wrote reads as it last wrote it; any other key reads as its record, or as empty where a record can be made, and is remembered while there is room; no other read is refused |
| `Occ.WriteExactly` | mini-dist-transaction/src/occ.c:144-162 | after every run: a write is taken exactly in the read phase and while fewer than 64 keys are written |
| `Occ.ValidExactly` | mini-dist-transaction/src/occ.c:169-178 | backward validation passes exactly when no commit of the history overwrote a remembered read after its version |
| `Occ.CommitsExactly` | mini-dist-transaction/src/occ.c:233-254 | after every run that fits: a commit enters the history exactly when nothing the transaction remembers reading was overwritten since; otherwise it is aborted and the records stay |
| `Occ.ActiveOnlyGrows` | mini-dist-transaction/src/occ.c:77-114 | no commit or abort ever shortens the active list, so a manager takes no more transactions in all than the list has slots |
| `Occ.OccManager.EnsureRecordAt` | mini-dist-transaction/src/occ.c:89-105 | finds the record of a key or appends one at version 0; -1 and no change when the table is full |
| `Occ.OccManager.BeginTxn` | mini-dist-transaction/src/occ.c:77-114 | a fresh transaction stamped with the next version, and a copy of it on the active list; refused when the list is full |
| `Occ.OccManager.ReadKey` | mini-dist-transaction/src/occ.c:116-142 | own buffered value first, else the record value with its version remembered while the read set has room; refused only outside the read phase or without room for a record, as ReadExactly says |
| `Occ.OccTransaction.BufferWrite` | mini-dist-transaction/src/occ.c:144-162 | replaces or appends the buffered value; refused outside the read phase or with a full write set |
| `Occ.OccManager.BackwardValidation` | mini-dist-transaction/src/occ.c:169-178 | true exactly when no read key has a version newer than the one read |
| `Occ.OccManager.ForwardValidation` | mini-dist-transaction/src/occ.c:185-198 | true exactly when no active copy of another transaction that did not abort has read a written key |
| `Occ.OccManager.ValidateTxn` | mini-dist-transaction/src/occ.c:200-212 | both validations, and the write phase or the aborted phase after them |
| `Occ.OccManager.CommitTxn` | mini-dist-transaction/src/occ.c:233-254 | validates, takes the next version, installs every write under it and moves both watermarks up; an invalid transaction is aborted and the records keep their values |
| `Occ.OccTransaction.Abort` | mini-dist-transaction/src/occ.c:256-260 | the phase changes and the abort counter grows by one |
| `Mvcc.SnapshotReadsHistory` | mini-dist-transaction/src/mvcc.c:86-96 | in every reachable store the version visible at any timestamp is the last write of the key among the transactions committed up to it |
| `Mvcc.SnapshotsAreStable` | mini-dist-transaction/src/mvcc.c:64-128 | no later begin, write, commit or abort changes the answer at an already allocated timestamp |
| `Mvcc.FirstCommitterWins` | mini-dist-transaction/src/mvcc.c:186-226 | of two committed transactions that wrote one key, the earlier committed before the later took its read timestamp |
| `Mvcc.ReadsSnapshot` | mini-dist-transaction/src/mvcc.c:130-152 | after every run that fits, a read returns the last value the transaction itself wrote to the key, and otherwise the last write among the transactions committed up to the timestamp taken when it began |
| `Mvcc.RepeatableRead` | mini-dist-transaction/src/mvcc.c:130-152 | whatever other steps run in between, two reads of a key by one transaction agree unless it wrote the key itself |
| `Mvcc.CommitsExactly` | mini-dist-transaction/src/mvcc.c:186-236 | after every run that fits, a commit of an open transaction enters the history exactly when nobody committed one of its keys since it began, and then with exactly what it wrote; otherwise no version is installed |
| `Mvcc.EndingFrees` | mini-dist-transaction/src/mvcc.c:207-251 | a transaction that ends, either way, gives up one entry of the active list, its own |
| `Mvcc.SnapshotReadsExactly` | mini-dist-transaction/src/mvcc.c:86-128 | for every run: visible versions equal the history after each of its steps if and only if each write of each commit finds room in the tables or repeats the value of both newest versions of its key |
| `Mvcc.CommitReadsExactly` | mini-dist-transaction/src/mvcc.c:207-236 | one commit of any number of writes keeps visible versions equal to the history if and only if each of its writes lands in that sense |
| `Mvcc.CommitStableExactly` | mini-dist-transaction/src/mvcc.c:207-226 | one commit leaves every earlier snapshot alone if and only if each of its writes finds room, or its key had no version, or the two newest versions of the key agree |
| `Mvcc.FullTableReadsOldValue` | mini-dist-transaction/src/mvcc.c:115-128 | a concrete run of 1025 commits after which everybody still reads the old value of the key |
| `Mvcc.FullTableRestampsHead` | mini-dist-transaction/src/mvcc.c:207-226 | with a full version table, installing a write hides the newest version from every snapshot that saw it |
| `Mvcc.FullTableDropsWrite` | mini-dist-transaction/src/mvcc.c:104-128 | without room a key without versions stays unreadable at every timestamp |
| `Mvcc.InstallExactly` | mini-dist-transaction/src/mvcc.c:115-128 | after installing a write set, each written key shows the new value from the commit timestamp on and the old answers below it if and only if its write lands |
| `Mvcc.InstallSkips` | mini-dist-transaction/src/mvcc.c:115-128 | installing a write set changes nothing for the other keys, also where a chain is restamped |
| `Mvcc.CommitKeepsInv` | mini-dist-transaction/src/mvcc.c:207-236 | a commit keeps every chain strictly decreasing in commit timestamp and keeps visible versions equal to the history |
| `Mvcc.MvccStore.AllocateTs` | mini-dist-transaction/src/mvcc.c:64-66 | hands out the current timestamp and advances the oracle by one |
| `Mvcc.MvccStore.BeginTxn` | mini-dist-transaction/src/mvcc.c:68-75 | a fresh transaction with the next timestamp as its snapshot, added to the active list; refused when the list is full |
| `Mvcc.MvccStore.ChainHead` | mini-dist-transaction/src/mvcc.c:77-84 | the newest version of a key, if any |
| `Mvcc.MvccStore.VisibleVersion` | mini-dist-transaction/src/mvcc.c:86-96 | the walk from the chain head to the first committed version at or below the read timestamp |
| `Mvcc.MvccStore.FindOrCreateRecord` | mini-dist-transaction/src/mvcc.c:104-113 | finds the record of a key or appends an empty one; -1 and no change when the table is full |
| `Mvcc.MvccStore.AppendVersion` | mini-dist-transaction/src/mvcc.c:115-128 | the new version becomes the head and links to the old head; skipped when there is no room |
| `Mvcc.MvccStore.ReadSnapshot` | mini-dist-transaction/src/mvcc.c:130-152 | own buffered value first, else the visible version at the snapshot, with the key recorded while there is room; ReadsSnapshot and RepeatableRead say what that value is over runs |
| `Mvcc.MvccTransaction.BufferWrite` | mini-dist-transaction/src/mvcc.c:167-184 | replaces or appends the buffered value; refused when not active or full |
| `Mvcc.MvccStore.ValidateWriteSet` | mini-dist-transaction/src/mvcc.c:186-192 | true exactly when no written key has a head committed after the snapshot |
| `Mvcc.MvccStore.CommitTxn` | mini-dist-transaction/src/mvcc.c:207-236 | allocates a timestamp, validates, installs every write at it and leaves the active list; aborts otherwise |
| `Mvcc.MvccStore.AbortTxn` | mini-dist-transaction/src/mvcc.c:238-251 | marks the transaction aborted and removes its first entry from the active list |
| `Wal.RecoveryCorrect` | mini-dist-transaction/src/wal.c:142-233 | for a strict log with true old values and at most 64 transactions, redo-all then undo-losers ends in the replay of exactly the transactions that have a COMMIT or ABORT record |
| `Wal.RecoveryExact` | mini-dist-transaction/src/wal.c:174-214 | for any log with true old values and any loser set, recovery equals the replay without the losers if and only if for each key a loser wrote, nobody else wrote it after the first loser or the last to do so left the value that loser found |
| `Wal.RecoveryForAllValues` | mini-dist-transaction/src/wal.c:174-214 | recovery is right for all values that the shape of a log can carry if and only if, for each key, nobody else writes after the first loser, or that loser inserts the key and the last other write deletes it |
| `Wal.LosersLastIsSafe` | mini-dist-transaction/src/wal.c:174-214 | a log in which only losers write over losers is safe for all values |
| `Wal.DeletedInsertIsSafe` | mini-dist-transaction/src/wal.c:174-214 | that condition is not necessary: a loser’s insert deleted by another transaction recovers for all values |
| `Wal.OverwrittenLoserBreaksRecovery` | mini-dist-transaction/src/wal.c:174-214 | a concrete log that is not strict on which a committed overwrite is lost |
| `Wal.UndoRestores` | mini-dist-transaction/src/wal.c:193-214 | undoing puts each key back to its value before the first write of a loser and leaves all other keys |
| `Wal.LosersAreUnended` | mini-dist-transaction/src/wal.c:142-172 | with no more transactions than table entries the losers are exactly the transactions without COMMIT or ABORT |
| `Wal.StrictLosers` | mini-dist-transaction/src/wal.c:193-214 | in a strict log whatever is written over a loser is itself written by a loser |
| `Wal.WalManager.Append` | mini-dist-transaction/src/wal.c:72-93 | the record goes to the end with its timestamp, linked to the one before, under the next sequence number, or over the oldest slot once the log is full |
| `Wal.WalManager.WriteCheckpoint` | mini-dist-transaction/src/wal.c:114-123 | appends a checkpoint record that links to the last one and remembers its sequence number |
| `Wal.WalManager.Flush` | mini-dist-transaction/src/wal.c:95-102 | everything appended counts as flushed |
| `Wal.WalManager.RedoPass` | mini-dist-transaction/src/wal.c:174-191 | the store becomes the replay of the records from the start number on, wrapped or not, and their number is returned |
| `Wal.RedoneExactly` | mini-dist-transaction/src/wal.c:174-191 | the count returned is the number of data records from the start number on |
| `Wal.WalManager.UndoPass` | mini-dist-transaction/src/wal.c:193-214 | the store becomes the reverse-order undo of the losers’ records, and their number is returned |
| `Wal.UndoneExactly` | mini-dist-transaction/src/wal.c:193-214 | the count returned is the number of data records of the losers |
| `Wal.WalManager.AnalyzePass` | mini-dist-transaction/src/wal.c:142-172 | returns the tracked transactions that never ended, in order of first sight, and the lowest sequence number seen on one still open |
| `Wal.WalManager.ScanRecord` | mini-dist-transaction/src/wal.c:149-165 | one record’s effect on the table of transactions: first sight enters it, COMMIT or ABORT ends it; and whether its transaction is still open |
| `Wal.WalManager.Recover` | mini-dist-transaction/src/wal.c:216-233 | redo from the checkpoint, then undo of the losers, for any log; for one that has not wrapped, from the state of all records before the checkpoint, the store ends as RecoveryCorrect states; one ABORT record per loser is added and flushed |
| `ConflictGraph.DetectCycle` | mini-dist-transaction/src/isolation_levels.c:117-176 | true if and only if the conflict graph has a directed cycle; when false, the reverse finishing order is a serial order of the transactions that respects every edge |
| `ConflictGraph.SerialMeansAcyclic` | mini-dist-transaction/src/isolation_levels.c:75-92 | a graph with a serial order has no cycle |
| `ConflictGraph.Dfs` | mini-dist-transaction/src/isolation_levels.c:99-115 | true only on a cycle; otherwise the node and all it reaches finish, every arc of a finished node leads to an earlier finished one, and the stack flags are as before |
| `ConflictGraph.FillAdjacency` | mini-dist-transaction/src/isolation_levels.c:146-163 | every node’s slice of the adjacency array starts with exactly the listed targets of its edges, in edge order, and keeps slots that were never written if and only if one of its edges leads to a transaction that is not listed |
| `ConflictGraph.RoomMeaning` | mini-dist-transaction/src/isolation_levels.c:128-163 | the room counted for a node exceeds its targets if and only if one of its edges leads to a transaction that is not listed |
| `ConflictGraph.PrefixSums` | mini-dist-transaction/src/isolation_levels.c:144-145 | consecutive slices of the counted sizes |
| `ConflictGraph.CountDegrees` | mini-dist-transaction/src/isolation_levels.c:128-135 | the number of edges that leave each node |
| `ConflictGraph.FinishedSerial` | mini-dist-transaction/src/isolation_levels.c:99-115 | the reverse of a finishing order is a serial order |
| `ConflictGraph.BackArc` | mini-dist-transaction/src/isolation_levels.c:109-111 | an arc back to the stack closes a cycle |
| `ConflictGraph.CyclicMeansCycle` | mini-dist-transaction/src/isolation_levels.c:99-115 | a cycle of the packed graph is a cycle of conflicts |
| `DistLock.RedlockExclusion` | mini-dist-transaction/src/dist_lock.c:158-187 | after a successful acquire at t with lease L, every acquire by anybody before t + L fails, whatever others do in between, unless the owner releases, retries or shortens its lease |
| `DistLock.RunKeeps` | mini-dist-transaction/src/dist_lock.c:48-120 | whatever is done on any manager, the holder keeps every manager it holds until its lease ends |
| `DistLock.RetryLosesLock` | mini-dist-transaction/src/dist_lock.c:162-176 | a holder that retries is denied by its own locks and gives all of them back |
| `DistLock.AcquiredHolds` | mini-dist-transaction/src/dist_lock.c:162-176 | a successful acquire holds a majority of managers until the lease ends |
| `DistLock.HeldIsDenied` | mini-dist-transaction/src/dist_lock.c:54-63 | a manager denies a held lock to everybody and keeps it |
| `DistLock.GrantExactly` | mini-dist-transaction/src/dist_lock.c:48-72 | a lock is granted exactly when it is known or can be made and nobody holds it beyond now; the caller then holds it for the lease, and otherwise waits in line and no ownership changes |
| `DistLock.OwnerExactly` | mini-dist-transaction/src/dist_lock.c:74-107 | release, renewal and upgrade succeed exactly for the owner (upgrade also only without other waiters), with the lease each leaves and the first waiter leaving on release |
| `DistLock.ExpiryExactly` | mini-dist-transaction/src/dist_lock.c:109-120 | after expiries are handled a lock is owned exactly if it was and its lease still runs |
| `DistLock.WaiterServedExactly` | mini-dist-transaction/src/dist_lock.c:194-210 | a waiter is served exactly when there is one and the lock is free or new; then the first holds it for the default lease |
| `DistLock.RedlockExactly` | mini-dist-transaction/src/dist_lock.c:158-187 | Redlock succeeds exactly when a majority of at least the quorum has no lock in force; the caller then holds all of those, and otherwise owns the lock nowhere |
| `DistLock.ReleaseFrees` | mini-dist-transaction/src/dist_lock.c:178-187 | after the only owner releases, anybody can acquire |
| `DistLock.LapseFrees` | mini-dist-transaction/src/dist_lock.c:158-187 | once every lease has run out, anybody can acquire |
| `DistLock.LockManager.FindOrCreate` | mini-dist-transaction/src/dist_lock.c:35-46 | finds the lock of a resource or appends a free one; negative and no change when the table is full |
| `DistLock.LockManager.AcquireLock` | mini-dist-transaction/src/dist_lock.c:48-72 | a lock in force queues the caller, anything else is taken with a new version |
| `DistLock.LockManager.ReleaseLock` | mini-dist-transaction/src/dist_lock.c:74-93 | only the owner of an acquired lock frees it, and the first waiter leaves the queue |
| `DistLock.LockManager.RenewLease` | mini-dist-transaction/src/dist_lock.c:95-107 | only the owner of an acquired lock extends it from now on |
| `DistLock.LockManager.HandleExpiries` | mini-dist-transaction/src/dist_lock.c:109-120 | exactly the acquired locks whose lease has run out expire, and their number is returned |
| `DistLock.LockManager.ProcessWaitQueue` | mini-dist-transaction/src/dist_lock.c:194-210 | a free lock goes to the first waiter with the default lease |
| `DistLock.LockManager.TryUpgrade` | mini-dist-transaction/src/dist_lock.c:264-278 | only the owner, and only with no other waiter, restarts the lease with a new version |
| `DistLock.RedlockAcquire` | mini-dist-transaction/src/dist_lock.c:162-176 | true exactly when a majority of at least the quorum grants; otherwise the locks taken are released |
| `DistLock.RedlockRelease` | mini-dist-transaction/src/dist_lock.c:178-187 | releases at every manager, true exactly when some manager released |
| `Quorum.Intersection` | mini-dist-protocol/src/consensus_theorems.c:231-236 | two majorities of n nodes share at least 2q - n nodes, hence one |
| `Paxos.Agreement` | mini-dist-protocol/src/paxos.c:32-96 | over every interleaving of attempts, a value accepted by a majority at any moment is the value accepted by any majority at any later moment |
| `Paxos.ChosenBinds` | mini-dist-protocol/src/paxos.c:32-85 | once an attempt is chosen, every attempt of a higher number that reaches a promise quorum carries its value |
| `Paxos.UnpromisedAcceptBreaksAgreement` | mini-dist-protocol/src/paxos.c:87-96 | a concrete run in which Accept reaches an acceptor that never promised and two values are chosen |
| `Paxos.LevelOutcome` | mini-dist-protocol/src/paxos.c:32-59 | acceptors that stand at one number all promise, exactly when the new number is above it, or none does and nothing changes |
| `Paxos.AcceptOutcome` | mini-dist-protocol/src/paxos.c:76-85 | acceptors that promised the number all accept it with the value |
| `Paxos.HighestCarries` | mini-dist-protocol/src/paxos.c:32-59 | the value taken over is that of an acceptor with the highest accepted number, or the proposer’s own where nothing was accepted |
| `Paxos.PaxosCluster.Promise` | mini-dist-protocol/src/paxos.c:61-74 | strictly higher numbers are promised and the previous acceptance is reported; others change nothing |
| `Paxos.PaxosCluster.Accepted` | mini-dist-protocol/src/paxos.c:87-96 | numbers not below the promise are accepted, and the promise stays |
| `Paxos.PaxosCluster.PreparePhase` | mini-dist-protocol/src/paxos.c:32-59 | sends the prepare to every acceptor, counts the promises and takes over the value of the highest number reported |
| `Paxos.PaxosCluster.AcceptPhase` | mini-dist-protocol/src/paxos.c:76-85 | sends the accept to every acceptor and succeeds exactly with a majority of acceptances |
| `Paxos.PrepareRun` | mini-dist-protocol/src/paxos.c:32-59 | the prepare phase is a run of Prepare steps |
| `Paxos.AcceptRun` | mini-dist-protocol/src/paxos.c:76-85 | the accept phase is a run of Accept steps when every acceptor promised |
| `Paxos.PaxosCluster.RunInstance` | mini-dist-protocol/src/paxos.c:103-140 | a call succeeds if and only if every promise was below its number; then every acceptor accepts and every learner learns one value, the call’s own if nothing was accepted before, the highest accepted one otherwise, and it is the one chosen before if there was one; a failed call changes no acceptor and no learner; nothing chosen is ever lost |
| `RaftElection.ElectionSafety` | mini-dist-system-theory/src/raft.c:84-134 | in every reachable state, whatever is lost, delayed or reordered and whatever the driver calls, no two nodes have ever been leader in the same term |
| `RaftElection.TimeoutElects` | mini-dist-system-theory/src/raft.c:84-251 | in a fresh cluster of any size up to what the queue holds, a run of one timeout and the delivery of all requests and their replies ends with that node leader of term 1 and hinted |
| `RaftElection.CandidatesAreShort` | mini-dist-system-theory/src/raft.c:238-251 | in every reachable state a candidate has counted no more than half of the nodes |
| `RaftElection.ReplyElects` | mini-dist-system-theory/src/raft.c:238-251 | a granted reply of the current candidacy is counted, and makes the node leader and hint exactly when twice the votes exceed the number of nodes |
| `RaftElection.WinnerAnnounces` | mini-dist-system-theory/src/raft.c:124-134 | the vote that makes a leader sends each other node a request of its term |
| `RaftElection.LogsAreTheCommands` | mini-dist-system-theory/src/raft.c:322-348 | over every run, each log holds exactly the commands submitted while its node was the hint, in their order, up to the capacity |
| `RaftElection.CommitRoundExactly` | mini-dist-system-theory/src/raft.c:335-340 | a commit round moves the hinted leader’s commit index to the last entry of its term that a strict majority is known to hold, never back, and nothing else |
| `RaftElection.ReplyCommits` | mini-dist-system-theory/src/raft.c:294-309 | so does a successful reply, with the match index it reports |
| `RaftElection.AdvancedExactly` | mini-dist-system-theory/src/raft.c:36-53 | the commit index found is the largest one of the leader’s term held by a strict majority, or the old one when there is none beyond it |
| `RaftElection.RequestFollowed` | mini-dist-system-theory/src/raft.c:252-293 | a request of the node’s term or a later one makes it follow, unless it leads that term, and moves its commit index by the stated rule; a stale one changes nothing |
| `RaftElection.RequestAnswered` | mini-dist-system-theory/src/raft.c:252-309 | a request and its answer: the leader learns that the node holds the previous entry exactly when it does, and steps back one otherwise |
| `RaftElection.HeartbeatRoundReaches` | mini-dist-system-theory/src/raft.c:310-321 | a round of heartbeats adds one request per other node with the hinted leader’s position for it |
| `RaftElection.CommitsStay` | mini-dist-system-theory/src/raft.c:36-53 | over every run, commit indices stay within the logs and never go back |
| `RaftElection.ExecKeepsInv` | mini-dist-system-theory/src/raft.c:190-334 | every step keeps the invariant: votes of a term are fixed, and the counter of a candidate counts distinct voters whose vote is for it |
| `RaftElection.CountKeepsInv` | mini-dist-system-theory/src/raft.c:238-251 | a granted reply adds a voter that was not counted before |
| `RaftElection.RequestVoteKeepsInv` | mini-dist-system-theory/src/raft.c:212-237 | a vote is given at most once per term |
| `RaftElection.TimeoutKeepsInv` | mini-dist-system-theory/src/raft.c:100-116 | a new candidacy votes for itself in a fresh term |
| `RaftElection.RaftCluster.BecomeFollower` | mini-dist-system-theory/src/raft.c:117-123 | the term is taken over and the vote cleared |
| `RaftElection.RaftCluster.BecomeLeaderNow` | mini-dist-system-theory/src/raft.c:124-134 | the node leads and is the hint, its next indices are at the end of its log and its match indices at -1, and heartbeats go to all others as the queue has room |
| `RaftElection.RaftCluster.RequestVotes` | mini-dist-system-theory/src/raft.c:100-116 | one request to each other node, as the queue has room |
| `RaftElection.RaftCluster.Campaign` | mini-dist-system-theory/src/raft.c:100-116 | a candidacy in the next term, and leadership at once in a cluster of one |
| `RaftElection.RaftCluster.TickAll` | mini-dist-system-theory/src/raft.c:84-96 | the nodes whose timer fires start elections in order, leaders do not |
| `RaftElection.RaftCluster.OnRequestVote` | mini-dist-system-theory/src/raft.c:212-237 | stale requests are refused, newer terms adopted, and the vote granted once per term to an up-to-date candidate |
| `RaftElection.RaftCluster.OnVoteReply` | mini-dist-system-theory/src/raft.c:238-251 | granted replies of the current candidacy are counted, and a majority of them makes the leader; newer terms end the candidacy |
| `RaftElection.RaftCluster.OnAppendEntries` | mini-dist-system-theory/src/raft.c:252-293 | stale terms are refused, newer ones adopted, the sender becomes the hint, and where the log holds its previous entry the commit index follows the leader’s up to the end of the log; the reply says which |
| `RaftElection.RaftCluster.OnAppendReply` | mini-dist-system-theory/src/raft.c:294-309 | newer terms end leadership; a leader records the match and next index and advances its commit index, or backs off |
| `RaftElection.RaftCluster.AdvanceCommitOf` | mini-dist-system-theory/src/raft.c:36-54 | the commit index becomes the last entry of the leader’s term that a majority holds, if it is further on |
| `RaftElection.RaftCluster.LeaderCommitEntries` | mini-dist-system-theory/src/raft.c:335-340 | the hinted leader advances its commit index; refused without a hint |
| `RaftElection.RaftCluster.LeaderSendHeartbeats` | mini-dist-system-theory/src/raft.c:310-321 | one request with the leader’s position for the node from the hinted leader to each other node; nothing without a hint |
| `RaftElection.RaftCluster.SubmitCommand` | mini-dist-system-theory/src/raft.c:322-348 | the hinted leader’s log grows by one entry of its term, whose index is returned and recorded as its own match; refused without a hint |
| `RaftElection.RaftCluster.ProcessMessage` | mini-dist-system-theory/src/raft.c:190-211 | each kind of message goes to its handler |
| `MessageQueue.Queue.Enqueue` | mini-dist-system-theory/src/raft.c:15-21 | a message goes to the end, or is lost when only the spare slot is left |
| `MessageQueue.Queue.Dequeue` | mini-dist-system-theory/src/raft.c:22-28 | the oldest message leaves the queue |
| `RaftLog.LogMatching` | mini-dist-protocol/src/raft.c:99-144 | in every run in which no term has two leaders, two logs with the same term at an index are identical up to it |
| `RaftLog.AppendAgrees` | mini-dist-protocol/src/raft.c:233-265 | after a successful append the follower equals the leader on the first match-index entries |
| `RaftLog.HandleExactly` | mini-dist-protocol/src/raft.c:107-156 | a request is accepted exactly when its term is not stale and the log holds its previous entry; an accepted one leaves the commit index at the larger of the old one and the smaller of the leader’s and the last new index |
| `RaftLog.SendToCommits` | mini-dist-protocol/src/raft.c:233-265 | over every run, after a successful append the follower has committed at least what it shares with the leader’s commit |
| `RaftLog.CommitExactly` | mini-dist-protocol/src/raft.c:267-281 | the leader’s commit is the largest entry of its own term that a strict majority holds, or what it was |
| `RaftProgress.FreshClusterCommits` | mini-dist-protocol/src/raft.c:58-354 | for every cluster size and node there is a run from the fresh cluster after which the node leads term 1 and every node has stored and committed the command it took |
| `RaftProgress.EverybodyCommits` | mini-dist-protocol/src/raft.c:212-281 | in every fair run, a leader whom everybody can follow and whose log ends in its term has, after enough rounds, its whole log committed at every node |
| `RaftProgress.LogsAreRepaired` | mini-dist-protocol/src/raft.c:233-265 | in every fair run, after enough rounds an active follower of no later term holds the whole log of an active leader, whatever both logs were, and the leader knows |
| `RaftProgress.RoundAdvances` | mini-dist-protocol/src/raft.c:233-265 | each round brings the leader’s next index nearer: back over entries that differ, then forward to the end |
| `RaftProgress.PollExactly` | mini-dist-protocol/src/raft.c:193-210 | a poll adds one vote for each active node that is not beyond the term, is free to vote and is no more up to date, and makes the leader exactly with a strict majority |
| `RaftProgress.TicksElect` | mini-dist-protocol/src/raft.c:282-316 | in a fresh cluster whose other timers stay quiet a node leads after two ticks |
| `RaftProgress.TickReplicates` | mini-dist-protocol/src/raft.c:282-316 | a tick in which only the leader’s timer fires is one round of replication |
| `RaftVotes.OneLeaderPerTerm` | mini-dist-protocol/src/raft.c:58-87 | in every run in which no poll meets an active node of its term that already shows a vote for the candidate or has forgotten a vote of that term, no term has two leaders |
| `RaftVotes.FairLogMatching` | mini-dist-protocol/src/raft.c:99-210 | log matching over those runs, with nothing assumed about leaders |
| `RaftVotes.PollKeepsInv` | mini-dist-protocol/src/raft.c:158-210 | a fair poll, the first of its term or not, keeps one vote per voter and term and no more counted votes than were given |
| `RaftVotes.ForgottenVoteElectsTwo` | mini-dist-protocol/src/raft.c:78-87 | a concrete run of three nodes: a new leader has cleared its own vote, grants it again and the term has two leaders |
| `RaftVotes.RepeatedPollElectsTwo` | mini-dist-protocol/src/raft.c:193-210 | a concrete run of four nodes: two candidates each count one voter twice and the term has two leaders |
| `RaftVotes.TwoLeadersBreakMatching` | mini-dist-protocol/src/raft.c:329-354 | every run that ends with two leaders of one term and logs of one length extends to a run after which the logs hold the same term at an index and differ |
| `RaftVotes.ForgottenVoteBreaksMatching` | mini-dist-protocol/src/raft.c:78-87 | the run of ForgottenVoteElectsTwo, extended, breaks log matching |
| `RaftCommit.StateMachineSafety` | mini-dist-protocol/src/raft.c:107-281 | in every fair run, what any two nodes have committed at any two moments agrees as far as both reach, and nobody commits beyond its log |
| `RaftCommit.LeaderCompleteness` | mini-dist-protocol/src/raft.c:158-281 | in every fair run, what a node has committed at any moment is in the log of every leader of its term or a later one from then on |
| `RaftCommit.CommittedForever` | mini-dist-protocol/src/raft.c:107-156 | in every fair run, commit indices never go back and a committed entry of a node never changes |
| `RaftCommit.ChosenInherited` | mini-dist-protocol/src/raft.c:158-191 | an entry that a majority acknowledged in its leader’s own term is in the log of every later leader |
| `RaftCommit.UpToDateHolds` | mini-dist-protocol/src/raft.c:158-191 | a candidate as up to date as its voter holds the entries the voter holds of a term, or a leader in between overruled them |
| `RaftCommit.PolledBacker` | mini-dist-protocol/src/raft.c:158-210 | a candidate of a term without a leader holds what all its backers, of this poll and earlier ones, acknowledged before that term, unless a leader in between overruled it |
| `RaftCommit.MatchedIsChosen` | mini-dist-protocol/src/raft.c:267-281 | what the commit test accepts was acknowledged by a majority |
| `RaftCommit.ReceivedKeepsSafe` | mini-dist-protocol/src/raft.c:107-156 | handling a leader’s request keeps committed and acknowledged entries unless a later leader overruled them |
| `RaftCommit.NextKeepsSafe` | mini-dist-protocol/src/raft.c:58-354 | every step of a fair run extends the history of leaders’ logs, acknowledgements and voters and keeps it consistent |
| `RaftCommit.ForgottenVoteCommitsTwo` | mini-dist-protocol/src/raft.c:78-87 | a concrete run of three nodes, not fair, after which two nodes have committed different first entries |
| `RaftLog.StoreAllEffect` | mini-dist-protocol/src/raft.c:128-144 | storing a leader’s batch leaves the log as it was or makes it a prefix of the leader’s, and the batch is in it |
| `RaftLog.ExecKeepsInv` | mini-dist-protocol/src/raft.c:58-354 | every step, votes and commits included, keeps the log-matching invariant while no term has two leaders |
| `RaftLog.RaftGroup.BecomeFollower` | mini-dist-protocol/src/raft.c:58-67 | any higher term is taken over, and the vote and the vote count are cleared |
| `RaftLog.RaftGroup.BecomeCandidate` | mini-dist-protocol/src/raft.c:69-76 | a candidacy in the next term with the node’s own vote |
| `RaftLog.RaftGroup.BecomeLeader` | mini-dist-protocol/src/raft.c:78-87 | next indices after the log, match indices zero, vote and vote count cleared |
| `RaftLog.RaftGroup.HandleRequestVote` | mini-dist-protocol/src/raft.c:158-191 | stale terms are refused, newer ones adopted, and the vote goes to an up-to-date candidate if it is free or already its own |
| `RaftLog.RaftGroup.SendRequestVote` | mini-dist-protocol/src/raft.c:193-210 | each other active node is asked in order, and each grant adds one to the count |
| `RaftLog.RaftGroup.Tick` | mini-dist-protocol/src/raft.c:282-316 | each active node in order takes the step of its role: campaign, poll and perhaps lead, or replicate |
| `RaftLog.RaftGroup.HandleAppendEntries` | mini-dist-protocol/src/raft.c:107-156 | stale terms and mismatched logs are refused, otherwise the entries are stored and the commit index becomes the larger of the old one and the smaller of the leader’s commit and the last new index; the reply carries the old term and the node |
| `RaftLog.RaftGroup.StoreEntries` | mini-dist-protocol/src/raft.c:128-144 | entries of the same term are kept, a conflict truncates, the end extends |
| `RaftLog.RaftGroup.SendHeartbeats` | mini-dist-protocol/src/raft.c:212-231 | an empty request to each other active node |
| `RaftLog.RaftGroup.SendAppendEntries` | mini-dist-protocol/src/raft.c:233-281 | the missing entries to each other active node, with next index advanced or backed off, then the commit advance |
| `RaftLog.RaftGroup.FindCommit` | mini-dist-protocol/src/raft.c:267-281 | the largest entry of the leader’s own term held by a majority, or the old commit index; nothing beyond it can be committed |
| `RaftLog.RaftGroup.SubmitCommand` | mini-dist-protocol/src/raft.c:329-344 | only a leader with room appends, and then replicates |
| `RaftLog.RaftGroup.ReconnectNode` | mini-dist-protocol/src/raft.c:350-354 | the node is active again, as a follower |
| `RingElection.RingElectionCorrect` | mini-dist-system-theory/src/leader_election.c:74-107 | in any run in which some election is started, each one by an active node or by one whose token a stronger or the best node catches, there is a best node, and delivering the remaining messages ends with every node following it |
| `RingElection.OneElectionExactly` | mini-dist-system-theory/src/leader_election.c:173-242 | one election started by any node, active or not, comes to an end if and only if some active node is at least as strong, and elects the best node if and only if the first such node on the way is stronger than the initiator or is the best |
| `RingElection.UncaughtNeverDrains` | mini-dist-system-theory/src/leader_election.c:173-206 | an initiator stronger than every active node starts an election that never ends |
| `RingElection.EqualCatcherWins` | mini-dist-system-theory/src/leader_election.c:187-228 | an active node of the initiator’s priority that catches the token is elected, whoever is the best |
| `RingElection.InactiveInitiatorNeverEnds` | mini-dist-system-theory/src/leader_election.c:173-206 | a concrete ring whose inactive node starts an election that never ends |
| `RingElection.InactiveInitiatorElectsWrongly` | mini-dist-system-theory/src/leader_election.c:173-228 | a concrete ring whose inactive node starts an election that the wrong node wins |
| `RingElection.ActiveIsSound` | mini-dist-system-theory/src/leader_election.c:173-186 | every active node may start: its token is caught by a stronger node or by the best |
| `RingElection.NoOtherLeader` | mini-dist-system-theory/src/leader_election.c:173-242 | at no point of such a run does a node other than the best become leader |
| `RingElection.DeliverKeeps` | mini-dist-system-theory/src/leader_election.c:187-242 | each delivery keeps the invariant and lowers the sum of ranks of the messages in flight |
| `RingElection.OrphanRunsForever` | mini-dist-system-theory/src/leader_election.c:187-206 | a token stronger than every active node is still in flight after any number of deliveries |
| `RingElection.RingNetwork.NextRingNode` | mini-dist-system-theory/src/leader_election.c:20-29 | the successor on the ring, or -1 for no node |
| `RingElection.RingNetwork.StartElection` | mini-dist-system-theory/src/leader_election.c:173-186 | a token with the node’s own priority goes to its successor; off the ring only the election flag is set |
| `RingElection.RingNetwork.HandleElection` | mini-dist-system-theory/src/leader_election.c:187-228 | inactive and weaker nodes forward, stronger ones replace, an equal priority declares the node leader |
| `RingElection.RingNetwork.HandleCoordinator` | mini-dist-system-theory/src/leader_election.c:229-242 | every other node records the leader and forwards |
| `RingElection.RingNetwork.ProcessMessages` | mini-dist-system-theory/src/leader_election.c:74-107 | the loop terminates with an empty queue and, once an election has started, with everybody following the best node |
| `VectorClocks.CompareDecidesCausality` | mini-dist-system-theory/src/time_ordering.c:57-75 | for every run and any two events, BEFORE if and only if the first happens before the second, AFTER the converse, EQUAL if and only if they are one event, CONCURRENT if and only if neither precedes |
| `VectorClocks.CounterMeaning` | mini-dist-system-theory/src/time_ordering.c:37-55 | the counter of a process in a stamp tells exactly which of its events precede: the first ones up to that number |
| `VectorClocks.CountersBounded` | mini-dist-system-theory/src/time_ordering.c:37-55 | no counter runs ahead of its process, and the own counter is the event’s number |
| `VectorClocks.VectorClock.constructor` | mini-dist-system-theory/src/time_ordering.c:28-35 | all counters zero |
| `VectorClocks.VectorClock.Increment` | mini-dist-system-theory/src/time_ordering.c:37-42 | the own counter grows by one; an identifier out of range changes nothing |
| `VectorClocks.VectorClock.Merge` | mini-dist-system-theory/src/time_ordering.c:44-55 | the pointwise maximum over the larger node count |
| `VectorClocks.VectorClock.CompareTo` | mini-dist-system-theory/src/time_ordering.c:57-75 | the order of the two clocks, counters past the end counting as zero |
| `WeightedRoundRobin.CycleFairness` | mini-gateway-proxy/src/lean_formal.c:70-87 | after every whole number m of cycles each healthy server was chosen exactly m times its weight, and the balancer is back where it started |
| `WeightedRoundRobin.NeverAhead` | mini-gateway-proxy/src/load_balancer.c:133-156 | after any t selections W * count < t * weight + W, current weight = t * weight - W * count, and current weights sum to zero |
| `WeightedRoundRobin.ChosenIsPositive` | mini-gateway-proxy/src/load_balancer.c:139-151 | in a balanced state the chosen server stands above zero |
| `WeightedRoundRobin.Highest` | mini-gateway-proxy/src/load_balancer.c:139-151 | the first healthy server of highest current weight, or -1 when none is healthy |
| `LoadBalancer.Balancer.SelectWeighted` | mini-gateway-proxy/src/load_balancer.c:133-156 | one step of the selection function, returning the chosen index |
| `LoadBalancer.Balancer.RaiseAndPick` | mini-gateway-proxy/src/load_balancer.c:139-151 | all healthy servers raised, the total, and the first of the highest |
| `ConsistentHash.AddMovesOnlyToIt` | mini-gateway-proxy/src/load_balancer.c:76-97 | adding a server moves keys only to it, for any hash function, ties included |
| `ConsistentHash.RemoveMovesOnlyItsKeys` | mini-gateway-proxy/src/load_balancer.c:44-63 | removing a server moves only the keys it owned, up to the shift of indices |
| `ConsistentHash.RebuildDrops` | mini-gateway-proxy/src/load_balancer.c:76-97 | the ring rebuilt without a server is the old ring without its points, in the same order |
| `ConsistentHash.BuildSorted` | mini-gateway-proxy/src/load_balancer.c:76-97 | the ring is sorted by hash |
| `ConsistentHash.RingIsComplete` | mini-gateway-proxy/src/load_balancer.c:76-97 | the ring holds every point of every server, as often as it occurs, and no others |
| `LoadBalancer.Balancer.SearchRing` | mini-gateway-proxy/src/load_balancer.c:173-194 | the binary search returns the owner by the linear rule: first point at or after the hash, else the first |
| `ConsistentHash.OwnerIsNearest` | mini-gateway-proxy/src/load_balancer.c:173-194 | the owner has the nearest point at or after the hash, or the lowest of all where there is none; the first of equal ones |
| `LoadBalancer.Balancer.SelectConsistentHash` | mini-gateway-proxy/src/load_balancer.c:173-194 | the owner of the key’s hash is one of the servers; with an empty ring, round robin |
| `LoadBalancer.Balancer.SelectRoundRobin` | mini-gateway-proxy/src/load_balancer.c:123-131 | the first healthy server from the running index on, or -1, and the index moves past the servers tried |
| `LoadBalancer.RoundRobinExactly` | mini-gateway-proxy/src/load_balancer.c:123-131 | the selection skips exactly the unhealthy servers from the index on and goes on after the one it found |
| `LoadBalancer.RoundRobinFinds` | mini-gateway-proxy/src/load_balancer.c:123-131 | one round fails exactly when every server is unhealthy |
| `LoadBalancer.Balancer.BuildRing` | mini-gateway-proxy/src/load_balancer.c:76-97 | the ring of all servers’ points |
| `LoadBalancer.Balancer.InsertPoint` | mini-gateway-proxy/src/load_balancer.c:88-95 | a point goes before the points of equal or higher hash |
| `LoadBalancer.Balancer.AddServer` | mini-gateway-proxy/src/load_balancer.c:20-42 | the server is appended with a positive weight and the ring rebuilt; refused when the table is full |
| `LoadBalancer.Balancer.RemoveServer` | mini-gateway-proxy/src/load_balancer.c:44-63 | the first server with the address is taken out and the ring rebuilt; -1 when there is none |
| `SlidingWindow.BoundExactly` | mini-gateway-proxy/src/rate_limiter.c:109-127 | for every limit, the bound of WindowBound holds on every run if and only if the clock starts at or above the window size or the limit admits nothing |
| `SlidingWindow.WindowBound` | mini-gateway-proxy/src/rate_limiter.c:109-127 | any limit + 1 consecutive admissions span strictly more than the window, also for limits above the 1024 slots of the buffer |
| `SlidingWindow.ExactWithinBuffer` | mini-gateway-proxy/src/rate_limiter.c:109-127 | on every run, requests are admitted exactly when fewer than the limit were admitted in the window, if and only if the limit is no more than the 1024 slots |
| `SlidingWindow.AdmitsExactly` | mini-gateway-proxy/src/rate_limiter.c:109-127 | the exact rule for limits within the buffer, in terms of earlier admissions only |
| `SlidingWindow.JammedRefuses` | mini-gateway-proxy/src/rate_limiter.c:109-127 | for every larger limit a run after which a request is refused although fewer than the limit are in the window |
| `SlidingWindow.EarlyBurst` | mini-gateway-proxy/src/rate_limiter.c:110-118 | below the window size the wrapped window start lets every request through |
| `SlidingWindow.SlidingWindowLog.constructor` | mini-gateway-proxy/src/rate_limiter.c:61-69 | an empty log; a window of zero becomes one second |
| `SlidingWindow.SlidingWindowLog.EvictOld` | mini-gateway-proxy/src/rate_limiter.c:234-243 | the circular buffer loses exactly its leading timestamps before the window |
| `SlidingWindow.SlidingWindowLog.AllowRequest` | mini-gateway-proxy/src/rate_limiter.c:109-127 | admits exactly when fewer than the limit remain, and then remembers the time at the next slot of the ring |
| `Buckets.SameDecisions` | mini-gateway-proxy/src/rate_limiter.c:82-94 | with equal rate and burst and the same clock both buckets decide alike on every arrival sequence |
| `Buckets.DualThroughout` | mini-gateway-proxy/src/rate_limiter.c:203-223 | the tokens left are the capacity less the water level throughout |
| `Buckets.AdmissionBound` | mini-gateway-proxy/src/rate_limiter.c:75-94 | between any two arrivals at most burst + rate * elapsed requests are admitted |
| `Buckets.LeakyAdmissionBound` | mini-gateway-proxy/src/rate_limiter.c:75-94 | the same bound for the leaky bucket |
| `Buckets.AdmittedExactly` | mini-gateway-proxy/src/rate_limiter.c:82-87 | an arrival is admitted exactly when, counted from every earlier arrival and from itself, the bound of burst and rate leaves room for one more |
| `Buckets.PouredExactly` | mini-gateway-proxy/src/rate_limiter.c:89-94 | the same exact rule for the leaky bucket |
| `Buckets.TokenBucket.constructor` | mini-gateway-proxy/src/rate_limiter.c:33-42 | a full bucket; a burst that is not positive falls back to the rate, then to ten |
| `Buckets.TokenBucket.RefillTokens` | mini-gateway-proxy/src/rate_limiter.c:203-213 | tokens grow with time up to the capacity |
| `Buckets.TokenBucket.Allow` | mini-gateway-proxy/src/rate_limiter.c:82-87 | refills, then takes a whole token if there is one |
| `Buckets.LeakyBucket.constructor` | mini-gateway-proxy/src/rate_limiter.c:44-50 | an empty bucket of the same capacity |
| `Buckets.LeakyBucket.DrainWater` | mini-gateway-proxy/src/rate_limiter.c:215-223 | water drains with time down to zero |
| `Buckets.LeakyBucket.Allow` | mini-gateway-proxy/src/rate_limiter.c:89-94 | drains, then adds a unit if it fits |
| `IpFragment.RoundTrip` | mini-network-base/src/ip_packet.c:244-268 | fragments in any order reassemble to the packet with flags cleared and length and checksum set, if and only if the payload is empty or fits the fragment table |
| `IpFragment.RoundTripIdentity` | mini-network-base/src/ip_packet.c:113-268 | a packet with correct length and checksum and no flags comes back unchanged |
| `IpFragment.ReassemblyOverruns` | mini-network-base/src/ip_packet.c:253-268 | with n the most leading fragments whose contents fit the buffer: the list is accepted if and only if n is all of them, and bytes are written past the buffer if and only if those contents leave less than 20 bytes |
| `IpFragment.RefusedAfterOverrun` | mini-network-base/src/ip_packet.c:256-258 | a concrete list that is refused after 20 bytes have been written past the buffer |
| `IpFragment.SplitTiles` | mini-network-base/src/ip_packet.c:136-161 | the fragments cover the payload in order at 8-byte offsets without gaps, and all of it exactly when the table holds them |
| `IpFragment.MoreFragments` | mini-network-base/src/ip_packet.c:147-157 | MF is clear on the last fragment and set on all others |
| `IpFragment.FragmentsFit` | mini-network-base/src/ip_packet.c:133-142 | every fragment fits the MTU if and only if the MTU is at least 28; below 20 the room for payload wraps around |
| `IpFragment.SplitRefused` | mini-network-base/src/ip_packet.c:133-135 | fragmentation is refused with -4 exactly for an MTU from 20 to 27 |
| `IpFragment.SortedUnique` | mini-network-base/src/ip_packet.c:186-193 | fragments with distinct offsets have one order by offset |
| `IpFragment.FragmentPacket` | mini-network-base/src/ip_packet.c:113-164 | the loop yields exactly the pieces that SplitTiles describes |
| `IpFragment.ReassemblePacket` | mini-network-base/src/ip_packet.c:244-268 | sorts by offset and joins the contents, refusing an empty list or a buffer that is too small; also how far into the buffer it writes |

## Left out

- Printing, name tables, allocation failure, null arguments, clocks, random timeouts and sockets: input/output, or parameters of the model.
- Occ.Serializable: over runs whose read sets and record table have room; `Occ.ForgottenReadBreaksSerializability` and `Occ.CommitWithoutRoom` show what is lost otherwise.
- Mvcc.SnapshotsAreStable: over the runs of `Mvcc.SnapshotReadsExactly`; `Mvcc.CommitStableExactly` is exact for one commit.
- Mvcc: garbage collection and the serializable-snapshot checks, which only count or read copies taken at begin.
- Wal.WalManager.WriteCheckpoint: requires a free slot, because on a full log the source writes past the end of its array.
- Wal.WalManager.Recover: states the theorem for a log that has not wrapped, since after wrapping array order is no longer log order; a second recovery over the same log, which replays losers that by then carry ABORT records, is not modelled.
- ConflictGraph.DetectCycle: requires that edges of listed transactions lead to listed transactions, because otherwise the source reads slots it never wrote; `ConflictGraph.FillAdjacency` says exactly which.
- DistLock: deadlock detection and contention statistics.
- Paxos: multi-Paxos reuses the acceptors of one decision for the next, so agreement is not what it offers.
- RaftElection.RaftCluster.OnAppendEntries: does not model the loop over received entries, because `raft_build_append_entries` always sends none.
- RaftElection.TimeoutElects: for clusters of up to 128 nodes, because the queue holds 127 messages and drops the requests beyond them; the source itself clamps a cluster to 7 nodes.
- RaftProgress.EverybodyCommits: for logs that end in the leader’s term, because the source commits nothing before the leader has an entry of its own.
- RaftVotes.OneLeaderPerTerm: the condition on polls is sufficient, and `RaftVotes.ForgottenVoteElectsTwo` and `RaftVotes.RepeatedPollElectsTwo` show that neither half can be dropped, but a poll outside it need not elect a second leader.
- RingElection: the bully and Raft-style modes of the same file, and changes of the active set during an election.
- VectorClocks: Lamport and hybrid clocks, which are easy.
- WeightedRoundRobin.CycleFairness: for a fixed healthy set from zero current weights; health changes in mid-cycle are not modelled. Least-connections and random selection are left out.
- ConsistentHash: the FNV-1a hash and the text of the point names are a parameter; the theorems hold for any hash function and any positive number of points per server.
- SlidingWindow: fixed windows and per-client limiters.
- IpFragment.FragmentPacket: headers with options are not modelled, because the source copies them into a 20-byte structure; nor are packets above 65535 bytes.
- IpFragment.ReassemblePacket: fragments whose length field is below 20 or exceeds their data are not modelled, because the source then reads outside the fragment; nor is the incremental reassembly, which reports completion without looking for holes. The checksum is a parameter, and the library sort is modelled by an insertion sort with the source's comparison.
- CRDTs, gossip, hinted handoff, 2PC/3PC/TCC/Saga, circuit breaker, connection pool, HTTP/2, gRPC, MQTT, WebSocket, TLS and the FLP, CAP, Byzantine and SWIM illustrations: comparatively easy, or without a law that holds as written.
