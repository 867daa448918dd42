# Cloud9: a verified model

Cloud9 replicates a key-value store with Raft, keeps each node's Raft state in a segmented write-ahead
log, and applies committed commands to a deterministic state machine with client sessions. This project
models those layers in Dafny and proves what they promise, each layer on its own and where they meet.
`dafny verify dfyconfig.toml` checks all of it.

## What is proved

**Clusters.** A cluster is a set of nodes, their disks, and a network that keeps every message ever sent,
so a message may arrive never, once or many times, in any order. A run is any sequence of timers,
deliveries, proposals, read requests, leadership transfers and restarts from disk. On every run with a
fixed voter set there is at most one leader per term, logs match, and disks are up to date. The proofs go
through a protocol relation (`Protocol`) with recorded history; node programs are shown to stay within it
(`Refinement`).

**Three properties that fail.** A successful append acknowledgement reports the follower's whole log, also
where the request did not check it, and a stale read request is answered under the responder's newer term.
`Counterexamples` constructs one concrete run of three nodes on which a committed entry is missing from a
later leader's log, and on which an echoed answer confirms a stale read. `Acknowledgement` says exactly, on
the state before a step, when an acknowledgement is truthful. On runs whose acknowledgements all are, leader
completeness, agreement on committed entries and of replicas, and freshness of confirmed read rounds hold;
freshness also holds on every run for rounds whose id and index no older request of the node carries. The
third failure needs no false acknowledgement: a read is released by its index being confirmed, not its own
round, so a second read at an unchanged commit index is ready at once, and `StaleRead` builds a run on which a
replaced leader serves one. `ReadReadiness` proves reads linearizable when the confirmed index was below the
commit index at the request.

**Nodes.** The step functions (`Follower`, `Candidates`, `Leader`, `Node`) are the specification; the class
in `Machine` is the node as it runs, with fields updated in place and loops, proved equal to them. The
persist flag is right on every step but one kind, at a snapshot boundary, which is given exactly. The commit loop
terminates, each pass is maximal, and it stops only with nothing left to commit. `Protocol` bounds what a node may
do; `Duties` and `Answers` say what it must do, for any configuration: whom it serves, when it votes, campaigns and
commits, and that collected votes, read answers and acknowledgements decide by the set of nodes that sent them. Snapshot installation keeps
what is committed, the compacted log stands for a plain sequence, and quorums overlap through membership changes.

**Storage.** Delta replay gives back the saved state exactly when the logs agree below the highest index at
which their terms do, which log matching guarantees on every run. The write-ahead log's records read back at
any cut of the last segment, and a crash during a save leaves exactly the old state or exactly the new one. Over
arbitrary bytes, a log that opens consists of checked records only.

**Key-value state.** Retries are invisible, an ETag seen twice means nothing happened in between, failed
commands change nothing, a key holds the body of the last put carried out on it as that put was answered, and the
applied state is the fold of the committed log.

## Files

| file | contents |
|---|---|
| `Types`, `Messages`, `Core` | identifiers, messages, effects, node state |
| `Membership`, `Log` | configurations and quorums; the compacted log |
| `Follower`, `Candidates`, `Leader`, `Node` | step functions of the roles and of the node |
| `Machine` | the node with fields and loops |
| `CommitLoop`, `ConfigChanges`, `PersistFlag`, `PreVote`, `Snapshot` | properties of single nodes |
| `Duties`, `Answers` | what a node must do at each event, and with the answers it collects |
| `Protocol`, `Safety`, `Completeness`, `Reads`, `Linearizable` | the protocol relation and its invariants |
| `Refinement`, `Cluster` | node programs as protocol steps; cluster runs and their theorems |
| `Acknowledgement`, `Scenario`, `Counterexamples` | when acknowledgements are truthful; single steps, and the failing run |
| `Store`, `DurableStore` | delta persistence; the store over the write-ahead log |
| `WalFormat`, `WalSegment`, `Wal`, `WalLog`, `WalStream` | record format, segments, recovery, appends, streaming |
| `WalSoundness` | opening arbitrary bytes |
| `Kv`, `KvContents`, `KvSessions`, `KvEtags`, `Applied` | the key-value state machine and its application |
| `EndToEnd` | what runs give the store below and the key-value state above |
| `ReadReadiness`, `StaleRead` | when a ready read is linearizable; the run on which one is not |

## Modelling choices

- Time is a parameter: each step is told whether the role's deadline has passed and whether a leader was heard
  recently, so every timing is covered. `ToFollower` stands for both of the source's follower transitions,
  which differ only in deadlines.
- Messages and effects are sets; the network reorders anyway. Hash maps are maps. Text is its UTF-8 bytes.
- Terms, log indices and ticks are unbounded. Client ids, generations, segment ids and byte lengths have the
  source's 64-bit and 32-bit limits, with their errors.
- CRC-32 is any function of bytes; the delta serialisation is any codec that decodes what it encoded.
- Proposing while the commit index exceeds the log, where the source asserts, is the error `CommitBeyondLog`.
- Cluster runs use a fixed voter set, no snapshots and no parallel disk writes, as the node configures Raft.
  Membership changes, snapshots and disk-write completions are covered by the single-node results.
- The failing runs are built with pre-vote and pipelining off and 8 entries per message. The node runs with both
  on and a limit of 1 (`cloud9-node/src/config.rs:38-44`, `consensus/cloud9-raft/src/raft/core.rs:94-106`); the
  theorems cover all these settings, the existence of failing runs is shown for the former only.
- A node's driver applies committed commands after every turn. Cluster states do not carry the applied index;
  `EndToEnd.ProgressAt` computes it from the run.
- The source describes read-index rounds as linearizable without condition; the model follows the code.

## Model

| member | source | states |
|---|---|---|
| `Cluster.ElectionSafety` | consensus/cloud9-raft/src/raft/candidate.rs:158-177 | On every run, with loss, duplication, reordering and restarts, two nodes that lead the same term, at whatever moments, are the same node. |
| `Cluster.LeaderAppendOnly` | consensus/cloud9-raft/src/raft/leader.rs:193-210 | A leader's log is a prefix of every later log of that term's leader. |
| `Cluster.LogMatching` | consensus/cloud9-raft/src/raft/follower.rs:155-219 | Any two logs, of any nodes at any two moments of a run, that have the same term at an index are identical up to it. |
| `Cluster.LogShape` | consensus/cloud9-raft/src/raft/follower.rs:179-196 | Every log is numbered from 1 without gaps; its terms start at 1, never fall and stay within the node's term. |
| `Cluster.DiskUpToDate` | cloud9-node/src/runtime.rs:233-249 | Between driver turns the disk holds exactly the node's term, vote and log. |
| `Cluster.LeaderCompleteness` | consensus/cloud9-raft/src/raft/leader.rs:412-438 | On runs on which every acknowledged append request reconciled its receiver's log with the leader's, a condition on the state before each step, the prefix any node has committed is a prefix of the log of every leader of a higher term from then on. |
| `Cluster.StateMachineSafety` | consensus/cloud9-raft/src/raft/follower.rs:199-201 | On truthful runs no two nodes ever commit different entries at one index, at whatever moments, and committed indices lie within the logs. |
| `Cluster.ReadFreshness` | consensus/cloud9-raft/src/raft/leader.rs:482-501 | On every run a confirmed read round is fresh: no higher term had been won when it was requested, provided no older request of the same node carries its id and index. |
| `Cluster.TruthfulReadFreshness` | consensus/cloud9-raft/src/raft/leader.rs:128-159 | On truthful runs every confirmed read round is fresh, without further condition. |
| `Cluster.LinearizableRead` | consensus/cloud9-raft/src/raft/leader.rs:128-159 | On truthful runs a read whose own round is confirmed was given an index that covers everything any node had committed when it was requested. |
| `Cluster.ActionRefines` | consensus/cloud9-raft/src/raft/mod.rs:390-405 | Every cluster action (timer, delivery, proposal, read, transfer, restart) is one step of the protocol relation, whatever the node's role. |
| `Cluster.StepKeepsClusterInv` | consensus/cloud9-raft/src/raft/mod.rs:276-283 | Every action keeps the cluster invariant: shapes, disks, votes, elections, messages in flight and read rounds. |
| `Cluster.NetFits` | consensus/cloud9-raft/src/raft/leader.rs:719-765 | Every message in flight is well-formed; an append request beyond the leader's log carries no entries. |
| `Counterexamples.LeaderCompletenessFails` | consensus/cloud9-raft/src/raft/follower.rs:203-218 | There is a run of three nodes on which a leader commits entries that a later leader's log lacks, because an acknowledgement reported an unverified suffix. |
| `Counterexamples.ReadFreshnessFails` | consensus/cloud9-raft/src/raft/follower.rs:320-339 | There is a run of three nodes on which a stale request, answered under the responder's newer term, confirms a read round requested after a higher term had been won. |
| `ReadReadiness.ReadyAtOnce` | consensus/cloud9-raft/src/raft/leader.rs:122-159 | A read is ready as soon as it is requested if and only if its index is applied, and was confirmed for an earlier read or needs no other node. |
| `ReadReadiness.ConfirmedOrWaiting` | consensus/cloud9-raft/src/raft/leader.rs:128-159 | Throughout the reign in which a read was requested, either its own round has been confirmed or the confirmed index has not moved since. |
| `ReadReadiness.ReignHolds` | consensus/cloud9-raft/src/raft/candidate.rs:158-177 | Whoever leads a term that was already won has led it in the state before: a reign, once over, does not resume. |
| `ReadReadiness.ReadyReadCovers` | consensus/cloud9-raft/src/raft/leader.rs:122-125 | On truthful runs, if the confirmed index was below the commit index when a read was requested, then once the read is ready in the same reign its index covers everything any node had committed at the request. |
| `ReadReadiness.ServedReadSeesCommitted` | consensus/cloud9-raft/src/raft/mod.rs:319-324 | The state such a read is answered from is the fold of a log that begins with everything any node had committed at the request. |
| `StaleRead.ReadyReadMayBeStale` | consensus/cloud9-raft/src/raft/leader.rs:122-125 | Without that condition readiness is not enough: there is a run of three nodes with only truthful acknowledgements on which a replaced leader's second read at an unchanged index is ready at once, below what another node has committed. |
| `Acknowledgement.AckTruthfulExactly` | consensus/cloud9-raft/src/raft/follower.rs:155-219 | The index an accepting follower reports lies within the log it shares with the leader if and only if its log was a prefix of the leader's or the entries reach past their first difference. |
| `Acknowledgement.TruthfulExactly` | consensus/cloud9-raft/src/raft/follower.rs:155-219 | For every acknowledging step of a run, from whatever the network holds, delayed probes included: the acknowledging log is a prefix of the term's leader log if and only if the same condition held before the step. |
| `Acknowledgement.AcksWhenAccepted` | consensus/cloud9-raft/src/raft/follower.rs:155-219 | A node acknowledges an append request exactly when it is a follower, the request is not of an older term, and the consistency check passes. |
| `Cluster.TruthfulIsGuarded` | consensus/cloud9-raft/src/raft/follower.rs:155-219 | For every action of a cluster: its acknowledgements are truthful if and only if the guard on the state before the action holds, so the condition of the run theorems can be checked beforehand. |
| `Acknowledgement.AcceptedLog` | consensus/cloud9-raft/src/raft/follower.rs:179-196 | After accepting a request cut from a leader's log, or a probe past its end, the follower keeps its log if it already held the prefix the entries end, and otherwise holds exactly that prefix. |
| `Safety.StepKeepsInv` | consensus/cloud9-raft/src/raft/candidate.rs:39-80 | Every protocol step keeps the invariant over votes, elections, term logs, roles and messages. |
| `Safety.ElectionFresh` | consensus/cloud9-raft/src/raft/candidate.rs:158-177 | A node that wins a term is the first to: its voters meet the voters of any earlier winner. |
| `Safety.StepOwnVote` | consensus/cloud9-raft/src/raft/core.rs:278-293 | Recorded votes are truthful, a node votes once per term, and only for a candidate whose log is at least as late. |
| `Safety.AcceptAdopts` | consensus/cloud9-raft/src/raft/follower.rs:166-196 | An accepted request leaves the old log or a prefix of the sending leader's log that the follower did not hold. |
| `Safety.ReignLog` | consensus/cloud9-raft/src/raft/leader.rs:193-196 | While a leader reigns its log grows only by its own entries. |
| `Completeness.TruthfulStepKeepsInv` | consensus/cloud9-raft/src/raft/leader.rs:412-438 | Truthful steps keep the invariants on acknowledgements, match counts and committed prefixes. |
| `Completeness.ChosenInLaterLeaders` | consensus/cloud9-raft/src/raft/core.rs:296-300 | Every later leader was elected with everything a quorum had acknowledged before, by induction on terms and the up-to-date rule. |
| `Completeness.HeldStep` | consensus/cloud9-raft/src/raft/follower.rs:179-196 | A log keeps an acknowledged prefix unless it adopts the log of a later leader that was elected without it. |
| `Completeness.NewVoteHolds` | consensus/cloud9-raft/src/raft/follower.rs:128-153 | A vote that can count is cast with a log that holds all its voter had acknowledged in earlier terms, unless a leader in between departed from it. |
| `Completeness.OwnChosen` | consensus/cloud9-raft/src/raft/leader.rs:582-601 | What a leader commits is of its own term and acknowledged by a quorum. |
| `Completeness.CommitFollows` | consensus/cloud9-raft/src/raft/follower.rs:199-201 | A follower's commit index stays within what its leader committed. |
| `Completeness.CommittedInLaterLeaders` | consensus/cloud9-raft/src/raft/leader.rs:582-601 | What a node has committed is in the log of every leader of a later term, then and in every later state. |
| `Completeness.CommittedAgree` | consensus/cloud9-raft/src/raft/follower.rs:199-201 | Committed entries of two nodes agree, in one state or in two states of a run. |
| `Reads.ConfirmedReadFresh` | consensus/cloud9-raft/src/raft/leader.rs:482-501 | A step that confirms a read round, with no echo of an older one about, confirms a fresh one: acknowledging voters and any later winner's voters would have to meet. |
| `Linearizable.CoversOne` | consensus/cloud9-raft/src/raft/leader.rs:175-188 | A leader with a committed entry of its own term, in a state where no higher term has been won, has committed at least as far as every other node. |
| `Linearizable.StepCauses` | consensus/cloud9-raft/src/raft/follower.rs:199-201 | Truthful steps keep, for every commit index, a term that chose it and whose leader, while it leads, has committed as far. |
| `Reads.StepReads` | consensus/cloud9-raft/src/raft/follower.rs:221-241 | Every step keeps the facts about rounds, their requests and their responses. |
| `Reads.ReadIndicesGrow` | consensus/cloud9-raft/src/raft/leader.rs:175-188 | On truthful runs the read index of a later reign is strictly larger than that of every earlier reign's request. |
| `Refinement.TickRefines` | consensus/cloud9-raft/src/raft/follower.rs:114-126 | Every role's timer tick is a protocol step that keeps the node's shape. |
| `Refinement.ReceiveRefines` | consensus/cloud9-raft/src/raft/mod.rs:390-405 | Every role's handling of every message of the cluster is a protocol step that keeps the node's shape. |
| `Refinement.ProposeRefines` | consensus/cloud9-raft/src/raft/mod.rs:290-308 | A proposal appends one entry of the leader's term, may advance its commit index by the quorum rule, and sends slices of its log. |
| `Refinement.ReadIndexRefines` | consensus/cloud9-raft/src/raft/leader.rs:128-159 | A read request starts a round at the commit index, only once an entry of the leader's own term is committed. |
| `Refinement.RestoreRefines` | consensus/cloud9-raft/src/raft/mod.rs:192-198 | A restart keeps term, vote and log and forgets commit index and role. |
| `Refinement.AbsorbAdopts` | consensus/cloud9-raft/src/raft/follower.rs:179-196 | The append loop over entries cut from a leader's log adopts the leader's prefix, or changes nothing when the log already holds it. |
| `Refinement.OnePass` | consensus/cloud9-raft/src/raft/leader.rs:550-580 | Without configuration entries the commit loop makes one pass and commits by the quorum rule. |
| `Refinement.FreshLeader` | consensus/cloud9-raft/src/raft/leader.rs:68-102 | A new leader has counted only itself, has no pending read, and greets each peer with a slice of its log. |
| `Refinement.CampaignRefines` | consensus/cloud9-raft/src/raft/candidate.rs:39-80 | Campaigning takes a new term and the node's own vote, and asks with the node's own last index and term. |
| `PersistFlag.PersistFlagExact` | consensus/cloud9-raft/src/raft/mod.rs:390-457 | For every role, every event with consecutive entries and every chain of transitions on a contiguous log: the persist flag is set or term, vote and log are unchanged, if and only if the step is not a follower accepting, in its own term, a request whose last entry contradicts the snapshot of a log with a suffix. |
| `PersistFlag.PersistFlagSound` | consensus/cloud9-raft/src/raft/mod.rs:390-457 | Whatever entries a request carries, consecutive or not, the flag is set or nothing changed if none of them meets the snapshot boundary with another term. |
| `PersistFlag.LoopPersistExact` | consensus/cloud9-raft/src/raft/follower.rs:178-206 | For consecutive entries the append loop's persist flag tells the truth if and only if the last entry does not contradict the snapshot boundary of a log that has a suffix. |
| `PersistFlag.NoSnapshotNoBoundary` | consensus/cloud9-raft/src/raft/log.rs:109-118 | Without a snapshot no request can meet the boundary, so the flag is sound there for every request. |
| `PersistFlag.CommitLoopSaves` | consensus/cloud9-raft/src/raft/leader.rs:685-702 | The commit loop asks for a save whenever it appends a configuration. |
| `PersistFlag.OperationsSave` | consensus/cloud9-raft/src/raft/leader.rs:205-208 | Every accepted proposal asks for a save, and a read request leaves term, vote and log alone. |
| `PersistFlag.BoundaryLossUnsaved` | consensus/cloud9-raft/src/raft/follower.rs:180-196 | There is a node with a snapshot and a request on which a log suffix is lost without a save. |
| `CommitLoop.PassIsMaximal` | consensus/cloud9-raft/src/raft/leader.rs:582-601 | If any index above the commit index is of the current term and held by a majority (of both voter sets while joint), a pass commits the greatest such index. |
| `CommitLoop.PassMayStay` | consensus/cloud9-raft/src/raft/leader.rs:582-601 | If there is no such index, a pass changes nothing. |
| `CommitLoop.SearchMaximal` | consensus/cloud9-raft/src/raft/leader.rs:582-601 | The downward search returns the greatest committable index or the old commit index. |
| `CommitLoop.LoopExhausts` | consensus/cloud9-raft/src/raft/leader.rs:550-580 | The loop ends with nothing left to commit, unless it ends with the leader stepping down. |
| `CommitLoop.LoopIsMonotone` | consensus/cloud9-raft/src/raft/leader.rs:550-580 | The loop never moves the commit index back, only extends the log, and leaves term and vote. |
| `LeaderRole.CompletionShrinksJoint` | consensus/cloud9-raft/src/raft/leader.rs:606-630 | Completing a joint configuration leaves strictly fewer joint entries above the commit index, so the loop terminates. |
| `LeaderRole.CompleteNamesJoint` | consensus/cloud9-raft/src/raft/leader.rs:606-630 | A completion verdict names a joint entry the commit index has just passed. |
| `Machine.Machine.AppendEntries` | consensus/cloud9-raft/src/raft/follower.rs:178-196 | The loop over entries computes the specified log and persist flag. |
| `Machine.Machine.OnAppendRequest` | consensus/cloud9-raft/src/raft/follower.rs:155-219 | The in-place handler leaves the state and reply the step function gives, refusals included. |
| `Machine.Machine.StepAsFollower` | consensus/cloud9-raft/src/raft/follower.rs:54-112 | The follower's step, term adoption and persist flag included, is the step function. |
| `Machine.Machine.StepAsLeader` | consensus/cloud9-raft/src/raft/leader.rs:338-380 | The leader's step is the step function. |
| `Machine.Machine.OnAppendResponse` | consensus/cloud9-raft/src/raft/leader.rs:412-455 | Recording an acknowledgement, or retrying after a refusal, does what the step function says. |
| `Machine.Machine.CurrentTermCommitIndex` | consensus/cloud9-raft/src/raft/leader.rs:175-188 | The downward loop finds the highest committed index of the current term before any older term. |
| `Machine.Machine.AdvanceCommitIndex` | consensus/cloud9-raft/src/raft/leader.rs:582-601 | The downward loop moves the commit index to the specified target. |
| `Machine.Machine.CommittedConfigs` | consensus/cloud9-raft/src/raft/leader.rs:606-630 | The loop over newly committed entries returns the first removal or joint completion. |
| `Machine.Machine.TryCommit` | consensus/cloud9-raft/src/raft/leader.rs:550-580 | The commit loop, with appended configurations and merged effects, terminates with the specified result. |
| `Machine.Machine.TryAutoTransfer` | consensus/cloud9-raft/src/raft/leader.rs:637-682 | The scan over voters hands over to the first caught-up one, outgoing voters first. |
| `Machine.Machine.ScanVoters` | consensus/cloud9-raft/src/raft/leader.rs:650-668 | Visiting one voter set stops at its least caught-up member other than this node; with none, what it remembers is not caught up. |
| `Machine.Machine.BroadcastAppend` | consensus/cloud9-raft/src/raft/leader.rs:705-709 | Serving the peers one by one, in any order, gives the specified progress and messages. |
| `Machine.BroadcastAdds` | consensus/cloud9-raft/src/raft/leader.rs:719-765 | Serving one more peer reads and moves only that peer's progress. |
| `Machine.Machine.AppendTransitionTarget` | consensus/cloud9-raft/src/raft/leader.rs:685-702 | Completing a joint configuration appends its target, refreshes progress, broadcasts and asks for a save. |
| `Machine.Machine.SendAppend` | consensus/cloud9-raft/src/raft/leader.rs:719-765 | A peer is sent the end-inclusive slice from its next index, or a snapshot when that is compacted, and pipelining moves the index past what was sent. |
| `Machine.Machine.Reinit` | consensus/cloud9-raft/src/raft/leader.rs:280-293 | The loop over members adds progress for those not tracked and keeps the rest. |
| `Machine.Machine.Lead` | consensus/cloud9-raft/src/raft/leader.rs:68-102 | The loops that fill a new leader's progress give the specified start, and every peer is greeted. |
| `Machine.Machine.ProposeChange` | consensus/cloud9-raft/src/raft/leader.rs:219-277 | A membership change, its refusals and its commit are the change function. |
| `ConfigChanges.AcceptedChange` | consensus/cloud9-raft/src/raft/leader.rs:219-277 | An accepted change is the only one under way, promotes only a caught-up learner, is the next log entry at once, and leaves a sound configuration. |
| `ConfigChanges.AcceptedChangeOverlaps` | consensus/cloud9-raft/src/raft/leader.rs:219-277 | Any quorum before an accepted change meets any quorum of the configuration it appends. |
| `PreVote.PreVotePredictsVote` | consensus/cloud9-raft/src/raft/follower.rs:358-378 | For a term the follower has not reached, it grants a pre-vote exactly when it would grant the vote itself. |
| `PreVote.PreVoteIsHarmless` | consensus/cloud9-raft/src/raft/follower.rs:54-76 | A pre-vote request leaves every node as it was, except a pre-candidate that learns of a higher term. |
| `PreVote.PreElectionKeepsTerm` | consensus/cloud9-raft/src/raft/precandidate.rs:95-178 | A pre-candidate's term rises only to one it was told of, with its vote cleared and a save asked for. |
| `Machine.Machine.Become` | consensus/cloud9-raft/src/raft/mod.rs:407-457 | Applying a transition, immediate wins included, is the transition function. |
| `Machine.Machine.Step` | consensus/cloud9-raft/src/raft/mod.rs:390-405 | One event, with the transition it causes, is the step function. |
| `Machine.Machine.Propose` | consensus/cloud9-raft/src/raft/mod.rs:290-308 | A proposal, its refusals and a step-down after commit are the proposal function. |
| `Machine.Machine.RequestRead` | consensus/cloud9-raft/src/raft/leader.rs:128-159 | A read request and its refusals are the read function. |
| `RaftLog.CompactionInvisible` | consensus/cloud9-raft/src/raft/log.rs:153-171 | Compaction at i with the term at i leaves last index, last term, term_at, config_at, and above i get and slice, unchanged from i up. |
| `RaftLog.QueriesAgree` | consensus/cloud9-raft/src/raft/log.rs:109-129 | At or above the boundary every query of the compacted log answers as on the full sequence. |
| `RaftLog.SliceAgrees` | consensus/cloud9-raft/src/raft/log.rs:197-216 | An end-inclusive slice above the boundary is the slice of the full sequence, clamped to it. |
| `RaftLog.RepresentsScalars` | consensus/cloud9-raft/src/raft/log.rs:93-106 | Last index and last term are those of the full sequence. |
| `RaftLog.AppendRepresents` | consensus/cloud9-raft/src/raft/log.rs:132-135 | Appending appends to the full sequence. |
| `RaftLog.TruncateAfterRepresents` | consensus/cloud9-raft/src/raft/log.rs:141-150 | Truncating cuts the full sequence, never below the boundary. |
| `RaftLog.TruncatePrefixRepresents` | consensus/cloud9-raft/src/raft/log.rs:153-171 | Compaction changes the representation and nothing else. |
| `RaftLog.LogBuffer.Append` | consensus/cloud9-raft/src/raft/log.rs:132-135 | The in-place append extends the full sequence by the entry. |
| `RaftLog.LogBuffer.TruncateAfter` | consensus/cloud9-raft/src/raft/log.rs:141-150 | The in-place truncation cuts the full sequence. |
| `RaftLog.LogBuffer.TruncatePrefix` | consensus/cloud9-raft/src/raft/log.rs:153-171 | The in-place compaction keeps the full sequence and moves the boundary. |
| `RaftLog.LogBuffer.ConfigAt` | consensus/cloud9-raft/src/raft/log.rs:232-244 | The backward scan finds the latest configuration of the full sequence at or before the index. |
| `Snapshot.InstallKeepsOrder` | consensus/cloud9-raft/src/raft/follower.rs:253-318 | Handling any snapshot of a positive term keeps snapshot <= applied <= commit <= last index. |
| `Snapshot.InstallKeepsCommitted` | consensus/cloud9-raft/src/raft/follower.rs:253-318 | It keeps every entry above the new snapshot up to the old commit index. |
| `Snapshot.InstalledLog` | consensus/cloud9-raft/src/raft/log.rs:177-190 | Installation leaves an empty suffix at the snapshot, or the old suffix above it when the snapshot agrees. |
| `Snapshot.AgreeingInstallIsCompaction` | consensus/cloud9-raft/src/raft/log.rs:177-190 | Installing a snapshot the log agrees with keeps the full sequence. |
| `Snapshot.InstallIsMonotone` | consensus/cloud9-raft/src/raft/follower.rs:253-318 | Commit, applied and snapshot index never move back, and a save is asked for exactly when the snapshot advances. |
| `Membership.QuorumsOverlapAcrossChange` | consensus/cloud9-raft/src/raft/membership.rs:358-483 | For every validated change in either mode, any quorum before meets any quorum after. |
| `Membership.JointQuorumMeetsTarget` | consensus/cloud9-raft/src/raft/membership.rs:275-282 | A joint quorum meets every quorum of its transition target. |
| `Membership.ChangeKeepsSound` | consensus/cloud9-raft/src/raft/membership.rs:442-483 | Voter sets stay non-empty and simple configurations keep voters and learners disjoint. |
| `Membership.QuorumsOverlapThroughHistory` | consensus/cloud9-raft/src/raft/membership.rs:234-246 | Along every history of validated changes and completions all configurations are sound and neighbours' quorums meet. |
| `Membership.MajoritiesMeet` | consensus/cloud9-raft/src/raft/membership.rs:234-246 | Two majorities of one voter set share a member. |
| `Membership.NewMembers` | consensus/cloud9-raft/src/raft/membership.rs:305-327 | Building a member set reports the first learner that is also a voter, and otherwise holds exactly the given voters and learners. |
| `Store.ReplayIsExact` | cloud9-node/src/store.rs:84-96 | For any sequence of saves with non-decreasing terms and matching successive logs, replaying the deltas never fails and yields exactly the last saved state. |
| `Store.SaveReplaysExactly` | cloud9-node/src/store.rs:64-127 | One save replays to the saved state if and only if the term did not fall and the logs agree below the highest index at which their terms do. |
| `Store.SaveReplays` | cloud9-node/src/store.rs:64-127 | What replaying one save gives in every case: a term regression, or the durable prefix with the current suffix. |
| `Store.MatchingGivesPrefix` | cloud9-node/src/store.rs:98-105 | Log matching makes the term comparison find a prefix on which the logs are equal. |
| `Store.MismatchedSavesSplice` | cloud9-node/src/store.rs:98-105 | Without log matching there are two states whose save replays to a third. |
| `Store.FindCommonPrefix` | cloud9-node/src/store.rs:98-105 | The descending loop finds the highest common index above the boundary. |
| `Store.ApplyOne` | cloud9-node/src/store.rs:107-127 | Applying a delta truncates, appends while indices continue, and reports the first error. |
| `EndToEnd.EveryRunReplays` | cloud9-node/src/store.rs:64-127 | On every cluster run, replaying the deltas a node's driver recorded gives back exactly its term, vote and log. |
| `EndToEnd.SavesFormChain` | cloud9-node/src/runtime.rs:233-249 | Successive saves of a node on a run meet what the store needs: no falling term, and matching logs. |
| `DurableStore.SaveIsAtomic` | cloud9-node/src/store.rs:64-80 | If a crash keeps all synced bytes and any prefix of the bytes an accepted save was writing, opening the log succeeds, within its size limits, and replaying it gives exactly the previous state, or exactly the new one when every byte made it. |
| `DurableStore.LoggedRecovers` | cloud9-node/src/store.rs:64-96 | After any history of saves that found room, the log's segments fit and replaying it gives exactly the last saved state. |
| `EndToEnd.LogRecoversNode` | cloud9-node/src/runtime.rs:233-240 | On every run the log a node's driver has written, as long as its records found room, recovers exactly the node's term, vote and log. |
| `EndToEnd.CrashDuringSave` | cloud9-node/src/runtime.rs:233-240 | On every run, wherever a crash cuts the bytes the driver is saving after a step, opening the log and replaying it gives the node's state before the step, or after it if every byte made it. |
| `DurableStore.UntouchedReopens` | cloud9-wal/src/segment.rs:12-43 | A crash before the save writes anything reopens to the same files. |
| `DurableStore.RaftStore.Save` | cloud9-node/src/store.rs:64-80 | A save that succeeds makes the new state durable and replayable; one that is refused changes nothing. |
| `DurableStore.RecoverAll` | cloud9-node/src/store.rs:84-96 | Recovery over the record stream of any files is the fold of what the stream yields, up to the first log, kind, decoding or replay error. |
| `DurableStore.WholeLogRecovers` | cloud9-node/src/store.rs:84-96 | Over the files of a whole log that fold is the fold of the log's records. |
| `DurableStore.SavedRecovers` | cloud9-node/src/store.rs:84-96 | With the save's record at its end the log recovers to the saved state. |
| `Wal.TornTailRecovery` | cloud9-wal/src/segment.rs:12-43 | For any contents with any rotation and every byte cut of the last segment, recovery succeeds and leaves exactly the records wholly before the cut, in order, at their old positions. |
| `Wal.RecoverSegments` | cloud9-wal/src/segment.rs:12-43 | The recovery loop accepts clean segments, cuts a torn last one and rejects a torn or corrupt earlier one. |
| `Wal.AllAppend` | cloud9-wal/src/wal.rs:120-141 | An append adds exactly one record at the end of the stream. |
| `WalSegment.TornScan` | cloud9-wal/src/segment.rs:158-176 | Scanning a segment cut at any byte stops after exactly the records wholly before the cut and never reports corruption. |
| `WalSegment.TruncatedIsWhole` | cloud9-wal/src/segment.rs:198-206 | Cutting back to where the scan stopped leaves exactly those records' bytes. |
| `WalSegment.ValidLength` | cloud9-wal/src/segment.rs:158-176 | The scan loop computes the specified end and verdict. |
| `WalFormat.ReadBack` | cloud9-wal/src/format.rs:40-95 | A whole record reads back as written with the next offset; a cut one reads as end of file or as incomplete. |
| `WalFormat.HeaderDecodes` | cloud9-wal/src/format.rs:122-139 | An encoded header passes every check and decodes to its kind. |
| `WalFormat.HeaderFields` | cloud9-wal/src/format.rs:21-38 | Every header field reads back at its offset, and the checksum covers the first 28 bytes. |
| `WalFormat.NumberRoundTrip` | cloud9-wal/src/format.rs:147-157 | Little-endian numbers read back. |
| `WalFormat.EncodeRecord` | cloud9-wal/src/format.rs:21-38 | Filling the header buffer in place gives the specified bytes, or nothing for an oversized payload. |
| `WalFormat.ReadExactOrTail` | cloud9-wal/src/format.rs:108-120 | The fill loop, over short reads, tells a full buffer, a clean end and a cut apart. |
| `WalFormat.ReadRecord` | cloud9-wal/src/format.rs:40-95 | Reading through buffers computes the specified result, every corruption included. |
| `WalLog.SegmentedLog.Append` | cloud9-wal/src/wal.rs:119-141 | An append returns the position of its record, which is then the last of the stream; a refused one changes no byte and names the reason. |
| `WalLog.SegmentedLog.RotateIfNeeded` | cloud9-wal/src/wal.rs:163-190 | Rotation syncs, then starts an empty segment exactly when the active one is in use and too full, and reports what cannot fit. |
| `WalLog.SegmentedLog.Write` | cloud9-wal/src/wal.rs:129-136 | The record's bytes go to the end of the active segment. |
| `WalLog.PlacedAtEnd` | cloud9-wal/src/wal.rs:165-190 | Wherever the record is placed it is last in the stream, the segments stay within their size and the total grows by its length. |
| `WalLog.Open` | cloud9-wal/src/wal.rs:92-117 | Opening validates the sizes, recovers, and refuses a log over its maximum. |
| `WalStream.RecordStream.Next` | cloud9-wal/src/wal.rs:60-87 | Over any files the stream yields what reading segment after segment gives, ends after the first incomplete or corrupt record with its position and reason, and then yields nothing. |
| `WalStream.WholeStream` | cloud9-wal/src/wal.rs:60-87 | Over the files of a whole log it yields every record, in order, at the position its append returned. |
| `KvSessions.RetryIsInvisible` | cloud9-node/src/command.rs:369-416 | In any command log, inserting a retry of an answered mutation at any later position changes neither the final state nor any other result; the retry gets the original answer, rejections included, until the client records a higher sequence. |
| `KvSessions.RetryIsInert` | cloud9-node/src/command.rs:397-416 | In any state that remembers a mutation, applying it again changes nothing. |
| `KvSessions.AnsweredIsLatest` | cloud9-node/src/command.rs:213-222 | Every answered mutation, rejected or not, is recorded with its answer. |
| `KvEtags.NoEtagAba` | cloud9-node/src/command.rs:418-420 | On every run, if a key carries the same ETag at two points, its entry is the same at every point between and no put or delete took effect on it. |
| `KvEtags.OptimisticLocking` | cloud9-node/src/command.rs:352-367 | A put or delete conditional on an ETag read earlier takes effect only if nothing took effect on the key since the read. |
| `KvEtags.ConditionalPut` | cloud9-node/src/command.rs:352-367 | A new put takes effect exactly when its conditions hold of the key's current entry. |
| `KvEtags.ConditionalDelete` | cloud9-node/src/command.rs:145-194 | A new delete takes effect exactly when the key is there and its condition names its ETag. |
| `KvEtags.EtagInjective` | cloud9-node/src/command.rs:418-420 | Different generations have different ETags. |
| `KvEtags.EffectReplaces` | cloud9-node/src/command.rs:117-136 | A put or delete that takes effect on a key replaces its entry; every other command keeps it. |
| `Kv.ApplyKeepsInv` | cloud9-node/src/command.rs:59-90 | Every command keeps live generations distinct and below the next one, session ids below the next id, and each session cache whole and of one kind. |
| `Kv.ErrorsAreAtomic` | cloud9-node/src/command.rs:196-235 | On every run a command that fails leaves entries, generations and client ids unchanged, and the incomplete, inconsistent and mismatch faults never show. |
| `Kv.KvState.Execute` | cloud9-node/src/command.rs:59-90 | The in-place machine computes the specified state and result. |
| `Kv.KvState.ApplyPut` | cloud9-node/src/command.rs:92-142 | A put validates, answers from the session, checks preconditions, takes a generation and records, in that order. |
| `Kv.KvState.ApplyDelete` | cloud9-node/src/command.rs:145-194 | A delete validates, answers from the session, checks the ETag, removes and records. |
| `Kv.KvState.CachedMutation` | cloud9-node/src/command.rs:369-416 | Answering from the session, every fault included, is the cache function. |
| `Kv.KvState.NextClientId` | cloud9-node/src/command.rs:196-204 | Client ids are handed out once and run out without overflow. |
| `Kv.KvState.NextGeneration` | cloud9-node/src/command.rs:206-211 | Generations are handed out once and run out without overflow. |
| `EndToEnd.AppliedIsFold` | cloud9-node/src/runtime.rs:251-260 | While nothing at or below a node's commit index is cut, between turns its driver has applied up to the commit index and its key-value state is the fold of the committed commands. |
| `EndToEnd.TruthfulAppliedIsFold` | cloud9-node/src/runtime.rs:251-260 | On truthful runs this holds for every node at every point. |
| `EndToEnd.TruthfulKeepsCommitted` | consensus/cloud9-raft/src/raft/follower.rs:179-196 | On truthful runs no step of a node removes an entry it has committed. |
| `EndToEnd.ProposalAssertionHolds` | consensus/cloud9-raft/src/raft/core.rs:233-236 | On truthful runs the assertion that the commit index does not exceed the log never trips. |
| `EndToEnd.ReplicasAgree` | cloud9-node/src/runtime.rs:251-260 | On truthful runs two replicas that have applied up to the same index, at whatever moments and through whatever restarts, hold the same key-value state. |
| `EndToEnd.ReplicasAgreeWhereTermsDo` | cloud9-node/src/runtime.rs:251-260 | On every run two replicas that never had a committed entry cut, and have applied up to the same index with the same term there, hold the same key-value state. |
| `Applied.RunApplyLoop` | cloud9-node/src/runtime.rs:251-260 | The apply loop terminates and computes the specified progress, each command once and in order. |
| `Applied.FoldIsRun` | cloud9-node/src/runtime.rs:251-260 | Folding a log runs exactly its decoded commands through the state machine, each once and in order. |
| `EndToEnd.ReplicaRunsItsLog` | cloud9-node/src/runtime.rs:251-260 | On truthful runs every node's key-value state is the run of its committed commands from the empty state, so what is proved of command runs holds of every replica. |
| `Applied.LoopFolds` | consensus/cloud9-raft/src/raft/mod.rs:370-388 | From a folded state the loop ends in the fold of the whole committed prefix. |
| `Applied.FindNextCommand` | consensus/cloud9-raft/src/raft/mod.rs:370-383 | The search finds the first committed command above the applied index, skipping configurations. |
| `Answers.VotesDecide` | consensus/cloud9-raft/src/raft/candidate.rs:158-177 | For any configuration and any sequence of vote responses of its term, in any order and with repetitions, a candidate leads exactly when the granting nodes and those counted before form a quorum; until then it has them all on record. |
| `Answers.ElectionDecided` | consensus/cloud9-raft/src/raft/candidate.rs:39-80 | From the timeout to the decision: the node takes a new term and its own vote, asks every other voter with its own last index and term, and leads exactly when its vote and those it is granted form a quorum. |
| `Answers.PreVotesDecide` | consensus/cloud9-raft/src/raft/precandidate.rs:150-178 | A pre-candidate answered by nodes that know no higher term starts its campaign exactly when the pre-votes of its own term form a quorum; until then it has them all on record. |
| `Answers.ReadAnswersDecide` | consensus/cloud9-raft/src/raft/leader.rs:482-501 | For any round, configuration and sequence of answers, the round is over with its index confirmed exactly when the voters that named its id and index, and those counted before, form a quorum; otherwise it is pending with exactly these on record. |
| `Answers.ReadDecided` | consensus/cloud9-raft/src/raft/leader.rs:128-173 | From the request to the decision: every other voter is asked, and the index is confirmed exactly when the leader and the voters that answered form a quorum of the configuration at the request. |
| `Answers.AcksDecide` | consensus/cloud9-raft/src/raft/leader.rs:412-438 | A leader acknowledged by any voters for an entry of its term that it alone was known to hold, in any order and with repetitions, has committed it exactly when they and itself are a majority. |
| `Answers.RefusalRetries` | consensus/cloud9-raft/src/raft/leader.rs:439-453 | A refusal makes the leader send, at once and only to the refuser, the entries after the hint, or after what is known to be held when pipelining. |
| `Answers.RetryAccepted` | consensus/cloud9-raft/src/raft/follower.rs:166-176 | A retry from the follower's last index passes the consistency check if and only if the follower's log is a prefix of the leader's. |
| `Answers.RepairRound` | consensus/cloud9-raft/src/raft/leader.rs:439-453 | One round trip of log repair: a follower whose log is a prefix of the leader's takes in what follows; any other refuses with the same words, so repair does not converge there. |
| `Duties.TermCatchesUp` | consensus/cloud9-raft/src/raft/core.rs:258-267 | Any message of a higher term, but a shielded vote or pre-vote request, ends leadership and candidacy of the lower term, and its term is taken on and saved. |
| `Duties.ShieldHolds` | consensus/cloud9-raft/src/raft/follower.rs:54-76 | A vote or pre-vote request that a recent leader shields against, and a pre-vote request in general, changes nothing. |
| `Duties.StaleAppendRefused` | consensus/cloud9-raft/src/raft/follower.rs:320-339 | A stale append request is refused under the newer term by followers, candidates and leaders, who stay as they are. |
| `Duties.VoteRefused` | consensus/cloud9-raft/src/raft/candidate.rs:191-200 | A stale vote request, and one of the current term to a candidate, pre-candidate or leader, is refused under the node's term and changes nothing. |
| `Duties.PreVoteAnswered` | consensus/cloud9-raft/src/raft/follower.rs:358-378 | A pre-vote request is always answered: granted exactly by a node that does not lead and is not shielded, to a voter that asks for a term not yet reached with a log at least as late. |
| `Duties.PreVoteTeachesTerm` | consensus/cloud9-raft/src/raft/precandidate.rs:156-160 | A pre-candidate that is told of a higher term takes it on and follows. |
| `Duties.ReadAnswered` | consensus/cloud9-raft/src/raft/follower.rs:221-241 | A follower answers a read request of its term or a later one with its id and index, and follows the sender. |
| `Duties.VoteGivenExactly` | consensus/cloud9-raft/src/raft/follower.rs:128-153 | A follower gives its vote exactly to a voter of its configuration whose log is at least as late, unless it has voted for another in that term; the answer says which, and a vote given is saved. |
| `Duties.TimeoutCampaigns` | consensus/cloud9-raft/src/raft/follower.rs:114-126 | A deadline that passes without a leader starts a campaign, or a pre-campaign where pre-votes are on, that asks every other voter. |
| `Duties.TimeoutNowCampaigns` | consensus/cloud9-raft/src/raft/follower.rs:97-109 | Whoever is told to campaign does so at once, pre-votes or not. |
| `Duties.QuietTick` | consensus/cloud9-raft/src/raft/follower.rs:114-126 | A timer that has not run out does nothing, in any role. |
| `Duties.CandidateYields` | consensus/cloud9-raft/src/raft/candidate.rs:179-189 | A candidate or pre-candidate that hears from a leader of its term follows it. |
| `Duties.AcceptedCommit` | consensus/cloud9-raft/src/raft/follower.rs:199-218 | An accepting follower commits what the leader told as far as its log reaches, unless it was as far already; that is the larger of both if and only if the old commit index was as far as told or lies within the log. |
| `Duties.InconsistentRefused` | consensus/cloud9-raft/src/raft/follower.rs:166-176 | A request that fails the consistency check is refused with the end of the log as a hint, and changes nothing else. |
| `EndToEnd.FollowerCatchesUp` | consensus/cloud9-raft/src/raft/follower.rs:179-218 | On truthful runs a follower that accepts a request holds its entries, has committed the larger of what it had and what the leader told as far as its log reaches, and its key-value state is the fold of exactly that. |
| `Acknowledgement.AckHolds` | consensus/cloud9-raft/src/raft/follower.rs:179-218 | On every run whoever acknowledges entries holds them at their indices. |
| `Duties.BroadcastServes` | consensus/cloud9-raft/src/raft/leader.rs:705-765 | Every member but the sender is sent exactly the entries from its next index, up to the limit, of the whole log, and its next index moves past them when pipelining; or the snapshot where they are compacted. |
| `Duties.HeartbeatServes` | consensus/cloud9-raft/src/raft/leader.rs:398-410 | At each heartbeat every member is served, and every other voter is asked again for a pending read. |
| `Duties.WinnerServes` | consensus/cloud9-raft/src/raft/leader.rs:68-102 | A new leader knows nothing of the others and greets every member from its own end. |
| `Duties.ProposalTaken` | consensus/cloud9-raft/src/raft/core.rs:233-256 | A proposal is taken if and only if the node leads and its uncommitted entries, and their bytes with the new command's, are within the limits. |
| `Duties.ProposalSpreads` | consensus/cloud9-raft/src/raft/leader.rs:193-215 | A proposal taken adds one entry of the leader's term, counts it for the leader, asks for a save and serves every other voter. |
| `Duties.AckRecorded` | consensus/cloud9-raft/src/raft/leader.rs:412-438 | In any configuration a leader that stays takes a member's acknowledgement at its word and changes nothing else it knows of others. |
| `Duties.DiskWriteRecorded` | consensus/cloud9-raft/src/raft/leader.rs:382-396 | Where disk writes are reported, the leader counts itself as far as they say. |
| `Duties.SnapshotAckRecorded` | consensus/cloud9-raft/src/raft/leader.rs:457-480 | A snapshot a member has installed counts as held, if that is news. |
| `Duties.ReadTaken` | consensus/cloud9-raft/src/raft/leader.rs:128-159 | A read request is taken, at the commit index, if and only if the node leads, no round is pending and an entry of its own term is committed. |
| `Duties.TransferTaken` | consensus/cloud9-raft/src/raft/leader.rs:304-336 | A transfer is taken if and only if the node leads and the target is another voter that holds its whole log; the target alone is told. |
| `Duties.AutoTransferTargets` | consensus/cloud9-raft/src/raft/leader.rs:637-682 | A removed leader hands over to a caught-up voter if there is one, and to no one else. |
| `Duties.SnapshotTaken` | consensus/cloud9-raft/src/raft/follower.rs:253-318 | A snapshot is installed if and only if it is newer than the last and keeps what is committed or agrees with it; the answer says which. |
| `CommitLoop.LoopKeepsMatch` | consensus/cloud9-raft/src/raft/leader.rs:550-580 | Whatever the commit loop appends and sends, what is known of other nodes stays. |
| `CommitLoop.NotableDecides` | consensus/cloud9-raft/src/raft/leader.rs:606-702 | The first notable entry a pass commits decides: a configuration without this node makes it step down and hand over, a joint one is followed in the log by its target. |
| `CommitLoop.NothingNotable` | consensus/cloud9-raft/src/raft/leader.rs:550-630 | A pass that commits nothing notable leaves the leader in office and the log as it is. |
| `ConfigChanges.ChangeTakenExactly` | consensus/cloud9-raft/src/raft/leader.rs:219-277 | A change is taken if and only if it is valid now, a promoted learner holds the whole log, and no configuration is uncommitted. |
| `ConfigChanges.LastConfigInEffect` | consensus/cloud9-raft/src/raft/core.rs:320-332 | The configuration in effect is the last one of the whole log, committed or not, compacted or not, or else the first there ever was. |
| `Membership.ChangeReachesAsked` | consensus/cloud9-raft/src/raft/membership.rs:442-483 | Every change ends in exactly the voters and learners it asks for, in either mode, and passes through a joint configuration of old and new voters exactly when joint consensus is on and the voter set is set anew. |
| `Membership.ChangeAcceptedExactly` | consensus/cloud9-raft/src/raft/membership.rs:358-440 | From a sound configuration a change is accepted if and only if it asks for other members than now, leaves voters, lets none of them be a learner, promotes only a learner and, without joint consensus, moves at most one voter. |
| `Membership.MinorityMayFail` | consensus/cloud9-raft/src/raft/membership.rs:234-246 | With less than half of a voter set down, the rest is a majority. |
| `Store.CommonPrefixIsHighest` | cloud9-node/src/store.rs:98-105 | No index above the one found has equal terms, so a delta records no more than it has to. |
| `Store.DeltaAppliedExactly` | cloud9-node/src/store.rs:107-127 | A delta is applied if and only if its term does not fall, it cuts within the log, and its entries go on from there; then the state is the delta's, on the kept log with the entries behind. |
| `DurableStore.RecoveredIsUnderstood` | cloud9-node/src/store.rs:84-96 | A recovery that succeeds has understood every record: of the store's kind, and decodable. |
| `WalFormat.ReadExactly` | cloud9-wal/src/format.rs:40-95 | For arbitrary bytes, reading gives a record if and only if one stands there: magic, version, kind, length and both checksums right, within file and segment. |
| `WalFormat.FoundIsChecked` | cloud9-wal/src/format.rs:40-95 | Nothing else is ever found. |
| `WalFormat.IncompleteExactly` | cloud9-wal/src/format.rs:40-89 | A record reads as cut short if and only if the file ends inside a header, or a sound header announces more than is there. |
| `WalFormat.ChangedPayloadReported` | cloud9-wal/src/format.rs:91-93 | A record whose payload was changed so that its checksum differs is reported as corrupt and never returned. |
| `WalSoundness.OpenedIsChecked` | cloud9-wal/src/segment.rs:12-43 | Opening any files at all, if it succeeds, leaves only checked records laid end to end from the first byte of each segment to the last, has removed nothing but a record cut short at the very end, and the stream yields exactly those records. |
| `WalSoundness.ScanTiles` | cloud9-wal/src/segment.rs:158-176 | Over arbitrary bytes a scan walks over checked records only, and says why it stopped where it did. |
| `WalSoundness.ReplayMeetsNoDamage` | cloud9-node/src/store.rs:84-96 | Once a log has opened, replaying it meets no damaged record. |
| `WalStream.ReadStream` | cloud9-wal/src/wal.rs:60-87 | The stream yields every record the files read as, in order, with its position. |
| `WalLog.AppendTakenExactly` | cloud9-wal/src/wal.rs:119-141 | An append is taken if and only if the payload has a 32-bit length, the record fits a segment and the log its limit, and a segment id is left if it needs one. |
| `WalLog.RotatesExactly` | cloud9-wal/src/wal.rs:165-190 | A segment is added exactly when the active one is in use and has no room. |
| `WalLog.OpensWithinLimits` | cloud9-wal/src/wal.rs:92-102 | What recovers opens exactly within the size limits. |
| `KvContents.EntryIsLastPut` | cloud9-node/src/command.rs:92-194 | On every run a key is present if and only if a put was the last mutation carried out on it, and then holds that put's body under the ETag and generation the put was answered with, the answer naming the body's length. |
| `KvContents.PutAnswered` | cloud9-node/src/command.rs:92-142 | A fresh put stores exactly its body under the next generation and its ETag, touches no other key and is answered with these and the length; or is refused for the first condition that fails. |
| `KvContents.DeleteAnswered` | cloud9-node/src/command.rs:145-194 | A fresh delete removes exactly its key and is answered with the ETag and generation removed, or finds nothing and says so, or is refused for its condition. |
| `KvContents.RegistrationAnswered` | cloud9-node/src/command.rs:196-204 | A registration opens an empty session under an id never used before. |
| `KvContents.BarrierChangesNothing` | cloud9-node/src/command.rs:59-90 | A read barrier changes nothing. |
| `KvContents.LimitsExact` | cloud9-node/src/command.rs:315-350 | A mutation is turned away as malformed if and only if it is outside the limits on names, values, conditions and numbers, whatever the state. |
| `KvContents.ReuseRefused` | cloud9-node/src/command.rs:397-416 | A sequence number used before with another request is refused. |
| `KvContents.EffectiveTakesEffect` | cloud9-node/src/command.rs:352-367 | The conditions on the state before a mutation say exactly whether it is carried out. |
| `KvContents.StoredWithinLimits` | cloud9-node/src/command.rs:244-256 | On every run what is stored is within the limits. |
| `KvEtags.EtagReads` | cloud9-node/src/command.rs:418-420 | An ETag is the generation in decimal without leading zeros, after `c9-` and in quotes, and is short enough to be sent back as a condition. |

## Left out

- Cluster.LeaderCompleteness: needs truthful acknowledgements, because it is false without them (`Counterexamples.LeaderCompletenessFails`); a run can also be safe by luck with an untruthful one, so the condition is not necessary.
- Cluster.StateMachineSafety: needs truthful acknowledgements for the same reason.
- Cluster.ReadFreshness: needs that no older request of the node carries the round's id and index, because it is false without that (`Counterexamples.ReadFreshnessFails`); an echo can be harmless, so the condition is not necessary.
- EndToEnd.AppliedIsFold: needs that nothing committed is cut, which truthful runs guarantee.
- Cluster.TruthfulReadFreshness: truthful runs only, as `Cluster.ReadFreshness`.
- Cluster.LinearizableRead: truthful runs, and a read whose own round is confirmed; what the release of a read by its index gives is in `ReadReadiness.ReadyReadCovers`.
- ReadReadiness.ReadyReadCovers: needs that the confirmed index was below the commit index at the request, because it is false without that (`StaleRead.ReadyReadMayBeStale`); a leader that was not replaced may be fresh regardless.
- EndToEnd.TruthfulAppliedIsFold: truthful runs only, because untruthful ones can cut what is committed.
- EndToEnd.TruthfulKeepsCommitted: truthful runs only, for the same reason.
- EndToEnd.ReplicasAgree: truthful runs only, for the same reason.
- EndToEnd.ProposalAssertionHolds: truthful runs only, for the same reason.
- PersistFlag.PersistFlagSound: one way only; for consecutive entries `PersistFlag.PersistFlagExact` goes both ways.
- Machine.Machine.BroadcastAppend: a node that is both an outgoing voter and a learner of a joint configuration is sent to twice by the source and once by the model, whose recipients are a set.
- WalLog.SegmentedLog.Append: writes and syncs do not fail, so the log is never poisoned.
- WalLog.SegmentedLog.RotateIfNeeded: syncs and file creation do not fail.
- DurableStore.RaftStore.Save: the append and the sync do not fail but by refusal.
- Membership changes on cluster runs: a new leader may propose a change before committing an entry of its own term, so only quorum overlap, validation and the commit loop are modelled for them.
- Snapshots and compaction on cluster runs: they are covered for single nodes and logs only, as the node's driver refuses to send snapshots.
- Progress over time: that elections finish or followers catch up is not claimed, as every timing is allowed; log repair does not converge where `Answers.RepairRound` says so, and a message may carry one entry more than configured.
- Answers.AcksDecide: for a fixed configuration without configuration entries in the log, where the commit loop makes one pass; `Duties.AckRecorded` and `CommitLoop.PassIsMaximal` cover the rest.
- Duties.ProposalSpreads: the same; with configuration entries a proposal's commit may append more.
- The `sent_index` map and tick counters of the roles, which no decision of the model depends on.
- I/O errors other than a crash, poisoned logs, file names and missing segments, and file locking.
- Serialisation itself, HTTP and peer transport, proposal waiters, service handlers, configuration parsing and the command line.
- The separate read-index and session helpers of the I/O crate, which the node does not use.
- Designs described only in documents, such as multi-version storage, ranges and cross-range transactions.
