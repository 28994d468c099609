# A replicated key-value and object store, modelled and proved

The system keeps a map of byte strings in memory. Three layers make it durable, replicated and useful
as an object store, and this project models each and proves what it promises.

**Replication** (`src/raft.cpp`). `RaftTypes` has the handlers of one node as functions of its state;
`RaftNode` has the node as the code has it, with fields changed in place and loops over entries and peers,
and each method is proved to take the step of the same name. `RaftCluster` is the whole cluster with the
requests and replies in flight, as a state machine in which every critical section of the code is one step
and the next step is chosen freely: which peer is contacted, lost requests, requests delivered late, twice
or out of order, any number of proposals in progress, and any interleaving of the election, heartbeat,
apply and proposal threads. `RaftElection` proves Election Safety over all of these steps. For the log,
three kinds of step are left out, each by the condition that makes it do harm (`Safely`), and
`RaftFailures` has a run for each of them that breaks a promise, as far as the third goes for the first of
its two halves. `RaftCore` is the argument why the rest is safe, for any cluster size: an auxiliary
history of votes and leader logs, six actions on it, and an invariant. `RaftInvariant` and `RaftSteps`
show that every step of the cluster is such an action and keeps the invariant. `RaftSafety` and
`RaftCatchUp` hold the theorems, which quantify over every run. `RaftProgress` proves that safety is not
bought with standstill: from every state of every run any strict majority can, on its own, elect a leader
and end with one log, committed and applied. `RaftHints` has what nodes tell each other: whom they take
for the leader, whom they vote for, and what an answer of a later term does.

**Log and recovery** (`src/wal.cpp`, `src/kv_store.cpp`). `Crc`, `WalFormat` and `Wal` model the file
byte by byte: the checksum, the record layout, buffering, the position of the descriptor, replay and
truncation. `Framing` has what holds of any file of self-delimiting records. `Snapshot` is the text
snapshot. `KvStore` is the store with group commit and checkpoints. `CrashRecovery` states what a crash at
any byte leaves.

**Objects** (`src/object_store.cpp`). `ObjectKeys` and `ObjectMetadata` are the key and metadata formats,
`Objects` the operations as functions of the map, `ObjectAtomicity` and `ObjectRuns` what holds between
any two key-value operations of any run, and `ObjectStore` the operations as the code performs them.

`KvOps` is shared: puts and deletes folded over a map, where the last write to a key wins.

What the model takes for granted:

- Replication. No node restarts with its term, vote or log lost, since they are kept in memory only. The
  theorems about logs leave out: a request by which its receiver cuts what it already accepted from the
  same leader, while requests the receiver refuses are all included; a proposal whose header is read after
  the node's term changed or another entry came last; a successful heartbeat reply that records, for the
  leader's present term, more than the peer accepted in it, or moves the commit index of a node that does
  not lead its term; of this last case no harmful run is given. Terms and indices are unbounded.
- Log. Sizes and sequence numbers fit the fields of the header (`Fits`). Reads and writes do not fail,
  but a write may take any part of what it is given. The host is little-endian. A snapshot is either the
  old one or the whole new one.
- Objects. Bucket names have no colon and no text field has a tab; `MetaKeyAmbiguous` and
  `MetadataRoundTrip` say exactly what goes wrong otherwise. Every upload gets a fresh id; ids carry
  bucket, key and a time in milliseconds, so this fails only for two uploads of one object in the same
  millisecond (`ObjectIdInjective`), and `SameIdMixes` says what is then read. Time and checksum are
  parameters.

Where the code does not do what its documentation or its comments suggest, the model follows the code:
no truncation follows replay, so a torn tail can swallow later records (`TruncationNeeded`); the truncation
that is there would not help, because it leaves the descriptor at the old end (`TruncationAsCoded`); a
checkpoint does not flush, so a crash in the middle of it can mix versions (`CheckpointBeforeRotation`,
`CheckpointMixesVersions`); snapshots lose empty strings and white space (`SnapshotRoundTrip`), and so every
object, since metadata is separated by tabs (`CheckpointLosesObjects`); a cluster of a single node never
elects a leader (`LonerNeverLeads`); a listing is in no particular order.

## Model

| member | source | states |
|---|---|---|
| `RaftElection.ElectionSafety` | src/raft.cpp:395-436 | in every run of everything the code can do and for any cluster size, two nodes that are leader in the same term, at any two times, are the same node |
| `RaftElection.AnyStepKeepsVotes` | src/raft.cpp:79-162 | every possible step keeps an invariant about terms, votes, ballots and roles, takes back no vote and unseats no recorded leader |
| `RaftSafety.LeaderAppendOnly` | src/raft.cpp:217-229 | within its term a leader's log only grows |
| `RaftSafety.LogMatching` | src/raft.cpp:164-213 | two logs, of any nodes at any times of a run, with an entry of the same term at the same index are identical up to it |
| `RaftSafety.CommittedInLaterLeader` | src/raft.cpp:50-55 | what half of the nodes accepted in a term is in the log of every leader of every later term, whenever in the run |
| `RaftSafety.LeaderCompleteness` | src/raft.cpp:57-77 | what any node counts as committed, every leader of a later term holds in the same place |
| `RaftSafety.CommittedPrefixesAgree` | src/raft.cpp:204-208 | committed prefixes of any two nodes at any two times are prefixes of one another |
| `RaftSafety.AppliedStoresAgree` | src/raft.cpp:493-519 | nodes that applied equally many entries, at any two times, hold the same map |
| `RaftSafety.CommitNeverRetreats` | src/raft.cpp:194-208 | the commit index never decreases or passes the end of the log, and the committed prefix stays in place, although every non-empty request cuts the log |
| `RaftSafety.ApplyInRange` | src/raft.cpp:502-505 | the apply loop's unchecked read is inside the log, in every reachable state |
| `RaftSafety.AcknowledgedSurvives` | src/raft.cpp:257-270 | the entry of a proposal that returned true is at its index in the log of every leader of every later term |
| `RaftSafety.AcknowledgedIsNeverReplaced` | src/raft.cpp:296-369 | no node ever commits anything else at the index of an acknowledged proposal |
| `RaftSafety.RunInv` | src/raft.cpp:373-519 | every state of every run satisfies the cluster invariant |
| `RaftSteps.StepKeeps` | src/raft.cpp:111-519 | every step, of any thread of any node, keeps the cluster invariant and only extends the history |
| `RaftSteps.InitOk` | include/kv/raft.h:126-139 | the initial state satisfies it |
| `RaftSteps.MajorityIsCommitted` | src/raft.cpp:57-77 | a match index the commit rule picks, with an entry of the current term, was accepted by half of the nodes, for any cluster size |
| `RaftSteps.HeartbeatOk` | src/raft.cpp:111-134 | a heartbeat's commit index is within its previous index plus its entries, and what it carries is the leader log |
| `RaftSteps.ClosingOk` | src/raft.cpp:273-282 | the closing request of a proposal is harmless whoever sends it, leader or not |
| `RaftSteps.PushKeeps` | src/raft.cpp:220-229 | a proposal's append keeps the invariant, with any number of proposals in progress |
| `RaftSteps.SendEntryKeeps` | src/raft.cpp:241-255 | the request of a proposal carries the entry its leader put at that index, if the header still belongs to the entry |
| `RaftSteps.AckKeeps` | src/raft.cpp:257-268 | counting one reply to a proposal, including losing and regaining leadership in between, keeps the invariant |
| `RaftSteps.CommittedSurvivesCut` | src/raft.cpp:195-202 | what a node has committed lies within what a request leaves that cuts nothing the node accepted in the term |
| `RaftFailures.StaleRequestLosesAcknowledged` | src/raft.cpp:194-202 | a reachable state of three nodes in which a late heartbeat has cut an acknowledged entry and a later leader lacks it |
| `RaftFailures.LateHeaderLosesAcknowledged` | src/raft.cpp:220-247 | the same from a proposal whose header was read after a step-down; the run contacts peers in the order of the proposal loop |
| `RaftFailures.LateReplyLosesCommitted` | src/raft.cpp:462-475 | a reachable state of five nodes in which a heartbeat reply of an earlier term, handled before the next heartbeat is built, made a leader commit an entry two nodes hold, and a later leader lacks it |
| `RaftCoreSteps.VoteKeeps` | src/raft.cpp:138-162 | granting a vote to an up-to-date candidate keeps the history invariant |
| `RaftCoreSteps.ElectKeeps` | src/raft.cpp:430-435 | becoming leader with a majority of votes keeps it: the new leader holds everything that may still be chosen |
| `RaftCoreSteps.AppendKeeps` | src/raft.cpp:217-229 | a leader appending an entry keeps it |
| `RaftCoreSteps.AcceptKeeps` | src/raft.cpp:195-202 | a follower taking over any part of the leader's log that includes what it accepted before keeps it |
| `RaftCore.UpToDateHolds` | src/raft.cpp:50-55 | a candidate that passes the vote check against a voter holding a live entry holds it too |
| `RaftCatchUp.ExchangeProgress` | src/raft.cpp:452-489 | one heartbeat exchange brings the follower up to date or lowers the peer's next index, which stays in range |
| `RaftCatchUp.ExchangeCommits` | src/raft.cpp:204-208 | an accepted heartbeat leaves the follower with the larger of its own and the leader's commit index |
| `RaftCatchUp.CatchUpTerminates` | src/raft.cpp:452-489 | as many exchanges as the next index, so at most log length + 1, make the leader's log a prefix of the follower's, and what the leader had committed the follower has committed too |
| `RaftCatchUp.CatchUpInRun` | src/raft.cpp:182-208 | this holds from every reachable state for any leader and any other node in no later term, for the log and for the commit index |
| `RaftProgress.MajorityConverges` | src/raft.cpp:373-519 | from every state of every run of two or more nodes, the nodes of any strict majority can, by steps of their own only, reach a state with a leader all of them know, one log that ends with any given operation, all of it committed and applied to the same map |
| `RaftProgress.MajorityAcknowledges` | src/raft.cpp:217-294 | and from there have the next proposal acknowledged |
| `RaftProgress.LonerNeverLeads` | src/raft.cpp:395-436 | in every run of a cluster of one node that node never leads, as only an answered vote request is counted |
| `RaftProgress.VoteCheckIsTotal` | src/raft.cpp:50-55 | the vote check orders logs: of any two at least one is as good as the other, the order is transitive, and ties are logs of equal length and last term |
| `RaftProgress.LastEntryCommits` | src/raft.cpp:57-77 | once half of the nodes hold the leader's last entry and it is of its own term, the commit rule moves the commit index to the end of the log |
| `RaftHints.LeaderHints` | src/raft.cpp:79-108 | in every run of everything the code can do, a leader names itself, a candidate nobody, and a follower only a node that sent a request in its present term |
| `RaftHints.VoteGranted` | src/raft.cpp:138-162 | a vote is granted exactly in a later term, or in the same one if not given to another, to a candidate whose last term is later, or the same with a log at least as long |
| `RaftHints.RequestsRepeat` | src/raft.cpp:138-213 | either request delivered a second time gets the same answer and changes nothing more |
| `RaftHints.AnswersCarryTerm` | src/raft.cpp:138-213 | an answer carries its sender's term, which is no earlier than before and than that of the request |
| `RaftHints.LaterTermDeposes` | src/raft.cpp:260-290 | an answer of a later term, to a heartbeat, proposal, closing request or vote request, makes the node a follower of that term and leaves log and commit index alone |
| `RaftHints.CommitWithinLog` | src/raft.cpp:204-208 | for any request at all, the receiver's commit index passes neither the request's nor the end of its log, and moves whenever both are ahead and the request is accepted |
| `RaftHints.ProposalCommits` | src/raft.cpp:249-282 | the closing request of a proposal brings the commit index to a follower with the same log; the request with the entry moves none |
| `RaftHints.WrappedHeaderRefused` | src/raft.cpp:241-247 | a proposal that finds an empty log when it reads its header is refused everywhere, as its previous index wraps around |
| `RaftNodes.RaftNode.BecomeFollower` | src/raft.cpp:79-86 | the new state, and what stays |
| `RaftNodes.RaftNode.BecomeCandidate` | src/raft.cpp:88-95 | the new state, and what stays |
| `RaftNodes.RaftNode.BecomeLeader` | src/raft.cpp:97-108 | next and match indices of every peer are reset, nothing else changes |
| `RaftNodes.RaftNode.OnRequestVote` | src/raft.cpp:138-162 | the in-place handler takes the step the cluster theorems are about |
| `RaftNodes.RaftNode.OnAppendEntries` | src/raft.cpp:164-213 | the in-place handler, cutting and appending entry by entry, takes the step the cluster theorems are about |
| `RaftNodes.RaftNode.BuildAppendEntries` | src/raft.cpp:111-134 | the request built entry by entry carries exactly the log from the peer's next index on |
| `RaftNodes.RaftNode.MatchValues` | src/raft.cpp:58-63 | in whatever order the map yields them, the values collected are the leader's last index and every match index |
| `RaftNodes.RaftNode.MajorityIndex` | src/raft.cpp:65-68 | the value found by sorting is reached by at least size - size / 2 of the values and exceeded by fewer |
| `RaftNodes.MajorityIndexUnique` | src/raft.cpp:65-68 | that determines the value |
| `RaftNodes.RaftNode.AdvanceCommitIndex` | src/raft.cpp:57-77 | the commit index moves to that value exactly when it is larger and its entry is of the current term |
| `RaftNodes.RaftNode.HandleHeartbeatReply` | src/raft.cpp:462-489 | step down on a later term, record and advance on success, else back up by one, never below one |
| `RaftNodes.RaftNode.HandleVoteReply` | src/raft.cpp:420-435 | one iteration of the vote loop: stop, step down, or count, and lead from a strict majority on |
| `RaftNodes.RaftNode.HandleProposalReply` | src/raft.cpp:260-267 | one iteration of the proposal loop: give up, step down, or count, and a strict majority acknowledges |
| `RaftNodes.RaftNode.PushEntry` | src/raft.cpp:220-229 | only a leader appends, in its current term |
| `RaftNodes.RaftNode.BuildProposal` | src/raft.cpp:241-255 | the request carries the entry under the header read from the node's term and log at that time |
| `RaftNodes.RaftNode.BuildClosing` | src/raft.cpp:273-282 | the empty request that ends a proposal, with the node's last index, term and commit index |
| `RaftNodes.RaftNode.HandleClosingReply` | src/raft.cpp:284-291 | only a later term has an effect |
| `RaftNodes.RaftNode.ApplyNext` | src/raft.cpp:501-517 | applies the next committed entry to the store, once |
| `Crc.Update` | src/wal.cpp:22-37 | the table-driven loop computes the bit-at-a-time CRC-32 of section 8 of RFC 1952, for every byte string |
| `Crc.MakeTable` | src/wal.cpp:25-32 | every table entry is eight shifts of its index |
| `Crc.TableDriven` | src/wal.cpp:34-35 | one lookup and shift equals feeding the bits of one octet |
| `Crc.Piecewise` | src/wal.cpp:114-119 | updating over header, key and value is one pass over their concatenation |
| `Crc.StepInjective` | src/wal.cpp:34-35 | one step is injective in the register and in the octet |
| `Crc.OneByteDetected` | src/wal.cpp:22-37 | changing any one byte of any message changes its checksum |
| `Crc.CheckValue` | src/wal.cpp:22-37 | the checksum of the nine octets "123456789" is 0xCBF43926, the published check value of CRC-32 |
| `Crc.CrcNumber` | src/wal.cpp:22-37 | the checksum on bits is the one computed with 32-bit numbers, shift and exclusive or with 0xEDB88320, for every byte string |
| `Crc.StoredBits` | src/wal.cpp:144 | the four stored octets hold the checksum's bits, lowest octet first |
| `WalLayout.ReadsRecord` | src/wal.cpp:168-196 | a record is read back whatever follows it |
| `WalLayout.TearsRecord` | src/wal.cpp:168-182 | a record cut anywhere yields nothing, whatever the checksum |
| `WalLayout.RecordOctets` | src/wal.cpp:69-80 | a put and a delete record as literal octets |
| `WalFormat.TornLog` | src/wal.cpp:151-225 | of any byte prefix of a log, replay applies exactly the records wholly inside, and the last good offset is their total length |
| `WalFormat.TruncationAsCoded` | src/wal.cpp:218-231 | after a cut inside a record, truncation leaves the descriptor at the old end: of the records written later none is replayed; after a cut between records all are |
| `WalFormat.TruncationLosesRecord` | src/wal.cpp:228-231 | one record torn after five bytes, truncated, and another written: replay finds nothing |
| `WalFormat.TruncatedLogIsRepaired` | src/wal.cpp:227 | the repair that comment intends, with writing resumed at the cut, which the code does not do: everything appended later is replayed |
| `WalFormat.TruncationNeeded` | src/kv_store.cpp:23-24 | of what a crash leaves, every record appended without truncation is replayed exactly when the cut fell between two records |
| `WalFormat.TornTailHidesLaterRecords` | src/wal.cpp:174-176 | a torn tail of fewer than seven bytes hides everything appended after it, wherever that is cut |
| `WalFormat.DamageDetected` | src/wal.cpp:172-194 | with one byte of magic, version, sequence number, key, value or checksum changed, replay applies exactly the records before and stops |
| `Wals.ReadRecord` | src/wal.cpp:168-196 | the field-by-field reader yields what the format defines |
| `Wals.ReplayFile` | src/wal.cpp:151-225 | the replay loop yields the fold of the replayable records, their largest sequence number and their end |
| `Wals.MaxSeqIsLargest` | src/wal.cpp:151-225 | the number replay reports is zero without records and otherwise one of theirs that bounds all |
| `Wals.Wal.WriteRecord` | src/wal.cpp:103-149 | the buffer gets the encoding of the record; the file is untouched |
| `Wals.Wal.WriteBuffered` | src/wal.cpp:243-251 | however writes are split, one record is written at the descriptor's position, a gap before it reading as zeros |
| `Wals.Wal.Flush` | src/wal.cpp:239-259 | the buffered records are written in order at the descriptor's position, and the buffer is emptied |
| `Wals.Wal.ReplayInto` | src/wal.cpp:151-225 | replays into the map, remembers where the sound part ends, and leaves the position at the end of the file |
| `Wals.Wal.TruncateToLastGood` | src/wal.cpp:228-231 | cuts the file there and does not move the position |
| `Snapshot.SnapshotRoundTrip` | src/kv_store.cpp:189-206 | a snapshot loads as the map it was taken from exactly when every key and value is non-empty and free of white space |
| `Snapshot.SnapshotLayout` | src/kv_store.cpp:202-204 | a tab between key and value and a newline after each entry |
| `Snapshot.WhiteSpace` | src/kv_store.cpp:193 | what extraction takes for white space |
| `Snapshot.Save` | src/kv_store.cpp:199-206 | writes every entry once, in some order |
| `Snapshot.LoadInto` | src/kv_store.cpp:189-197 | the extraction loop stores pairs of words, dropping a last key without value |
| `KvStores.KVStore.Open` | src/kv_store.cpp:32-53 | the map is the snapshot with the replayable records applied, the sequence number their largest; a second open changes nothing |
| `KvStores.KVStore.SetGroupCommitEvery` | src/kv_store.cpp:55-58 | a batch size below one becomes one |
| `KvStores.KVStore.FlushWal` | src/kv_store.cpp:216-219 | what was pending is written, in order, and the numbering stays |
| `KvStores.KVStore.Append` | src/kv_store.cpp:76-80 | the record is logged with the next sequence number before the map changes |
| `KvStores.KVStore.Put` | src/kv_store.cpp:73-93 | map and log change together, map equals log, records are numbered on, and the buffer is flushed exactly when the number is a multiple of the batch size |
| `KvStores.KVStore.Get` | src/kv_store.cpp:95-100 | reads the map |
| `KvStores.KVStore.Del` | src/kv_store.cpp:102-113 | the same for a delete, and whether the key was there |
| `KvStores.KVStore.ApplyPut` | src/kv_store.cpp:221-224 | changes the map as the replicated log's fold does |
| `KvStores.KVStore.ApplyDel` | src/kv_store.cpp:226-229 | changes the map as the replicated log's fold does |
| `KvStores.KVStore.Checkpoint` | src/kv_store.cpp:172-187 | snapshot of the live map, empty log; buffered records stay, and redoing them later changes nothing |
| `KvStores.KVStore.ListKeysWithPrefix` | src/kv_store.cpp:231-244 | every key with the prefix exactly once |
| `KvOps.LastWriterWins` | src/kv_store.cpp:221-229 | a fold of puts and deletes is determined key by key by the last write |
| `KvOps.RedoSuffix` | src/kv_store.cpp:32-53 | replaying any suffix of the operations that produced a map leaves it as it is |
| `CrashRecovery.CrashConsistency` | src/kv_store.cpp:73-113 | whatever byte the crash cuts at, recovery yields the map after a prefix of the logged operations that includes everything flushed |
| `CrashRecovery.StoreCrash` | src/kv_store.cpp:73-113 | the same for a running store: the prefix lacks at most what is buffered, fewer than a batch of operations, and nothing after a flush |
| `CrashRecovery.TornStartKeepsWhole` | src/kv_store.cpp:32-53 | a store opened on a log with any tail recovers all records whole before it |
| `CrashRecovery.StoreCrashAfterTornTail` | src/kv_store.cpp:32-53 | of a store opened on a torn tail of fewer than seven bytes, a crash at any byte leaves nothing issued since, flushed or not |
| `CrashRecovery.ManyCrashes` | src/kv_store.cpp:23-24 | after any number of crashes, with the intended repair at each opening, the log holds a prefix of each session's records including all it flushed |
| `CrashRecovery.ManyCrashesRecover` | src/kv_store.cpp:32-53 | and, with that repair, recovery yields the map those records make |
| `CrashRecovery.StoreIsSession` | src/kv_store.cpp:76-88 | what a running store has issued since it was opened is numbered on from the largest replayed number, and every record numbered with a multiple of the batch size was flushed |
| `CrashRecovery.UnflushedBounded` | src/kv_store.cpp:76-88 | with records numbered on from the largest replayed and flushed at multiples of g, fewer than g are unflushed |
| `CrashRecovery.LossBounded` | src/kv_store.cpp:76-88 | so over any number of crashes at most g - 1 records are lost per crash |
| `CrashRecovery.CleanCutNeedsNoTruncation` | src/kv_store.cpp:23-24 | where the crash cut between records, truncation would change nothing |
| `CrashRecovery.RedoExact` | src/kv_store.cpp:32-53 | redoing operations on a map changes nothing exactly when each key's last write among them is already there |
| `CrashRecovery.RewrittenBatch` | src/wal.cpp:239-259 | a batch written twice, because the first sync failed, has the effect of one |
| `CrashRecovery.RewriteCutShort` | src/wal.cpp:239-259 | when a crash cuts the second write, the keys it wrote go back to what they were at that point of the batch, the others stay |
| `CrashRecovery.RewriteCutShortExact` | src/wal.cpp:239-259 | that is the live map exactly when those keys are not written differently later in the batch |
| `CrashRecovery.RewriteMixesVersions` | src/wal.cpp:239-259 | a case in which it is no map the store ever had |
| `CrashRecovery.CheckpointBeforeRotation` | src/kv_store.cpp:172-187 | from new snapshot and old log recovery yields the live map exactly when no buffered operation disagrees with the log on a key both write |
| `CrashRecovery.CheckpointWithEmptyBuffer` | src/kv_store.cpp:172-187 | with an empty buffer, new snapshot with old log and with empty log both recover the live map |
| `CrashRecovery.CheckpointMixesVersions` | src/kv_store.cpp:172-187 | a case in which the recovered map is none the store ever had |
| `ObjectKeys.ObjectKeysInjective` | include/kv/object_store_key_codec.h:15-21 | without colons in bucket names, different objects have different metadata and index keys |
| `ObjectKeys.MetaKeyAmbiguous` | include/kv/object_store_key_codec.h:15-17 | an object shares its metadata key with another exactly when its bucket or key has a colon |
| `ObjectKeys.ChunkKeyInjective` | include/kv/object_store_key_codec.h:23-25 | chunk keys determine id and index |
| `ObjectKeys.OwnerOfChunk` | src/object_store.cpp:414-424 | cutting at the last colon yields the id again, for every non-empty id |
| `ObjectKeys.ObjectIdInjective` | src/object_store.cpp:38-42 | object ids determine bucket, key and time |
| `ObjectKeys.NamespacesDisjoint` | include/kv/object_store_key_codec.h:11-25 | no key is of two kinds |
| `ObjectKeys.NumberRoundTrip` | src/object_store.cpp:91-97 | numbers read back as they were written, within the ranges of their types |
| `ObjectKeys.DecimalExample` | include/kv/object_store_key_codec.h:24 | numbers in keys and metadata are decimal, without leading zeros |
| `ObjectKeys.NumberRead` | src/object_store.cpp:91-97 | white space before a number and anything after its digits is ignored, a minus sign wraps around for unsigned fields, and a value out of range is refused |
| `ObjectKeys.KeyLayout` | include/kv/object_store_key_codec.h:11-25 | the four kinds of key and the object id as text |
| `ObjectMetadata.MetadataRoundTrip` | src/object_store.cpp:50-105 | metadata reads back as written exactly when no text field has a tab |
| `ObjectMetadata.MetadataLayout` | src/object_store.cpp:44-64 | the eleven fields in their order, separated by tabs |
| `ObjectMetadata.ReadMetadataIsWritable` | src/object_store.cpp:66-105 | whatever was read can be written again and read back |
| `Objects.ChunksCover` | src/object_store.cpp:195-209 | the chunks end where the data ends, and not before the last of them |
| `Objects.PutGet` | src/object_store.cpp:195-227 | for every byte string and chunk size, a read after an upload yields metadata that describes the request field by field, and the data exactly when the chunk count fits in 32 bits |
| `Objects.ReadOutcome` | src/object_store.cpp:246-285 | which of its five outcomes a read has, and that a missing chunk it reports is the first one missing |
| `Objects.UploadIndexes` | src/object_store.cpp:225-227 | the index entry holds the object's id |
| `ObjectAtomicity.ReadsAreWhole` | src/object_store.cpp:246-285 | in an intact state a read finds nothing, a deleted object, or the whole data of one upload of that object with metadata that describes it field by field |
| `ObjectAtomicity.UploadAtomic` | src/object_store.cpp:196-231 | after any prefix of an upload's operations its object reads as before until the metadata is written and as the whole new version after, others as before |
| `ObjectAtomicity.UploadIntact` | src/object_store.cpp:196-231 | and the state stays intact |
| `ObjectAtomicity.SameIdMixes` | src/object_store.cpp:38-42 | an upload with the id of the committed version, cut before its metadata, makes the object read as first chunks of the one and rest of the other; exactly when these agree, as before |
| `ObjectAtomicity.DeleteAtomic` | src/object_store.cpp:287-319 | a deletion takes effect with its first operation, for its object only |
| `ObjectAtomicity.DeletionRecords` | src/object_store.cpp:302-311 | of the metadata a deletion changes state and time of change and keeps every other field; the index entry is gone |
| `ObjectAtomicity.DeleteIntact` | src/object_store.cpp:287-319 | and the state stays intact |
| `ObjectAtomicity.CollectIntact` | src/object_store.cpp:384-438 | deleting any part of the garbage keeps the state intact |
| `ObjectRuns.CollectInvisible` | src/object_store.cpp:384-438 | deleting any part of the garbage changes no read |
| `ObjectRuns.CollectExact` | src/object_store.cpp:384-438 | for any map at all, collection changes a read exactly for a version neither committed nor deleted whose chunks nothing else marks |
| `ObjectRuns.NothingExposed` | src/object_store.cpp:211-223 | no operation of the store leaves such a version |
| `ObjectRuns.CollectComplete` | src/object_store.cpp:384-438 | afterwards every chunk belongs to committed metadata and a second run finds no garbage |
| `ObjectRuns.RequestAtomic` | src/object_store.cpp:136-438 | after any prefix of any request's operations every object reads as before it or as after it |
| `ObjectRuns.RunAtomic` | src/object_store.cpp:136-438 | cut any run after any prefix of its operations: one request separates what every object may read as |
| `ObjectRuns.RunIntact` | src/object_store.cpp:136-438 | and the state is intact |
| `ObjectRuns.ManyCrashesAtomic` | src/object_store.cpp:136-438 | the same over any number of crashes, each after any prefix of the operations since the last |
| `ObjectRuns.RunElsewhere` | src/object_store.cpp:136-438 | cut anywhere, a run without upload or deletion of an object leaves what that object reads as, whatever is collected |
| `ObjectRuns.UploadStays` | src/object_store.cpp:155-285 | an upload the store takes on reads back, data and every field of its metadata, after any later requests for other objects, cut anywhere |
| `ObjectRuns.UntouchedOverCrashes` | src/object_store.cpp:136-438 | an object no request touches reads the same through any number of cut runs |
| `ObjectRuns.ListingIsReadable` | src/object_store.cpp:321-382 | a listed key can always be read; where index and metadata agree, the listing is exactly the readable keys with the prefix |
| `ObjectRuns.RequestIndex` | src/object_store.cpp:225-227 | a completed request leaves index and metadata in agreement |
| `ObjectRuns.BucketMetaReadsBack` | src/object_store.cpp:107-119 | the fields of a bucket's record are its name and the time |
| `ObjectRuns.BucketStays` | src/object_store.cpp:136-148 | a bucket is recorded once; creating it again changes nothing |
| `ObjectRuns.RunIndex` | src/object_store.cpp:321-382 | so they agree between completed requests of any run |
| `ObjectStores.ObjectStore.constructor` | src/object_store.cpp:132-134 | chunk size zero means 4096 |
| `ObjectStores.ObjectStore.CreateBucket` | src/object_store.cpp:136-148 | refuses an empty name, else records the bucket once |
| `ObjectStores.ObjectStore.BucketExists` | src/object_store.cpp:150-153 | whether the bucket is recorded |
| `ObjectStores.ObjectStore.WriteChunks` | src/object_store.cpp:198-209 | one put per chunk, in order |
| `ObjectStores.ObjectStore.Commit` | src/object_store.cpp:211-227 | metadata, then index entry |
| `ObjectStores.ObjectStore.PutObject` | src/object_store.cpp:155-244 | performs exactly the operations of the upload, and on success nothing is left unflushed; each refusal is told apart and does nothing |
| `ObjectStores.ObjectStore.GetObject` | src/object_store.cpp:246-285 | the loop reads what the specification of a read says, with each of its failures |
| `ObjectStores.ObjectStore.DeleteObject` | src/object_store.cpp:287-319 | performs exactly the operations of the deletion; missing and unreadable metadata are told apart and nothing is done |
| `ObjectStores.ObjectStore.MarkDeleted` | src/object_store.cpp:302-311 | metadata, then index entry |
| `ObjectStores.ObjectStore.ListObjects` | src/object_store.cpp:321-382 | each listed key exactly once, with the entry its metadata gives |
| `ObjectStores.ListingDescribes` | src/object_store.cpp:371-376 | in an intact state an entry has the listed key, the size of the data a read yields, and content type, tag and time of the upload |
| `ObjectStores.ListingAgrees` | src/object_store.cpp:371-376 | for any map at all, an entry agrees field by field with the metadata a read yields |
| `ObjectStores.ObjectStore.Entries` | src/object_store.cpp:337-379 | the loop over index keys |
| `ObjectStores.ObjectStore.MarkReachable` | src/object_store.cpp:387-407 | marks exactly the ids of committed metadata |
| `ObjectStores.ObjectStore.Sweep` | src/object_store.cpp:413-433 | deletes exactly the chunk keys whose owner is not marked |
| `ObjectStores.ObjectStore.GarbageCollectChunks` | src/object_store.cpp:384-438 | removes exactly the garbage and returns how many keys that was |
| `ObjectStores.PerformedKeepsLogged` | src/kv_store.cpp:73-113 | operations performed through the store keep map and log in step |
| `ObjectStores.ObjectsSurviveCrash` | src/object_store.cpp:229-233 | a store opened on any log, also one that ends inside a request, a run of requests and a crash at any byte: recovery lacks at most what was not flushed, every object reads as before or after one request, every read is whole, and the next opening starts from such a state again |
| `ObjectStores.ObjectsSurviveManyCrashes` | src/object_store.cpp:229-233 | the same for any number of crashes, each at any byte, with the intended repair at each opening; all that the last session flushed is there |
| `ObjectStores.AcknowledgedUploadSurvives` | src/object_store.cpp:229-243 | after an upload that returned success and any later requests for other objects, flushed or not, the object reads back as uploaded after a crash at any byte |
| `ObjectStores.AcknowledgedUploadSurvivesManyCrashes` | src/object_store.cpp:229-243 | and so it does through any number of crashes of this and later sessions, with the intended repair at each opening |
| `ObjectStores.CheckpointLosesObjects` | src/kv_store.cpp:189-206 | a checkpoint of a map with any object's metadata does not load back, and from no such snapshot is any object read: it is missing or unreadable |

## Left out

- Sockets, command parsing, client redirection, command line, demos and scripts: plumbing around the modelled core.
- Threads, mutexes, timers and the random generator: replaced by a free choice of the next step.
- A node that restarts with empty Raft state: terms, votes and logs are not persisted, so safety is not claimed across it.
- That a leader is eventually elected: depends on real time; `MajorityConverges` proves that it is always possible, and `CatchUpTerminates` a bound on catching up.
- The election and proposal loops as one method each: other threads act between their iterations, so an iteration is a method of the node (`HandleVoteReply`, `HandleProposalReply`) and a step of the cluster (`CountVote`, `CountAck`).
- KvStores.KVStore.FlushWal: write and sync failures are not modelled; `RewrittenBatch` and `RewriteCutShort` cover a batch written in full whose sync failed.
- KvStores.KVStore.Checkpoint: a partly written snapshot is not modelled.
- ObjectRuns.RunAtomic: uploads of 2^32 chunks or more are outside runs; `PutGet` says what they read back as.
- CrashRecovery.ManyCrashes: with a repair at each opening, cut and seek, which the code does not do; `TruncationNeeded`, `TruncationAsCoded` and `CleanCutNeedsNoTruncation` say exactly when that matters.
- ObjectStores.ObjectsSurviveManyCrashes: with the same repair, as is `AcknowledgedUploadSurvivesManyCrashes`; `ManyCrashesAtomic` needs none, only that recovery yields a prefix.
- CrashRecovery.StoreCrash: for a store opened on a log without torn tail; `StoreCrashAfterTornTail` and `TornStartKeepsWhole` have the other case, in which a longer torn tail may by accident of its bytes be completed by what follows.
- The listing order the documentation mentions: the code iterates an unordered map.
- `save_snapshot`, `load_snapshot`, `size`, the etag function and diagnostic output: no hard property lives there.
