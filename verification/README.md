# MXKeys in Dafny

A model of the parts of MXKeys where being wrong is hardest to notice: its hand-written Raft, the
files Raft keeps, the replicated key cache that runs on it, the Merkle transparency log, canonical
JSON and the wildcard matcher of the trust policy.

`dafny verify dfyconfig.toml` checks the whole project.

## How it is built

**Raft** is modelled twice. `RaftSpec` is the protocol over whole logs, with a history of reigns,
ballots, receipts and decisions (`RaftHistory`) and an invariant that every step keeps
(`RaftPreservation`). `RaftNode` has one function for each critical section of the code, over the
compacted slice with its offset; `RaftServer` is the object whose methods update the fields in place
and are proved to compute those functions. `RaftSystem` runs nodes and a growing set of messages in
any order; `RaftRefinement` shows that every such step is a protocol step on the whole logs, and
`RaftSafety` states the results over every run, between any two of its moments.

The runs cover elections, replication, submission, application and compaction (its two critical
sections apart), lost, repeated and reordered messages, and follower log writes that fail at any
point. Committed entries stay, a majority holds them, and no commit index ever falls. Five things are
kept out of the runs because the code does not meet the property there, each with a run or state that
shows it and a condition under which it is met:

- votes across a restart, and the suffix kept by a snapshot install (`RaftFindings`);
- a submission whose persisting failed: its rollback looks at length and index and not at the term, and
  can remove what is committed (`RaftRollback`);
- the commit scan in the second half of Submit, when the leader has been deposed in between; in the runs
  the scan is enabled only while the node leads (`RaftLateScan`);
- compaction between the catch-up check and the building of the request, which the runs take as one
  step; in between, the commit index of a follower can fall (`RaftRace`).

`RaftTerms` says how a later term spreads: what every reply carries, and what a node is once it has seen
one. Safety alone would hold of a cluster that does nothing, so `RaftCatchUp`, `RaftProgress` and
`RaftService` say what it can still do, from any moment of any run: when a follower catches up and when it
needs a snapshot, and that any majority can by itself elect a leader and have a command committed and
delivered.

`RaftTrails` is the vocabulary in which the runs of these modules are built, action by action.

**Files** are byte sequences. The checksum is a fold of an arbitrary byte step, the keyed hash an
arbitrary function to 32 bytes, and JSON of log entries and of snapshot payloads any codec that gives
back what it was given, as non-empty bytes. `Recovery` runs one node with its two files through appends,
truncations, application, the four stages of a compaction and crashes between any of them. Memory and
file need not move together: a submission is published before it is persisted, a write that fails can
leave its record, and a cut of the file that fails leaves memory cut. `NodeOnDisk` joins this to the
cluster: what a run of the cluster does to one node's log is such a run of the node and its files.
`Recovery.FilesDecide` says of every run that start-up recovers the log exactly when the records behind the
snapshot are the rest of it. Counting them is enough once the whole log has reached the file
(`FailedWrites`), and a length is enough when submissions are persisted in order (`PersistOrder`).
`DiskFindings` has the runs in which the log is not recovered: a failed cut displaces a committed entry, a
leader commits what it has not persisted, and two submissions change places in the file. The code leaves a
torn record in the file and appends behind it; `TornLog` shows what that loses and when. The log's rewrite
and the offline upgrade take a number of file operations that succeed before one fails; the upgrade is
said to leave the old log untouched by a crash, and `WalUpgrade` shows the step from which it does not.

**The key cache** is the nested map of the source; `KeyCache` treats it as a convergent replicated
type, `KeyReplay` and `Recovery` as the state machine under Raft.

**Merkle trees** are over an abstract hash type. Soundness takes the node hash to be injective, which no
function into 32 bytes is; so the hash type is left open. The repository's own consistency proofs are
not those of the RFC, and its verifier refuses nearly all of them (`MerkleGenerator`).

**Canonical JSON** values are null, booleans, integers, strings of Unicode scalar values, arrays and
maps; `GoValues` says which of them a Go value means, floats being reals or no numbers. The order of Go
strings is the order of code points. The reader (`Parse`) stands for the decoder of the Go library.

Indices, terms and sizes are unbounded naturals except in the byte formats, where widths are explicit.
Where documentation and code differ the code is followed: the source's comment on `logOffset` lists
InstallSnapshot among its movers; the offset invariant is proved for the runs above, and for an installed
snapshot by itself (`RaftCompaction.InstallLinks`).

## Model

| member | source | states |
|---|---|---|
| `RaftServer.Server.HandlePreVote` | internal/zero/raft/rpc_handlers.go:47-73 | the pre-vote answer: refused for an old term, a leader heard recently or a longer log, and nothing of the node changes |
| `RaftServer.Server.HandleRequestVote` | internal/zero/raft/rpc_handlers.go:76-117 | the vote step by step is the atomic vote of the protocol: later terms are adopted first, one vote a term, only for a log at least as up to date |
| `RaftServer.Server.TruncateSlice` | internal/zero/raft/log_view.go:81-96 | on a log in index order, cutting the slice in place keeps exactly the entries up to the given index, so that memory is cut as TruncateAfter cuts the file |
| `RaftServer.CutIsFilter` | internal/zero/raft/log_view.go:81-96 | the slot arithmetic of the cut and a filter by index agree on every log in order |
| `RaftServer.Server.HandleAppendEntries` | internal/zero/raft/rpc_handlers.go:120-216 | hearing a leader, the consistency check, the entry loop and the commit update together are the atomic append step, including the early returns when a log write fails |
| `RaftServer.Server.AppendLoop` | internal/zero/raft/rpc_handlers.go:164-204 | the in-place entry loop with its conflict truncation is the recursive definition that the protocol proof uses |
| `RaftServer.Server.StartElectionTerm` | internal/zero/raft/election.go:129-150 | starting an election raises the term, votes for itself and asks with its own last index and term |
| `RaftServer.Server.CollectVotes` | internal/zero/raft/election.go:152-190 | the counting loop declares victory exactly when the granted votes and its own reach the needed number |
| `RaftServer.Server.TakeLeadership` | internal/zero/raft/election.go:201-220 | the loop over peers resets every next and match index |
| `RaftServer.Server.PublishEntry` | internal/zero/raft/lifecycle.go:94-112 | only a leader publishes, with the next index and its own term |
| `RaftServer.Server.RollbackEntry` | internal/zero/raft/lifecycle.go:116-128 | the rollback of a submission whose persisting failed, with its guard on length and index |
| `RaftServer.Server.UpdateCommitIndex` | internal/zero/raft/replication.go:197-215 | the double loop finds the largest index of the current term that a majority matches |
| `RaftServer.Server.HandleAppendReply` | internal/zero/raft/replication.go:72-102 | a reply raises the match index or steps the next index back, and a success also moves the commit index |
| `RaftServer.Server.ApplyCommitted` | internal/zero/raft/replication.go:218-255 | the apply loop hands over exactly the entries between the old applied index and the commit index, in order |
| `RaftServer.Server.DropPrefix` | internal/zero/raft/compact.go:94-123 | the second critical section of a compaction drops the covered slots and moves the offset |
| `RaftNode.ScanIsLargest` | internal/zero/raft/replication.go:197-215 | the commit scan ends at the largest committable index above the old commit index, or stays put |
| `RaftCompaction.LogView` | internal/zero/raft/log_view.go:25-75 | after any compaction the log length, last index and term, and the term and entry at every index from the snapshot on are those of the uncompacted log |
| `RaftCompaction.VotesAlike` | internal/zero/raft/rpc_handlers.go:47-117 | a compacted node gives the votes and pre-votes of the uncompacted one and ends in the corresponding state |
| `RaftCompaction.PreVotePromise` | internal/zero/raft/rpc_handlers.go:36-73 | a granted pre-vote for a later term means that the real request in that term would be granted |
| `RaftCompaction.AppendsAlike` | internal/zero/raft/rpc_handlers.go:153-211 | AppendEntries from the snapshot on, or from the start of the log, has the same result on a compacted log |
| `RaftCompaction.AppendsBelow` | internal/zero/raft/rpc_handlers.go:153-162 | a request that starts strictly below the snapshot is refused and changes no log |
| `RaftCompaction.DropKeepsWhole` | internal/zero/raft/compact.go:108-123 | dropping a prefix leaves the logical log what it was and keeps the offset invariant |
| `RaftCompaction.InstallLinks` | internal/zero/raft/snapshot_rpc.go:254-272 | an installed snapshot leaves a log that starts right behind it, with the offset invariant; the length is the old one or the snapshot's, and commit and applied index rise to the snapshot's and no further |
| `RaftCatchUp.InstalledTakesNext` | internal/zero/raft/snapshot_rpc.go:254-277 | a follower that has installed the leader's snapshot takes the leader's next request and then has the leader's terms behind the snapshot up to the end of the leader's log |
| `RaftHistory.LeaderCompleteness` | internal/zero/raft/rpc_handlers.go:97-117 | an entry that a majority stored in the term of a leader is in the log of every leader elected later |
| `RaftHistory.LogMatching` | internal/zero/raft/rpc_handlers.go:153-201 | two logs that both grew out of leaders' logs and share the term at one index agree up to it |
| `RaftPreservation.OneLeaderPerTerm` | internal/zero/raft/election.go:152-190 | two majorities of one term share a voter, so the second winner is the first |
| `RaftPreservation.UpToDateKeeps` | internal/zero/raft/rpc_handlers.go:221-228 | a candidate whose log is at least as up to date as a voter's holds everything committed that the voter holds |
| `RaftPreservation.AbsorbSettled` | internal/zero/raft/rpc_handlers.go:164-204 | a follower that absorbs a leader's entries never loses one that was settled |
| `RaftPreservation.CommitAgrees` | internal/zero/raft/replication.go:197-215 | what a leader newly commits agrees with all that was committed before, by whomever |
| `RaftPreservation.StepKeeps` | internal/zero/raft/rpc_handlers.go:76-216 | every step of the protocol keeps the whole invariant and only extends the history |
| `RaftRefinement.AbsorbAsStep` | internal/zero/raft/rpc_handlers.go:153-204 | the code's entry loop on a compacted log is one append step of the protocol on the whole log |
| `RaftRefinement.CommitStep` | internal/zero/raft/replication.go:197-215 | the code's counting of match indices is the protocol's majority |
| `RaftRefinement.ShipStep` | internal/zero/raft/replication.go:146-176 | what a leader sends from its slice is the right piece of its whole log with the right previous term |
| `RaftRefinement.ActionKeeps` | internal/zero/raft/raft.go:106-118 | every critical section of the code, compaction included, is a protocol step or changes nothing the protocol sees |
| `RaftSafety.ElectionSafety` | internal/zero/raft/election.go:129-190 | in every run at most one node ever leads in a term, at whatever two moments one looks |
| `RaftSafety.LeaderAppendsOnly` | internal/zero/raft/lifecycle.go:94-112 | during its term a leader's log only grows at the end |
| `RaftSafety.LeadersAreComplete` | internal/zero/raft/rpc_handlers.go:97-117 | what any node ever regarded as committed is in the log of every later leader of that term or beyond |
| `RaftSafety.LogMatchingInRuns` | internal/zero/raft/rpc_handlers.go:153-201 | in every run, whole logs (compacted prefix included) that share index and term of an entry agree up to it |
| `RaftSafety.OffsetInvariant` | internal/zero/raft/raft.go:106-118 | in every reachable state the stated invariant of the offset holds and the offset is the snapshot index |
| `RaftSafety.StateMachineSafety` | internal/zero/raft/replication.go:197-215 | in every run, what two nodes regard as committed, at any two moments, is the same log up to the lower of the two commit indices |
| `RaftSafety.DeliveriesAgree` | internal/zero/raft/replication.go:218-255 | of the commands handed to any two state machines at any two moments, one sequence is a prefix of the other |
| `RaftSafety.CommittedStays` | internal/zero/raft/rpc_handlers.go:164-211 | a committed entry stays in the log of the node that saw it committed for the rest of the run |
| `RaftSafety.RequestsCoverCommit` | internal/zero/raft/replication.go:146-176 | every append request that is ever sent reaches as far as the commit index that it announces |
| `RaftSafety.CommitNeverFalls` | internal/zero/raft/rpc_handlers.go:206-213 | in every run the commit index of a node never falls |
| `RaftSafety.SnapBelowCommit` | internal/zero/raft/compact.go:54-76 | in every reachable state snapshot index <= applied index <= commit index <= log length, and no compaction under way lies above the commit index |
| `RaftSafety.ScansAlikeInRuns` | internal/zero/raft/replication.go:197-215 | in every reachable state the commit advance of a compacted node is that of the node that kept its whole log |
| `RaftSafety.CommittedOnMajority` | internal/zero/raft/replication.go:197-215 | from the moment a node commits an entry on, a majority of the cluster holds the log up to it |
| `RaftSafety.TermsPositive` | internal/zero/raft/election.go:129-150 | no entry and no snapshot boundary of a reachable state has term 0 |
| `RaftSafety.NextIsPositive` | internal/zero/raft/replication.go:99-101 | in every reachable state a leader's next index for a peer lies between 1 and one past its log |
| `RaftTerms.RefusalDeposes` | internal/zero/raft/rpc_handlers.go:120-143 | a leader or candidate whose request is refused for its term learns the refuser's term from the answer, becomes a follower without a vote, and nothing else of it changes |
| `RaftTerms.AnswerTerms` | internal/zero/raft/rpc_handlers.go:76-216 | an answer to a vote request carries the later of the two terms; one to an append request carries it if the request succeeds, and the term before the request if not |
| `RaftTerms.TermNeverFalls` | internal/zero/raft/rpc_handlers.go:76-216 | in every run the term of a node never falls |
| `RaftTerms.RepliesCarryTerms` | internal/zero/raft/rpc_handlers.go:76-216 | every reply in the net was sent by a node handling that request and carries a term that the node had then; if that was later than the request's, exactly it, and the reply is a refusal |
| `RaftTerms.SeenReply` | internal/zero/raft/replication.go:83-102 | in every run a node that sees a reply is then in the later of the two terms; if its term rose it is a follower without a vote and otherwise as it was; if not, only the leader of the request's term moves, by the answer to what it would send next |
| `RaftTerms.RefusedLeaderYields` | internal/zero/raft/replication.go:83-88 | once a leader has seen the answer of a node that refused its request for its term, it is in no earlier term than that node for the rest of the run |
| `RaftTerms.VoteIff` | internal/zero/raft/rpc_handlers.go:97-117 | a vote is granted exactly for a term not past, to a candidate not passed over in it, whose log is at least as up to date as the node's whole log |
| `RaftTerms.PreVoteIff` | internal/zero/raft/rpc_handlers.go:58-72 | a pre-vote is granted exactly for a term not past, when no leader was heard of within the timeout, to a candidate whose log is at least as up to date as the node's whole log |
| `RaftTerms.HeardLeaderShields` | internal/zero/raft/rpc_handlers.go:145-162 | a follower that has just taken a request in term names its leader and grants no pre-vote within the timeout, whatever is asked |
| `RaftTerms.HealthyLeaderStays` | internal/zero/raft/election.go:58-99 | while a majority has recently heard of a leader, no candidate outside it gets enough pre-votes to stand |
| `RaftTerms.KnownLeaderLed` | internal/zero/raft/rpc_handlers.go:145-152 | in every run whom a node takes for the leader has led a term, and no later one than the node is in |
| `RaftTerms.LeaderKnowsItself` | internal/zero/raft/election.go:201-205 | in every run a leader takes itself for the leader |
| `RaftCatchUp.ExchangeIff` | internal/zero/raft/replication.go:60-102 | one exchange with a follower that can write succeeds exactly where the follower agrees with the leader's log and can tell; then it holds all of that log and has committed what either had, and the leader knows; otherwise the leader goes one entry back |
| `RaftProgress.CatchesUpIff` | internal/zero/raft/replication.go:47-102 | from any moment of any run the requests of a leader to a member of no later term come to an end: with the member holding all of the leader's log exactly when some request that the leader can send from memory starts where the member can go on, and at the point where a snapshot is needed otherwise |
| `RaftProgress.Delivers` | internal/zero/raft/replication.go:218-255 | from any moment of any run a node can hand the rest of what it has committed to its state machine, and then has handed over exactly its committed log |
| `RaftProgress.CompactableIff` | internal/zero/raft/compact.go:62-80 | at any moment of any run a compaction passes its check exactly for an index behind the snapshot and not beyond the commit index, with the term of that entry in the whole log |
| `RaftTrails.Elect` | internal/zero/raft/election.go:129-194 | from any moment of any run a node that enough others would vote for can become leader of a later term |
| `RaftService.MajorityServes` | internal/zero/raft/lifecycle.go:94-136 | from any moment of any run a member of a majority whose log is up to date for it, and behind whose snapshot none of it lags, can be elected by it and have a new command committed and delivered by all of it, with no step of any other member |
| `RaftService.AnyMajorityServes` | internal/zero/raft/lifecycle.go:94-136 | from any moment of any run any majority whose members hold what any of them has compacted can by itself have a new command committed and delivered by all its members |
| `RaftFindings.InstallMatchesIff` | internal/zero/raft/snapshot_rpc.go:254-272 | a follower that may have compacted before installs a snapshot of a leader whose log matches its own: afterwards its whole log matches the leader's and its own former log exactly when it held nothing beyond the boundary or the boundary terms agreed |
| `RaftFindings.InstallBreaksMatching` | internal/zero/raft/snapshot_rpc.go:263-269 | a concrete follower that keeps an old suffix on top of a prefix that never had it |
| `RaftFindings.RestartGrantsIff` | internal/zero/raft/persistence.go:168-194 | a vote refused for its term or an earlier vote is granted after a restart exactly when the term rebuilt from entries allows it and the log is up to date |
| `RaftFindings.RestartVotesTwice` | internal/zero/raft/persistence.go:168-194 | one node, one term, two candidates: a restart between the requests and both are granted |
| `RaftRace.CommitFallsIff` | internal/zero/raft/rpc_handlers.go:120-213 | a request lowers a follower's commit index exactly when it is in term, continues the log, can be written, and ends below the commit index while announcing a higher one |
| `RaftRace.RaceFallsIff` | internal/zero/raft/replication.go:50-58 | compaction between the snapshot check and the building of the request, at any moments of a run: the request lowers the peer's commit index exactly when the leader takes the peer's log to be empty while the peer has committed something but less than the leader |
| `RaftRace.RaceLowersCommit` | internal/zero/raft/replication.go:50-58 | a run of any three nodes in which that race takes a follower's commit index from 1 to 0 |
| `RaftRollback.RollbackRemovesIff` | internal/zero/raft/lifecycle.go:116-128 | at any later moment of a run the rollback of a submission removes something exactly when length and offset are as after publishing, the published entry exactly when the term is also the same, another leader's entry otherwise, and a committed one exactly when the commit index is on it |
| `RaftRollback.RollbackReusesIff` | internal/zero/raft/lifecycle.go:116-128 | after a rollback one index and term name two commands, the new one and one that another node holds, exactly when the entry had reached that node and the commands differ |
| `RaftRollback.RollbackLosesOwnCommitted` | internal/zero/raft/lifecycle.go:105-128 | a run of any three nodes in which a leader rolls back an entry that it has committed and gives its index and term to another command |
| `RaftRollback.RollbackLosesForeignCommitted` | internal/zero/raft/lifecycle.go:118-125 | a run of any three nodes in which the rollback removes an entry of a later leader that the node acknowledged and that leader committed |
| `RaftLateScan.DeposedLeaderCommits` | internal/zero/raft/lifecycle.go:130-132 | a run of any five nodes at whose end the second half of a Submit, run by a leader deposed meanwhile, commits an entry where another node has committed a different one |
| `RaftLateScan.ScanIsSafeFor` | internal/zero/raft/replication.go:197-215 | in every state of the invariant the scan keeps it if the node leads or finds nothing to commit |
| `RaftLateScan.ScanNeedsMajority` | internal/zero/raft/replication.go:197-215 | any scan that moves the commit index keeps the invariant only if the logs of a majority hold all that it commits |
| `RaftLateScan.ScanSafeIff` | internal/zero/raft/replication.go:197-215 | a scan that moves the commit index, of a leader or of a deposed one, keeps the invariant for some decisions exactly when a majority has acknowledged what it commits to one leader of its own term or an earlier one |
| `Bytes.LeRoundTrip` | internal/zero/raft/wal_append.go:55-58 | a little-endian field reads back as the number that was put |
| `Bytes.UnLeRoundTrip` | internal/zero/raft/wal_read.go:80-82 | bytes of a field are recovered from the number they were read as |
| `Bytes.FoldAppend` | internal/zero/raft/pending_snapshot.go:160-176 | a running checksum over pieces is the checksum of the whole |
| `WalFormat.RecordReadIff` | internal/zero/raft/wal_read.go:68-115 | the reader accepts a record exactly where a well-formed frame of a decodable payload starts: bounds, checksum, keyed hash and JSON |
| `WalFormat.TamperedIff` | internal/zero/raft/wal_read.go:91-106 | tampering is found exactly where a record stands whole with its checksum right and its keyed hash wrong |
| `WalFormat.TamperedStops` | internal/zero/raft/wal_read.go:91-106 | a record with a wrong keyed hash ends the reading as tampered, with the entries in front of it |
| `WalFormat.CutFrameStops` | internal/zero/raft/wal_read.go:69-90 | a record cut short anywhere reads as corrupt, never as an entry and never as tampering |
| `WalFormat.ReadIsExact` | internal/zero/raft/wal_read.go:63-116 | the reader returns the longest run of good records and no more, and is clean exactly when nothing is left |
| `WalFormat.CutReads` | internal/zero/raft/wal_read.go:42-116 | any byte-level cut of a clean file reads as the entries whole before the cut, flagged corrupt exactly when a non-empty cut falls inside the magic or a record |
| `WalFormat.ReadBack` | internal/zero/raft/wal_append.go:45-75 | what was appended is read back, entry for entry |
| `LogFilter.UpToIsPrefix` | internal/zero/raft/wal_truncate.go:27-31 | on a log in index order TruncateAfter keeps exactly a prefix |
| `LogFilter.FromIsSuffix` | internal/zero/raft/wal_truncate.go:36-40 | on a log in index order TruncateBefore keeps exactly a suffix |
| `Wal.RunRefinesList` | internal/zero/raft/wal_truncate.go:42-127 | from a clean file, ReadAll after any sequence of appends, batches and truncations is the same sequence on a list, and clean |
| `Wal.TruncateRepairs` | internal/zero/raft/wal_truncate.go:42-61 | a torn file loses whole entries from its end only, and the next truncation makes it clean again |
| `Wal.Log.EnsureMagic` | internal/zero/raft/wal.go:213-242 | a log that opens is one whose reader gets past the magic and reads what it read before; any other file is left alone and reads as corrupt |
| `Wal.Log.AppendLocked` | internal/zero/raft/wal_append.go:45-75 | the two writes append one frame to the file that the handle is on; a write that fails leaves any prefix of the frame, and nothing is written for an entry that does not fit or through a closed handle |
| `Wal.Log.WriteBatchLocked` | internal/zero/raft/wal_append.go:128-144 | a batch writes its entries up to the first that does not fit or the byte at which the file fails, and succeeds exactly when all are written and the sync, if there is one, succeeds |
| `Wal.BatchReads` | internal/zero/raft/wal_append.go:128-144 | after a batch on a clean file the entries whole in what landed are read back behind the old ones, all of them when only the sync failed |
| `Wal.Log.ReadOne` | internal/zero/raft/wal_read.go:69-113 | the checks of one turn of the read loop in the order of the code |
| `Wal.Log.ReadAllLocked` | internal/zero/raft/wal_read.go:42-116 | the read loop over a file position returns the recursive reading of the file, or an error through a closed handle |
| `Wal.Log.FilterRewrite` | internal/zero/raft/wal_truncate.go:45-61 | wherever a file operation fails, the log is the old file or the filtered good prefix of it, and the new one exactly from the rename on; a tampered file is left alone with an error |
| `Wal.Log.RewriteLocked` | internal/zero/raft/wal_truncate.go:70-127 | creating, writing, syncing, closing, renaming and reopening, with a failure at any of them: the old file before the rename and the whole replacement after it; a failure at the rename or after it leaves a log whose handle is closed |
| `WalUpgrade.V2ReadIff` | internal/zero/raft/walupgrade/walupgrade.go:131-177 | the v2 reader returns a list of payloads exactly when the file is their frames followed by bytes on which no good record starts |
| `WalUpgrade.ReadFileV2` | internal/zero/raft/walupgrade/walupgrade.go:131-177 | the v2 read loop, its three refusals and its clean stop at a bad tail |
| `WalUpgrade.WriteV3` | internal/zero/raft/walupgrade/walupgrade.go:182-227 | the v3 file is the magic and one authenticated frame per payload, refused only for a payload over the cap |
| `WalUpgrade.FramesDecode` | internal/zero/raft/wal_read.go:63-116 | the runtime reader makes of such frames exactly the payloads, up to the first that is not an entry |
| `WalUpgrade.RawDecode` | internal/zero/raft/walupgrade/walupgrade.go:131-227 | read as raw payloads, the upgraded file is clean and holds the same list |
| `WalUpgrade.OpeningIff` | internal/zero/raft/wal.go:213-242 | every file is for one tool: the log opens it, the v2 conversion reads it, or both refuse it |
| `WalUpgrade.Directory.Upgrade` | internal/zero/raft/walupgrade/walupgrade.go:82-126 | the directory after an upgrade that stops at any file operation, by an error or a crash; a report means the runtime reader gets exactly what the v2 reader accepted, in order |
| `WalUpgrade.UpgradeStops` | internal/zero/raft/walupgrade/walupgrade.go:98-119 | wherever the upgrade stops some file of the directory holds the payloads; the old log is untouched exactly when it stopped before moving that away, and in the gap before the last rename a node starts on an empty log without an error |
| `WalUpgrade.UpgradeHidesLog` | internal/zero/raft/walupgrade/walupgrade.go:102-119 | a log of one record and a failing last rename: the node finds nothing and there is no backup |
| `SnapshotFile.LoadIff` | internal/zero/raft/snapshot_load.go:82-195 | a file loads as a snapshot exactly when it is, to the byte, what saving that snapshot writes |
| `SnapshotFile.LoadSnapshotReader` | internal/zero/raft/snapshot_load.go:82-139 | magic, header, exact size and checksum are checked in the order of the code |
| `SnapshotFile.SaveSnapshot` | internal/zero/raft/snapshot.go:111-177 | the sequence of writes produces the file image, refused exactly above the size cap |
| `SnapshotStream.ChunkKeeps` | internal/zero/raft/snapshot_rpc.go:95-158 | one chunk message keeps the pending bytes a prefix of their content, the file a whole content, and never lowers the snapshot index or the term |
| `SnapshotStream.StreamSafe` | internal/zero/raft/snapshot_rpc.go:46-295 | under any duplication, reordering and interleaving of chunks and any failing file operations the pending bytes are a prefix of the pending content, the installer is only given whole contents, and the snapshot index never falls |
| `SnapshotStream.SentPieces` | internal/zero/raft/snapshot_send.go:91-121 | every chunk the sender emits is a piece of its snapshot, and the last one says so |
| `SnapshotStream.SendStep` | internal/zero/raft/snapshot_send.go:70-122 | in an undisturbed send the last chunk is acknowledged exactly by a follower that accepts the snapshot, and an earlier one leaves it ready for the next |
| `SnapshotReceiver.Receiver.BeginPending` | internal/zero/raft/pending_snapshot.go:104-155 | a transfer starts with a header whose length and checksum are still zero; if the spill cannot be created nothing is pending |
| `SnapshotReceiver.Receiver.AppendPending` | internal/zero/raft/pending_snapshot.go:160-176 | a chunk is appended and added to the running checksum, or refused at the size cap or by a failing write |
| `SnapshotReceiver.Receiver.FinalizePending` | internal/zero/raft/pending_snapshot.go:196-241 | the patched spill file is byte for byte what SaveSnapshot writes for the bytes received; nothing is pending afterwards, also when patching or syncing fails |
| `SnapshotReceiver.Receiver.ReleasePending` | internal/zero/raft/pending_snapshot.go:74-93 | an aborted transfer leaves nothing pending |
| `SnapshotReceiver.Receiver.HandleInstallSnapshot` | internal/zero/raft/snapshot_rpc.go:46-105 | the handler, with its spill file and any one file operation failing, is the atomic chunk step: stale terms, a missing installer and covered snapshots first |
| `SnapshotReceiver.Receiver.Store` | internal/zero/raft/snapshot_rpc.go:107-295 | begin, offset check, append, finalize, install and rename in the order of the code, with a failure at any of the file operations |
| `SnapshotReceiver.Receiver.Installed` | internal/zero/raft/snapshot_rpc.go:254-272 | the node after an install: boundary, raised commit and applied index, kept suffix, raised offset |
| `SnapshotReceiver.SendInstallSnapshot` | internal/zero/raft/snapshot_send.go:51-132 | with any loss of requests and replies and any cancellation the send ends; the peer's indices move only after an accepting follower has the snapshot or already covered it; otherwise the follower keeps what it had unless a reply was lost, and the leader steps down only for a follower of a later term; without losses it succeeds exactly when the follower accepts |
| `SnapshotReceiver.ExchangeChunk` | internal/zero/raft/snapshot_send.go:134-156 | one exchange: the follower's chunk step unless the request is lost, and the answer with its later term unless the reply is |
| `SnapshotStream.UnderwayStep` | internal/zero/raft/snapshot_send.go:91-122 | each chunk keeps the transfer under way, completes it, or shows that the follower does not accept; the reply carries a later term exactly for a follower of one |
| `SnapshotStream.FaultDrops` | internal/zero/raft/snapshot_rpc.go:107-247 | a failing file operation changes nothing, or drops the transfer, keeps node and snapshot file, and is answered with a refusal |
| `SnapshotStream.RefusedDrops` | internal/zero/raft/snapshot_rpc.go:107-160 | a chunk in term that is refused ends its transfer; one that is taken starts a transfer or continues it exactly where it stands, and the reply says how far it has come |
| `SnapshotStream.ReplyTerms` | internal/zero/raft/snapshot_rpc.go:66-88 | every answer to a chunk carries the term that the follower is then in, and a chunk of an earlier term changes nothing |
| `SnapshotStream.HeardAlike` | internal/zero/raft/snapshot_rpc.go:82-93 | a chunk in term is heard as an append request of the same leader is |
| `SnapshotReceiver.SpillChunks` | internal/zero/raft/pending_snapshot.go:104-241 | for every chunking the finalized spill is byte for byte the saved file of the whole, loads back as it, and is refused exactly above the cap |
| `KeyCache.PutOrder` | internal/cluster/state.go:212-222 | an update never replaces an entry by an older one and changes the cache exactly when it is strictly newer than what is held |
| `KeyCache.MergeReflects` | internal/cluster/messages.go:147-166 | a merged state holds for every key a latest update of those either side received |
| `KeyCache.MergeTakesLatest` | internal/cluster/messages.go:147-166 | whatever a peer sends, a key keeps what it held unless the peer offers a strictly later entry, and a key without an offer is left alone |
| `KeyCache.HistoryReflects` | internal/cluster/state.go:212-222 | however a state came about, each key holds one of the latest updates received and nothing else is held |
| `KeyCache.ConvergesIff` | internal/cluster/state.go:212-222 | replicas that received the same updates, by updates and merges in any order, grouping and multiplicity, always agree exactly when no key has two different updates with its latest timestamp |
| `KeyCache.DistinctTimesSuffice` | internal/cluster/messages.go:147-166 | distinct timestamps per key are enough for replicas to converge |
| `KeyCache.TiesDiverge` | internal/cluster/state.go:217-219 | two updates with equal timestamps leave two replicas with different states |
| `KeyReplay.ReplayGrows` | internal/cluster/runtime.go:116-159 | applying more commands never makes any key older |
| `KeyReplay.ReplayReflects` | internal/cluster/runtime.go:116-159 | after any log each key holds one of the latest entries that the log brought for it, and nothing else is held |
| `KeyReplay.ReapplyIsIdle` | internal/cluster/runtime.go:116-159 | applying a command again that is already covered changes nothing |
| `KeyReplay.ReplayIdleIff` | internal/cluster/runtime.go:116-159 | replaying on from a prefix ends in the same cache exactly when no later command has an effect on that prefix |
| `KeyReplay.InstallKeepsReplayIff` | internal/cluster/snapshot.go:131-179 | after an install the cache is the replay of what its counter says exactly when the commands between snapshot and counter have no effect |
| `KeyReplay.InstallProvided` | internal/cluster/snapshot.go:94-179 | installing what another cache provided takes over its keys and never lowers the counter; another version and an undecodable payload are refused, an empty payload is the cache of an empty log |
| `KeyReplay.InstallRollsBack` | internal/cluster/snapshot.go:165-170 | a snapshot older than the counter takes the keys back and not the counter |
| `KeyReplay.Cluster.ApplyEntryLocked` | internal/cluster/state.go:212-222 | the nested map update is the last-writer-wins step, and reports a change exactly when there is one |
| `KeyReplay.Cluster.MergeState` | internal/cluster/messages.go:147-166 | the double loop gives the same merged state in whatever order the maps are walked |
| `KeyReplay.MergeServer` | internal/cluster/messages.go:156-164 | the inner loop decides every key of one server by itself and skips entries that are missing |
| `KeyReplay.Cluster.OnApplyCallback` | internal/cluster/runtime.go:116-159 | cache and counter move together, and the counter moves for malformed and unknown commands too |
| `KeyReplay.Cluster.SnapshotKeyState` | internal/cluster/snapshot.go:94-118 | the payload and the index that it reflects are taken at one moment |
| `KeyReplay.Cluster.InstallKeySnapshot` | internal/cluster/snapshot.go:131-179 | an empty payload clears the cache, a bad one or a wrong version changes nothing, a good one replaces it |
| `Recovery.SaveKeeps` | internal/zero/raft/compact.go:54-92 | the snapshot that a compaction saves is the replay of the history up to its index, with that entry's term |
| `Recovery.TrimKeeps` | internal/zero/raft/compact.go:125-129 | trimming the write-ahead log after a compaction loses nothing that the snapshot does not cover |
| `Recovery.RestartKeeps` | internal/zero/raft/persistence.go:93-196 | start-up never fails on the node's own files and gets back the snapshot's replay and the records behind it, however memory and file had moved apart |
| `Recovery.LoadRefusesIff` | internal/zero/raft/persistence.go:93-167 | start-up refuses exactly when the log is tampered with, or there is a snapshot file that is not one or whose payload the cache cannot take |
| `Recovery.TamperedRefused` | internal/zero/raft/persistence.go:134-150 | no log with a whole record of a wrong keyed hash behind good ones starts up, whatever the snapshot |
| `Recovery.StepKeeps` | internal/zero/raft/compact.go:54-129 | every append, publication, write of a record alone, truncation, cut of memory alone, application, stage of a compaction, compaction given up half-way and crash keeps node, cache and files explained |
| `Recovery.FilesDecide` | internal/zero/raft/persistence.go:134-194 | in every run, with writes that fail on one side only, the log and the cache follow the history; a crash at any point starts up to what the files spell, which is the history exactly when the records behind the snapshot are the rest of it |
| `Recovery.NothingIsLost` | internal/zero/raft/compact.go:54-129 | when memory and file move together, a crash at any point, inside a compaction or not, recovers the history itself |
| `Recovery.TornAppendLosesOnlyIt` | internal/zero/raft/persistence.go:134-167 | a crash anywhere inside the write of a record recovers what the files held before, and the entry as well when the record was whole |
| `FailedWrites.SurplusDecides` | internal/zero/raft/persistence.go:207-218 | in every run of a node and its files, with writes and cuts of the file that fail anywhere, later cuts and trims that may remove what they left, submissions persisted in any order or never, and restarts: start-up recovers the history only if the file holds as many records behind the snapshot as the history has entries there, and once all of the history has reached the file, exactly then |
| `FailedWrites.UnsubmittedReaches` | internal/zero/raft/persistence.go:207-218 | in a run without submissions all of the history has always reached the file |
| `FailedWrites.RetryDuplicates` | internal/zero/raft/wal_append.go:128-144 | a sync that fails after its record was written, and the retry: the entry is once in memory and twice in the log that starts up |
| `PersistOrder.CrashKeepsIff` | internal/zero/raft/lifecycle.go:94-132 | with submissions persisted in order at any delay, a crash leaves exactly the history up to what file or snapshot has reached; any prefix, the committed one included, survives exactly when they have reached that far |
| `NodeOnDisk.RunFollows` | internal/zero/raft/rpc_handlers.go:164-204 | in every run of the cluster, what happens to one node's log, with submissions persisted later, writes that fail at any point on one side or both, and compactions in between, is a run of the machine with files |
| `NodeOnDisk.RequestNumbered` | internal/zero/raft/replication.go:146-176 | the entries of every request ever sent carry the indices from the previous index on |
| `NodeOnDisk.ClusterFilesDecide` | internal/zero/raft/persistence.go:93-196 | in every run and for every pattern of failures and late persisting, a node that crashes starts up to what its files spell, and to its whole log exactly when the records behind its snapshot are the rest of that; its cache in the run is the replay of what it was handed |
| `NodeOnDisk.NodeRecoversIff` | internal/zero/raft/rpc_handlers.go:164-204 | in every run of the cluster, with any of its writes and cuts failing and its submissions persisted whenever: a node recovers its whole log only if its file has as many records behind the snapshot as the log has entries there, and once the whole log has reached the file, exactly then |
| `NodeOnDisk.FollowerReaches` | internal/zero/raft/rpc_handlers.go:164-204 | in every run, the whole log of a node that submits nothing has reached its file |
| `NodeOnDisk.ClusterNodeRecovers` | internal/zero/raft/lifecycle.go:94-132 | in every run in which the node's writes succeed, its submissions are persisted in order, however late, and a leader's entries are written behind persisted ones: a crash at any moment leaves the log up to what file or snapshot has reached; the whole log survives exactly when they have reached its end, what is committed exactly when they have reached the commit index |
| `DiskFindings.FailedCutDisplaces` | internal/zero/raft/persistence.go:212-218 | a run of any three nodes: the cut of a follower's file fails after its memory was cut, the retry is acknowledged and committed, and the files start up with the stale entry at its index |
| `DiskFindings.CommitsUnpersisted` | internal/zero/raft/lifecycle.go:104-116 | a run of any three nodes in which a leader commits and delivers an entry that its own file does not hold, against the comment that commitIndex waits for persisting |
| `DiskFindings.SwappedPersists` | internal/zero/raft/lifecycle.go:111-116 | a run of any three nodes in which two submissions are persisted in the other order and the files start up with the second entry first |
| `TornLog.TearHidesLater` | internal/zero/raft/persistence.go:134-167 | entries appended after a start on a torn log are missing at the next start, without an error, when the bytes at the tear read as corrupt; the start is refused when they read as tampered with |
| `TornLog.LaterReadIff` | internal/zero/raft/wal_read.go:63-116 | unless the torn bytes complete to a good record, entries appended after a crash are read back exactly when the crash fell between two records |
| `TornLog.OneByteTearLoses` | internal/zero/raft/wal_append.go:68-74 | whatever the hashes, with payloads below 256 bytes a crash after one byte of a record hides the entry appended after the restart |
| `Startup.LoadFromDisk` | internal/zero/raft/persistence.go:93-196 | both files and the installer are checked before anything changes; on success node and cache are those of the recovery model; on failure the node is untouched, and so is the cache unless the installer took the snapshot without reading all of it |
| `Startup.LoadedRestarts` | internal/zero/raft/persistence.go:163-194 | a node that start-up gives back is a follower without vote or known leader, in the latest term that its snapshot and log carry, with everything up to the snapshot committed and applied |
| `Startup.CachesAgree` | internal/cluster/runtime.go:116-159 | in every run of the cluster the caches of any two nodes that were handed equally many commands are equal, and one behind holds nothing newer |
| `MerkleHash.MthOfPair` | internal/zero/merkle/tree.go:120-150 | moving up one level, odd node promoted, does not change the recursive tree hash of section 2.1 of RFC 6962 |
| `MerkleHash.TopIsMth` | internal/zero/merkle/tree.go:120-150 | the top of the level-by-level tree is the recursive tree hash for every non-empty list |
| `MerkleHash.MthInjective` | internal/zero/merkle/hash.go:28-34 | with an injective node hash a tree hash determines the leaves of a list of known length |
| `MerkleTree.Tree.Rebuild` | internal/zero/merkle/tree.go:120-150 | the nested loops build exactly the levels, and the root is the tree hash of the leaves |
| `MerkleTree.NextLevel` | internal/zero/merkle/tree.go:131-146 | the pairing loop hashes pairs and promotes an odd last node |
| `MerkleTree.Tree.Add` | internal/zero/merkle/tree.go:53-62 | a leaf is hashed and appended, the tree stays valid, and the index is the old size |
| `MerkleTree.Tree.AddHash` | internal/zero/merkle/tree.go:65-73 | a hash is appended as it is, the tree stays valid, and the index is the old size |
| `MerkleTree.Tree.GetProof` | internal/zero/merkle/proof.go:30-75 | a proof exists exactly for indices in range, and is the audit path of section 2.1.1 of RFC 6962 with its sides |
| `MerkleTree.CollectPath` | internal/zero/merkle/proof.go:43-66 | walking up the levels and skipping promoted ones collects the RFC's path |
| `MerkleInclusion.PathLeadsToRoot` | internal/zero/merkle/proof.go:104-145 | folding the audit path from any leaf gives the tree hash |
| `MerkleInclusion.VerifyProof` | internal/zero/merkle/proof.go:80-145 | the checking loop computes the verdict: malformed, accepted or refused |
| `MerkleInclusion.ProofsAccepted` | internal/zero/merkle/proof.go:30-145 | every proof that the tree gives is accepted, promoted levels and all |
| `MerkleInclusion.AcceptedProofsAgree` | internal/zero/merkle/proof.go:80-145 | with an injective node hash two accepted proofs of one root with the same directions carry the same leaf and path |
| `MerkleInclusion.AcceptedProofIsInclusion` | internal/zero/merkle/proof.go:80-145 | an accepted proof with the directions of position i shows leaf i and its RFC path |
| `MerkleInclusion.AcceptedIff` | internal/zero/merkle/proof.go:80-145 | with an injective node hash and the directions of a position, a proof is accepted exactly when it carries that leaf and its audit path |
| `MerkleInclusion.MalformedIff` | internal/zero/merkle/proof.go:80-125 | a proof is malformed exactly when path and directions differ in length, the position is out of range, a direction is neither side, or some hash does not decode |
| `MerkleInclusion.NamedPositionUnchecked` | internal/zero/merkle/proof.go:80-103 | the index and size that a proof names are only range-checked: an accepted proof stays accepted under another name exactly when that is in range |
| `MerkleConsistency.VerifyConsistencyProof` | internal/zero/merkle/consistency.go:54-120 | the nested bit-shifting loops compute the verdict of the recursive climb |
| `MerkleConsistency.ClimbSound` | internal/zero/merkle/consistency.go:83-119 | a climb that reaches both roots shows, level by level, that the old leaves are the first of the new |
| `MerkleConsistency.AcceptedMeansPrefix` | internal/zero/merkle/consistency.go:54-120 | soundness: with an injective node hash, an accepted proof for the roots of two lists means that the old list is a prefix of the new |
| `MerkleConsistency.RfcProofAccepted` | internal/zero/merkle/consistency.go:83-119 | completeness: for all 0 < m < n the verifier accepts PROOF(m, D[n]) of section 2.1.2 of RFC 6962, with the old root in front when m is a power of two |
| `MerkleConsistency.AcceptedIff` | internal/zero/merkle/consistency.go:54-120 | with an injective node hash, between the hashes of two lists of leaves exactly the path of the RFC is accepted, and only if the first list is the beginning of the second |
| `MerkleConsistency.MalformedIff` | internal/zero/merkle/consistency.go:54-81 | a proof is malformed exactly when its sizes are not those of a tree and a beginning of it, or the tree has grown and the path is empty or some hash does not decode; of a tree that has not grown, accepted exactly with one root and no path |
| `MerkleTree.Tree.GetConsistencyProof` | internal/zero/merkle/consistency.go:32-49 | a proof exists exactly for old sizes from 1 to the size of the tree, and is the generated one |
| `MerkleTree.Tree.ConsistencyPath` | internal/zero/merkle/consistency.go:125-153 | the level loop collects the old root and the boundary nodes |
| `MerkleGenerator.GeneratedAcceptedIff` | internal/zero/merkle/consistency.go:125-153 | with a hash that is injective and never leads back, and leaves that are no node hashes, the verifier accepts the generated proof exactly between equal sizes and from two leaves to three |
| `MerkleGenerator.AcceptedFirst` | internal/zero/merkle/consistency.go:83-119 | from a power of two on, any accepted path that starts with the old root goes on with the hash of the leaves beside the old tree |
| `MerkleGenerator.AcceptedIsPower` | internal/zero/merkle/consistency.go:83-119 | an accepted path that starts with the old root means that the old size is a power of two |
| `MerkleGenerator.OneToTwoRefused` | internal/zero/merkle/consistency.go:125-153 | a tree of one leaf that grows to two has its generated proof refused |
| `CanonicalText.IntReadBack` | internal/zero/canonical/numbers.go:25-31 | a printed integer reads back as itself in front of anything but a digit |
| `CanonicalText.StringReadBack` | internal/zero/canonical/strings.go:19-57 | an escaped string reads back as itself, control characters, quotes and backslashes included |
| `CanonicalText.SortStringsSorts` | internal/zero/canonical/writer.go:131-135 | sorting keys that are all different gives them in strictly increasing order, none lost |
| `CanonicalText.SortedOnce` | internal/zero/canonical/writer.go:131-135 | there is only one increasing order of a set of keys, so the order in which a map yields them is irrelevant |
| `CanonicalShortest.EscapeIsCanonical` | internal/zero/canonical/strings.go:19-57 | of all literals that read as a character, the one written is a shortest, and the only one of its length with lower-case hex digits |
| `CanonicalShortest.LessIff` | internal/zero/canonical/writer.go:131-135 | keys are ordered by code points at their first difference, a prefix coming first |
| `CanonicalShortest.CanonicalIsShortest` | internal/zero/canonical/json.go:32-45 | no JSON text of a value is shorter than its canonical form |
| `CanonicalJson.ReadBack` | internal/zero/canonical/writer.go:25-150 | any value read from its own text, in front of anything but a digit, comes back with the rest untouched |
| `CanonicalJson.ParsePrint` | internal/zero/canonical/writer.go:25-150 | parsing the printed text of any value gives the value back |
| `CanonicalJson.KeysInOrder` | internal/zero/canonical/writer.go:130-150 | the keys of an object stand in its text in strictly increasing order, each once |
| `CanonicalJson.PrintInjective` | internal/zero/canonical/writer.go:25-150 | different values never share their bytes |
| `CanonicalJson.CanonicalTwice` | internal/zero/canonical/json.go:32-53 | canonical text is its own canonical form, and two texts have one form exactly when they parse to one value, surrogate pairs and halves of them included; a fraction or an exponent is refused |
| `CanonicalWriter.Writer.WriteValue` | internal/zero/canonical/writer.go:25-112 | over every kind of Go value the writer appends the text of what the value means, and fails exactly when some part has no meaning or an integer is out of range |
| `CanonicalWriter.Writer.WriteFloatNumber` | internal/zero/canonical/numbers.go:35-47 | a float is written exactly when it is a whole number in the safe range |
| `CanonicalWriter.Writer.WriteJsonNumber` | internal/zero/canonical/numbers.go:51-70 | a number literal is written exactly when it is a signed run of digits in the safe range, without its needless zeros and plus sign |
| `CanonicalWriter.StructToMap` | internal/zero/canonical/struct.go:22-52 | the field loop: unexported, dashed and empty-and-omitted fields left out, tags before names, later fields over earlier ones |
| `GoValues.DecodedMeans` | internal/zero/canonical/json.go:32-45 | what a decoder that keeps number literals gives for any JSON value means that value |
| `GoValues.NumbersAgree` | internal/zero/canonical/numbers.go:25-70 | a whole number means the same however it is held, and of floats only whole ones mean anything |
| `GoValues.PointersMean` | internal/zero/canonical/writer.go:79-112 | however many pointers lead to a value, it means what it means by itself; nothing at their end means null |
| `GoValues.TagMeans` | internal/zero/canonical/struct.go:32-46 | a tag names the key unless its name is empty; a dash leaves the field out, and so does omitempty as the first option of an empty field |
| `GoValues.EmptyIff` | internal/zero/canonical/struct.go:56-72 | a plain field counts as empty exactly when what it means is the zero value of its kind |
| `GoValues.LastNamed` | internal/zero/canonical/struct.go:26-49 | of the exported fields with one key the last counts |
| `GoValues.OnlyNamed` | internal/zero/canonical/struct.go:26-49 | every key comes from a field that names it |
| `CanonicalWriter.Writer.WriteInteger` | internal/zero/canonical/numbers.go:25-31 | an integer is written exactly when it lies within the safe range |
| `CanonicalWriter.Writer.WriteString` | internal/zero/canonical/strings.go:19-48 | the rune loop appends the quoted and escaped string |
| `CanonicalWriter.Writer.WriteRune` | internal/zero/canonical/strings.go:21-57 | the escape chosen for each rune |
| `CanonicalWriter.Writer.WriteArray` | internal/zero/canonical/writer.go:115-127 | the array loop puts commas between items only and stops at the first failing item |
| `CanonicalWriter.Writer.WriteObject` | internal/zero/canonical/writer.go:130-150 | the keys are taken from the map in any order, sorted, and then written |
| `CanonicalWriter.Writer.WriteFields` | internal/zero/canonical/writer.go:137-149 | the field loop over sorted keys |
| `CanonicalWriter.MarshalValue` | internal/zero/canonical/json.go:47-53 | the bytes of what the value means, or an error exactly when a part has no meaning or an integer is out of range |
| `CanonicalWriter.CanonicalForm` | internal/zero/canonical/json.go:32-45 | decoding and marshalling a text gives its canonical form, or an error exactly when there is none |
| `Wildcard.SplitMeans` | internal/keys/trustpolicy_runtime.go:78-81 | a name fills a pattern exactly when it is the parts between the stars in order, with anything between them |
| `Wildcard.GreedyIsEnough` | internal/keys/trustpolicy_runtime.go:99-108 | taking the first occurrence of each part loses no match |
| `Wildcard.FitMiddle` | internal/keys/trustpolicy_runtime.go:99-110 | the shrinking loop decides whether the middle parts fit one after another |
| `Wildcard.MatchWildcard` | internal/keys/trustpolicy_runtime.go:73-111 | the answer is yes exactly when some choice of strings for the stars gives the name; there is no answer exactly when prefix and suffix both fit but overlap, and then nothing matches |
| `Wildcard.PanicsOnSomeIff` | internal/keys/trustpolicy_runtime.go:83-97 | a pattern has a name on which the slicing panics exactly when some end of its first part begins its last part |
| `Wildcard.ShortNamePanics` | internal/keys/trustpolicy_runtime.go:83-97 | the pattern a*a and the name a |

## Left out

- RaftSafety.StateMachineSafety: runs have no restarts, no failed Submit persisting, no InstallSnapshot, no scan by a deposed leader and no compaction between catch-up check and request, because each breaks the property in the code; the modules named above say when.
- RaftLateScan.ScanNeedsMajority: necessary only; the exact condition, in terms of acknowledgements, is `RaftLateScan.ScanSafeIff`.
- RaftService.AnyMajorityServes: a continuation of the run that exists, not one that the timers bring about; a majority with a member that lacks what another has compacted needs a snapshot transfer, which is not a step of the runs (`RaftCatchUp.InstalledTakesNext` has what follows one).
- RaftService.MajorityServes: as `RaftService.AnyMajorityServes`, with the member that is elected given.
- RaftTerms.HealthyLeaderStays: whether a leader was heard of within the timeout is an input; clocks are not modelled.
- Recovery.StepKeeps: a restart is followed only when the recovered log is in index order; what a node does that goes on from a disordered log is not modelled.
- Recovery.NothingIsLost: runs in which memory and file move together; when they do not, `Recovery.FilesDecide`, `FailedWrites.SurplusDecides` and `PersistOrder.CrashKeepsIff` say what is recovered.
- FailedWrites.SurplusDecides: while part of the history has not reached the file the count is necessary only, and `Recovery.FilesDecide` has the exact condition; a failed write leaves a whole record or none, a partial one is `TornLog`.
- NodeOnDisk.NodeRecoversIff: the count is exact once the whole log has reached the file; until then `NodeOnDisk.ClusterFilesDecide` has the exact condition.
- NodeOnDisk.ClusterNodeRecovers: the rollback of a submission whose persisting failed is not part of the runs (`RaftRollback`); runs in which writes fail, or submissions reach the file out of order or after a new leader overruled them, are `NodeOnDisk.NodeRecoversIff`.
- NodeOnDisk.RunFollows: a crash ends the run; what a restarted node does to the protocol is `RaftFindings.RestartGrantsIff`.
- TornLog.TearHidesLater: says nothing when the torn bytes and those behind them happen to form a good record, which the keyed hash is there to prevent.
- SnapshotStream.StreamSafe: takes all snapshots of one index and term to have the same bytes, which the payload's deterministic JSON is meant to give.
- SnapshotReceiver.SendInstallSnapshot: no other message reaches leader or follower during the transfer; interleaved chunks are covered by `SnapshotStream.StreamSafe` only.
- SnapshotReceiver.Receiver.Store: a spill file that cannot be removed after a failure stays on disk and is not modelled; the next transfer truncates it.
- Startup.LoadFromDisk: the installer is that of the key cache, with a flag for one that does not read all its bytes.
- WalUpgrade.Directory.Upgrade: writing the new log is one file operation, torn by a crash in any way; the two checks of empty options are left out.
- CanonicalJson.CanonicalTwice: invalid UTF-8 in the input and the decoder's nesting limit of ten thousand levels are not modelled.
- CanonicalWriter.Writer.WriteValue: typed maps, slices and pointers are taken as the plain values that reflection makes of them, without the copies.
- The in-memory transfer buffer used when a node has no state directory.
- Errors of single reads, file permissions, and the group-commit queue in front of the batch write.
- Sockets, TLS, RPC encoding and authentication, timers, randomised timeouts, and fairness of messages and schedules.
- Recording and serving of Merkle roots, the fetcher, storage, HTTP handlers, configuration, metrics and the other trust-policy checks: input and output or easy members.
