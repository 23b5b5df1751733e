/**
 The raft node as the source keeps it: absolute log indices over a slice that starts after
 `offset` compacted entries. One function for each critical section under the node's lock.
 */
module RaftNode {
  import opened Options
  import opened RaftTypes
  import opened LogFilter

  datatype Node = Node(
    id: Id, peers: seq<Id>,
    role: Role, term: nat, votedFor: Id, leaderId: Id,
    log: seq<Entry>, offset: nat, snapIndex: nat, snapTerm: nat,
    commit: nat, lastApplied: nat,
    nextIndex: map<Id, nat>, matchIndex: map<Id, nat>)

  // ---- log_view.go --------------------------------------------------------------------------

  function LogLen(n: Node): nat {
    n.offset + |n.log|
  }

  function OffsetToSlot(i: nat, offset: nat, len: nat): Option<nat> {
    if i == 0 || i <= offset then None
    else if i - offset - 1 >= len then None
    else Some(i - offset - 1)
  }

  function EntryAt(n: Node, i: nat): Option<Entry> {
    match OffsetToSlot(i, n.offset, |n.log|)
    case None => None
    case Some(slot) => Some(n.log[slot])
  }

  function TermAt(n: Node, i: nat): Option<nat> {
    if i == 0 then Some(0)
    else if i == n.snapIndex then Some(n.snapTerm)
    else match EntryAt(n, i)
      case None => None
      case Some(e) => Some(e.term)
  }

  function LastIndexTerm(n: Node): (nat, nat) {
    if n.log == [] then (n.snapIndex, n.snapTerm)
    else (n.log[|n.log| - 1].index, n.log[|n.log| - 1].term)
  }

  function TruncateSliceAfter(log: seq<Entry>, offset: nat, lastKeep: nat): seq<Entry> {
    if lastKeep <= offset then []
    else match OffsetToSlot(lastKeep + 1, offset, |log|)
      case None => log
      case Some(slot) => log[..slot]
  }

  // ---- election.go --------------------------------------------------------------------------

  function StartElection(n: Node): Node {
    n.(term := n.term + 1, role := Candidate, votedFor := n.id)
  }

  function Ballot(n: Node): VoteRequest {
    VoteRequest(n.term, n.id, LastIndexTerm(n).0, LastIndexTerm(n).1)
  }

  function VotesNeeded(n: Node): nat {
    (|n.peers| + 1) / 2 + 1
  }

  function SetAll(m: map<Id, nat>, keys: seq<Id>, v: nat): map<Id, nat> {
    if keys == [] then m else SetAll(m, keys[..|keys| - 1], v)[keys[|keys| - 1] := v]
  }

  function BecomeLeader(n: Node): Node {
    n.(role := Leader, leaderId := n.id,
       nextIndex := SetAll(n.nextIndex, n.peers, LogLen(n) + 1),
       matchIndex := SetAll(n.matchIndex, n.peers, 0))
  }

  /** Any reply that reveals a later term turns the node into a follower of that term. */
  function SeeTerm(n: Node, term: nat): Node {
    if term > n.term then n.(term := term, role := Follower, votedFor := "") else n
  }

  // ---- rpc_handlers.go ----------------------------------------------------------------------

  predicate IsLogUpToDate(n: Node, lastIndex: nat, lastTerm: nat) {
    var (myIndex, myTerm) := LastIndexTerm(n);
    if lastTerm != myTerm then lastTerm > myTerm else lastIndex >= myIndex
  }

  /** recent: the node heard from a leader within the election timeout. */
  predicate GrantsPreVote(n: Node, req: VoteRequest, recent: bool) {
    && req.term >= n.term
    && !(recent && n.leaderId != "")
    && IsLogUpToDate(n, req.lastIndex, req.lastTerm)
  }

  datatype VoteOutcome = VoteOutcome(node: Node, term: nat, granted: bool)

  function OnVoteRequest(n: Node, req: VoteRequest): VoteOutcome {
    if req.term < n.term then VoteOutcome(n, n.term, false) else
    var m := SeeTerm(n, req.term);
    if (m.votedFor == "" || m.votedFor == req.candidate) && IsLogUpToDate(m, req.lastIndex, req.lastTerm)
    then VoteOutcome(m.(votedFor := req.candidate), m.term, true)
    else VoteOutcome(m, m.term, false)
  }

  datatype Absorbed = Absorbed(log: seq<Entry>, ok: bool)

  /**
   The loop over a request's entries, the first of which has index `first`. The write-ahead log
   accepts `ops` more writes and then fails.
   */
  function AbsorbEntries(log: seq<Entry>, offset: nat, first: nat, entries: seq<Entry>, ops: nat): Absorbed
    requires first >= 1
    decreases |entries|
  {
    if entries == [] then Absorbed(log, true) else
    match OffsetToSlot(first, offset, |log|)
    case Some(slot) =>
      if log[slot].term == entries[0].term then AbsorbEntries(log, offset, first + 1, entries[1..], ops) else
      var cut := TruncateSliceAfter(log, offset, first - 1);
      if ops < 2 then Absorbed(cut, false)
      else AbsorbEntries(cut + [entries[0]], offset, first + 1, entries[1..], ops - 2)
    case None =>
      if first > offset + |log| then
        if ops == 0 then Absorbed(log, false)
        else AbsorbEntries(log + [entries[0]], offset, first + 1, entries[1..], ops - 1)
      else AbsorbEntries(log, offset, first + 1, entries[1..], ops)
  }

  /** The writes to the log on disk that the entries of a request take. */
  function WritesNeeded(log: seq<Entry>, offset: nat, first: nat, entries: seq<Entry>): nat
    requires first >= 1
    decreases |entries|
  {
    if entries == [] then 0 else
    match OffsetToSlot(first, offset, |log|)
    case Some(slot) =>
      if log[slot].term == entries[0].term then WritesNeeded(log, offset, first + 1, entries[1..])
      else 2 + WritesNeeded(TruncateSliceAfter(log, offset, first - 1) + [entries[0]], offset, first + 1, entries[1..])
    case None =>
      if first > offset + |log| then 1 + WritesNeeded(log + [entries[0]], offset, first + 1, entries[1..])
      else WritesNeeded(log, offset, first + 1, entries[1..])
  }

  lemma {:induction false} WritesSuffice(log: seq<Entry>, offset: nat, first: nat, entries: seq<Entry>, ops: nat)
    requires first >= 1
    ensures AbsorbEntries(log, offset, first, entries, ops).ok <==> ops >= WritesNeeded(log, offset, first, entries)
    decreases |entries|
  {
    if entries != [] {
      match OffsetToSlot(first, offset, |log|)
      case Some(slot) =>
        var cut := TruncateSliceAfter(log, offset, first - 1);
        if log[slot].term == entries[0].term {
          WritesSuffice(log, offset, first + 1, entries[1..], ops);
        } else if ops >= 2 {
          WritesSuffice(cut + [entries[0]], offset, first + 1, entries[1..], ops - 2);
        }
      case None =>
        if first <= offset + |log| {
          WritesSuffice(log, offset, first + 1, entries[1..], ops);
        } else if ops > 0 {
          WritesSuffice(log + [entries[0]], offset, first + 1, entries[1..], ops - 1);
        }
    }
  }

  datatype AppendOutcome = AppendOutcome(node: Node, term: nat, success: bool)

  /** The follower after the term, the role and the leader of a request are taken over. */
  function Hear(n: Node, req: AppendRequest): Node {
    n.(term := req.term, votedFor := if req.term > n.term then "" else n.votedFor,
       role := Follower, leaderId := req.leader)
  }

  function OnAppendRequest(n: Node, req: AppendRequest, ops: nat): AppendOutcome {
    if req.term < n.term then AppendOutcome(n, n.term, false) else
    var m := Hear(n, req);
    if req.prevIndex > 0 && TermAt(m, req.prevIndex) != Some(req.prevTerm) then AppendOutcome(m, n.term, false) else
    var a := AbsorbEntries(m.log, m.offset, req.prevIndex + 1, req.entries, ops);
    if !a.ok then AppendOutcome(m.(log := a.log), n.term, false) else
    var lastNew := req.prevIndex + |req.entries|;
    AppendOutcome(
      m.(log := a.log,
         commit := if req.leaderCommit > m.commit then Min(req.leaderCommit, lastNew) else m.commit),
      m.term, true)
  }

  // ---- replication.go -----------------------------------------------------------------------

  predicate NeedsSnapshot(n: Node, peer: Id) {
    n.role == Leader && n.snapIndex > 0 && peer in n.nextIndex && n.nextIndex[peer] <= n.snapIndex
  }

  /** The request that a leader builds from what it holds in memory for a peer. */
  function TailFor(n: Node, peer: Id): Option<AppendRequest> {
    if n.role != Leader || Lookup(n.nextIndex, peer) == 0 then None else
    var next := Lookup(n.nextIndex, peer);
    var prevTerm := match TermAt(n, next - 1) case Some(t) => t case None => 0;
    var entries := match OffsetToSlot(next, n.offset, |n.log|) case Some(slot) => n.log[slot..] case None => [];
    Some(AppendRequest(n.term, n.id, next - 1, prevTerm, entries, n.commit))
  }

  /** The request a leader sends a peer, or nothing when it does not lead or must send a snapshot. */
  function NextAppend(n: Node, peer: Id): Option<AppendRequest> {
    if NeedsSnapshot(n, peer) then None else TailFor(n, peer)
  }

  function CountMatches(n: Node, i: nat, peers: seq<Id>): nat {
    if peers == [] then 1
    else CountMatches(n, i, peers[..|peers| - 1]) +
         if Lookup(n.matchIndex, peers[|peers| - 1]) >= i then 1 else 0
  }

  predicate Committable(n: Node, i: nat) {
    TermAt(n, i) == Some(n.term) && CountMatches(n, i, n.peers) > (|n.peers| + 1) / 2
  }

  /** The commit index after looking at every index up to `upTo`. */
  function ScanCommit(n: Node, upTo: nat): nat {
    if upTo <= n.commit then n.commit
    else if Committable(n, upTo) then upTo
    else ScanCommit(n, upTo - 1)
  }

  /** The scan ends at the largest committable index above the commit index, if there is one. */
  lemma {:induction false} ScanIsLargest(n: Node, upTo: nat)
    ensures var c := ScanCommit(n, upTo);
            && (c == n.commit || (n.commit < c <= upTo && Committable(n, c)))
            && forall i :: c < i <= upTo ==> !Committable(n, i)
    decreases upTo
  {
    if upTo > n.commit && !Committable(n, upTo) { ScanIsLargest(n, upTo - 1); }
  }

  function UpdateCommit(n: Node): Node {
    n.(commit := ScanCommit(n, LogLen(n)))
  }

  function OnAppendReply(n: Node, peer: Id, req: AppendRequest, term: nat, success: bool): Node {
    if term > n.term then SeeTerm(n, term)
    else if n.role != Leader || n.term != req.term || Lookup(n.nextIndex, peer) != req.prevIndex + 1 then n
    else if success then
      var next := req.prevIndex + 1 + |req.entries|;
      UpdateCommit(n.(nextIndex := n.nextIndex[peer := next], matchIndex := n.matchIndex[peer := next - 1]))
    else if Lookup(n.nextIndex, peer) > 1 then
      n.(nextIndex := n.nextIndex[peer := Lookup(n.nextIndex, peer) - 1])
    else n
  }

  /** One round of the apply loop: the node and what it hands to the state machine. */
  function ApplyNext(n: Node): (Node, Option<Entry>) {
    if n.lastApplied >= n.commit then (n, None)
    else (n.(lastApplied := n.lastApplied + 1), EntryAt(n, n.lastApplied + 1))
  }

  // ---- lifecycle.go -------------------------------------------------------------------------

  /** The entry that a submission publishes. */
  function Published(n: Node, command: string): Entry {
    Entry(LogLen(n) + 1, n.term, command)
  }

  function Publish(n: Node, command: string): Node {
    n.(log := n.log + [Published(n, command)])
  }

  /**
   A submission whose entry could not be persisted: the top of the log goes if it has the length and the
   index of that entry.
   */
  function Rollback(n: Node, publishedLen: nat, index: nat): Node {
    if |n.log| == publishedLen && |n.log| > 0 && n.log[|n.log| - 1].index == index
    then n.(log := n.log[..|n.log| - 1]) else n
  }

  // ---- compact.go ---------------------------------------------------------------------------

  /** The first critical section of CompactLog: the boundary term, when the index can be compacted. */
  function CompactCheck(n: Node, index: nat): Option<nat> {
    if index == 0 || index <= n.snapIndex || index > n.commit then None else TermAt(n, index)
  }

  /** The second critical section, after the snapshot file has been written. */
  function CompactDrop(n: Node, index: nat, term: nat): Node {
    if index <= n.snapIndex then n else
    var log' :=
      if index > n.offset then
        match OffsetToSlot(index + 1, n.offset, |n.log|)
        case Some(slot) => n.log[slot..]
        case None => []
      else n.log;
    n.(log := log', offset := index, snapIndex := index, snapTerm := term)
  }

  // ---- snapshot_rpc.go ----------------------------------------------------------------------

  /** The node part of handleInstallSnapshot, once the state machine has taken the payload. */
  function InstallSnapshot(n: Node, index: nat, term: nat): Node {
    n.(snapIndex := index, snapTerm := term, commit := Max(n.commit, index), lastApplied := Max(n.lastApplied, index),
       log := Filter(From(index + 1), n.log), offset := Max(n.offset, index))
  }
}
