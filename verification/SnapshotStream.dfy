/**
 Streaming a snapshot to a lagging follower in chunks: what one chunk does to the follower, and
 what any sequence of chunks does (internal/zero/raft/snapshot_rpc.go, snapshot_send.go).
 */
module SnapshotStream {
  import opened Options
  import opened Bytes
  import opened RaftTypes
  import opened RaftNode
  import opened SnapshotFile

  const CHUNK: nat := 0x8_0000

  datatype Chunk = Chunk(
    term: nat, leader: Id, index: Long, lastTerm: Long, offset: nat, done: bool, data: seq<Byte>)

  datatype Reply = Reply(term: nat, success: bool, stored: nat)

  datatype Pending = Idle | Open(index: Long, term: Long, bytes: seq<Byte>)

  datatype Replica = Replica(node: Node, pending: Pending, disk: Option<seq<Byte>>)

  /** Whether the state machine takes the snapshot and reads all of it. */
  type Installer = Snapshot -> bool

  /** The file operation that fails: creating the spill, appending to it, finalizing it, or renaming it into place. */
  datatype Fault = NoFault | AtBegin | AtAppend | AtFinalize | AtRename

  /** `given` is what was handed to the installer, whether it took it or not. */
  datatype Outcome = Outcome(replica: Replica, reply: Reply, given: Option<Snapshot>)

  function Hears(n: Node, req: Chunk): Node {
    n.(term := Max(n.term, req.term), votedFor := if req.term > n.term then "" else n.votedFor,
       role := Follower, leaderId := req.leader)
  }

  /** A chunk of a leader in term is heard as any of its requests is. */
  lemma HeardAlike(n: Node, req: Chunk, append: AppendRequest)
    requires req.term >= n.term && append.term == req.term && append.leader == req.leader
    ensures Hears(n, req) == Hear(n, append)
    ensures req.leader != "" ==> forall ask :: !GrantsPreVote(Hears(n, req), ask, true)
  {
  }

  predicate Restarts(p: Pending, req: Chunk) {
    req.offset == 0 || p == Idle || p.index != req.index || p.term != req.lastTerm
  }

  function Resumed(p: Pending, req: Chunk): (r: Pending)
    ensures r.Open? && r.index == req.index && r.term == req.lastTerm
  {
    if Restarts(p, req) then Open(req.index, req.lastTerm, []) else p
  }

  function OnChunk(step: Step, installer: Option<Installer>, f: Replica, req: Chunk, fault: Fault): Outcome {
    if req.term < f.node.term || installer.None? then Outcome(f, Reply(f.node.term, false, 0), None) else
    var n := Hears(f.node, req);
    if req.index <= n.snapIndex && n.snapIndex > 0 then Outcome(f.(node := n), Reply(n.term, true, 0), None) else
    OnStored(step, installer.value, f.(node := n), req, fault)
  }

  /** A chunk past the term and staleness checks. */
  function OnStored(step: Step, installer: Installer, f: Replica, req: Chunk, fault: Fault): Outcome {
    var p := Resumed(f.pending, req);
    var bytes := p.bytes + req.data;
    var dropped := Outcome(f.(pending := Idle), Reply(f.node.term, false, 0), None);
    if Restarts(f.pending, req) && fault == AtBegin then dropped
    else if req.offset != |p.bytes| || |bytes| > MAX_SIZE || fault == AtAppend then dropped
    else if !req.done
    then Outcome(f.(pending := p.(bytes := bytes)), Reply(f.node.term, true, |bytes|), None)
    else if fault == AtFinalize then dropped
    else
      var snap := Snapshot(req.index, req.lastTerm, bytes);
      if !installer(snap) || fault == AtRename then dropped.(given := Some(snap))
      else
        var done := Replica(InstallSnapshot(f.node, req.index, req.lastTerm), Idle, Some(Image(step, snap)));
        Outcome(done, Reply(f.node.term, true, |bytes|), Some(snap))
  }

  /** faults says which file operation fails in the handling of each chunk. */
  function After(step: Step, installer: Option<Installer>, f: Replica, reqs: seq<Chunk>,
        faults: nat -> Fault): Replica {
    if reqs == [] then f
    else
      var last := |reqs| - 1;
      OnChunk(step, installer, After(step, installer, f, reqs[..last], faults), reqs[last], faults(last)).replica
  }

  /** What the k-th chunk of the run brought about. */
  function At(step: Step, installer: Option<Installer>, f: Replica, reqs: seq<Chunk>, faults: nat -> Fault,
        k: nat): Outcome
    requires k < |reqs|
  {
    OnChunk(step, installer, After(step, installer, f, reqs[..k], faults), reqs[k], faults(k))
  }

  // ---- Whatever the order, the repetition and the mix of transfers ----------------------------

  /** All snapshots of one index and term have the same bytes. */
  type Contents = (Long, Long) -> seq<Byte>

  /** The chunk is a piece of the content it names, and says it is the last only if it is. */
  ghost predicate PieceOf(content: Contents, req: Chunk) {
    var whole := content(req.index, req.lastTerm);
    && req.offset + |req.data| <= |whole|
    && req.data == whole[req.offset..req.offset + |req.data|]
    && (req.done ==> req.offset + |req.data| == |whole|)
  }

  ghost predicate PendingOk(content: Contents, p: Pending) {
    p.Open? ==> p.bytes <= content(p.index, p.term) && |p.bytes| <= MAX_SIZE
  }

  ghost predicate DiskOk(step: Step, content: Contents, f: Replica) {
    f.disk.Some? ==>
      && f.node.snapIndex < 0x1_0000_0000_0000_0000 && f.node.snapTerm < 0x1_0000_0000_0000_0000
      && var whole := content(f.node.snapIndex, f.node.snapTerm);
         |whole| <= MAX_SIZE && f.disk.value == Image(step, Snapshot(f.node.snapIndex, f.node.snapTerm, whole))
  }

  lemma ChunkKeeps(step: Step, installer: Option<Installer>, content: Contents, f: Replica, req: Chunk, fault: Fault)
    requires PieceOf(content, req) && PendingOk(content, f.pending) && DiskOk(step, content, f)
    ensures var r := OnChunk(step, installer, f, req, fault);
            && PendingOk(content, r.replica.pending) && DiskOk(step, content, r.replica)
            && f.node.snapIndex <= r.replica.node.snapIndex && f.node.term <= r.replica.node.term
            && (r.given.Some? ==> r.given.value.data == content(r.given.value.index, r.given.value.term))
  {
    hide Image, InstallSnapshot;
    var p := Resumed(f.pending, req);
    var whole := content(req.index, req.lastTerm);
    if req.offset == |p.bytes| {
      assert p.bytes + req.data == whole[..req.offset + |req.data|];
      assert whole[..|whole|] == whole;
    }
    InstalledAt(Hears(f.node, req), req.index, req.lastTerm);
  }

  lemma InstalledAt(n: Node, index: nat, term: nat)
    ensures var m := InstallSnapshot(n, index, term); m.snapIndex == index && m.snapTerm == term && m.term == n.term
  {
  }

  /**
   In every run of chunk messages, whatever file operations fail, the bytes held are a prefix of the
   content of the pending index and term, the file on disk is the whole content of the node's snapshot,
   the installer is only ever given a whole content, and the snapshot index never falls.
   */
  lemma {:induction false} StreamSafe(
      step: Step, installer: Option<Installer>, content: Contents, f: Replica, reqs: seq<Chunk>, faults: nat -> Fault)
    requires forall k :: 0 <= k < |reqs| ==> PieceOf(content, reqs[k])
    requires PendingOk(content, f.pending) && DiskOk(step, content, f)
    ensures var g := After(step, installer, f, reqs, faults);
            PendingOk(content, g.pending) && DiskOk(step, content, g) && f.node.snapIndex <= g.node.snapIndex
    ensures forall k :: 0 <= k < |reqs| ==>
              var given := At(step, installer, f, reqs, faults, k).given;
              given.Some? ==> given.value.data == content(given.value.index, given.value.term)
  {
    hide OnChunk, PendingOk, DiskOk, PieceOf;
    if reqs != [] {
      var last := |reqs| - 1;
      var before := reqs[..last];
      StreamSafe(step, installer, content, f, before, faults);
      ChunkKeeps(step, installer, content, After(step, installer, f, before, faults), reqs[last], faults(last));
      forall k | 0 <= k < |reqs|
        ensures var given := At(step, installer, f, reqs, faults, k).given;
                given.Some? ==> given.value.data == content(given.value.index, given.value.term)
      {
        if k < last {
          assert before[..k] == reqs[..k];
          assert At(step, installer, f, reqs, faults, k) == At(step, installer, f, before, faults, k);
        }
      }
    }
  }

  // ---- An undisturbed send --------------------------------------------------------------------

  function ChunkAt(s: Snapshot, term: nat, leader: Id, offset: nat): (c: Chunk)
    requires offset <= |s.data|
  {
    var end := Min(offset + CHUNK, |s.data|);
    Chunk(term, leader, s.index, s.term, offset, end == |s.data|, s.data[offset..end])
  }

  /** Every chunk that the sender emits is a piece of the snapshot it sends. */
  lemma SentPieces(content: Contents, s: Snapshot, term: nat, leader: Id, offset: nat)
    requires content(s.index, s.term) == s.data && offset <= |s.data|
    ensures PieceOf(content, ChunkAt(s, term, leader, offset))
  {
  }

  predicate Covered(n: Node, s: Snapshot) {
    s.index <= n.snapIndex && n.snapIndex > 0
  }

  /** Whether the follower takes the whole send: in term, able to install, and either past it or content with it. */
  predicate Accepts(installer: Option<Installer>, f: Replica, s: Snapshot, term: nat) {
    && f.node.term <= term && installer.Some?
    && (Covered(f.node, s) || (|s.data| <= MAX_SIZE && installer.value(s)))
  }

  /** What the follower is left with when it accepts and nothing else reaches it during the send. */
  function Sent(step: Step, f: Replica, s: Snapshot, term: nat, leader: Id): Replica
    requires Covered(f.node, s) || |s.data| <= MAX_SIZE
  {
    var n := Hears(f.node, ChunkAt(s, term, leader, 0));
    if Covered(f.node, s) then f.(node := n)
    else Replica(InstallSnapshot(n, s.index, s.term), Idle, Some(Image(step, s)))
  }

  /** The follower has just been sent all before `offset`. */
  predicate MidSend(f: Replica, s: Snapshot, offset: nat) {
    && offset <= |s.data|
    && (offset > 0 && !Covered(f.node, s) ==> f.pending == Open(s.index, s.term, s.data[..offset]))
  }

  /**
   One chunk of the send: the last is acknowledged exactly by a follower that accepts, an earlier one
   leaves it ready for the next.
   */
  lemma SendStep(step: Step, installer: Option<Installer>, f: Replica, s: Snapshot, term: nat, leader: Id, offset: nat)
    requires MidSend(f, s, offset)
    ensures var c := ChunkAt(s, term, leader, offset);
            var r := OnChunk(step, installer, f, c, NoFault);
            && (c.done ==> r.reply.success == Accepts(installer, f, s, term))
            && r.reply.stored == (if !r.reply.success || Covered(f.node, s) then 0 else offset + |c.data|)
            && (!r.reply.success ==>
                  && !Accepts(installer, f, s, term)
                  && r.replica.node.snapIndex == f.node.snapIndex && r.replica.disk == f.disk)
            && (r.reply.success && c.done ==> r.replica == Sent(step, f, s, term, leader))
            && (r.reply.success && !c.done ==>
                  && MidSend(r.replica, s, offset + CHUNK)
                  && r.replica.node.snapIndex == f.node.snapIndex && r.replica.disk == f.disk
                  && Accepts(installer, r.replica, s, term) == Accepts(installer, f, s, term)
                  && (Accepts(installer, f, s, term) ==>
                        Sent(step, r.replica, s, term, leader) == Sent(step, f, s, term, leader)))
  {
    hide Image, InstallSnapshot;
    var req := ChunkAt(s, term, leader, offset);
    var end := Min(offset + CHUNK, |s.data|);
    assert s.data[..offset] + s.data[offset..end] == s.data[..end];
    assert s.data[..|s.data|] == s.data;
    InstalledAt(Hears(f.node, req), s.index, s.term);
  }

  /**
   Every answer carries the term that the follower is then in: its own if that is later, or if it cannot
   install and so ignores the chunk, and the sender's otherwise. One of a later term changes nothing.
   */
  lemma ReplyTerms(step: Step, installer: Option<Installer>, f: Replica, req: Chunk, fault: Fault)
    ensures var r := OnChunk(step, installer, f, req, fault);
            && r.reply.term == r.replica.node.term
            && r.replica.node.term == (if installer.None? then f.node.term else Max(f.node.term, req.term))
            && (req.term < f.node.term || installer.None? ==> r.replica == f && !r.reply.success && r.reply.stored == 0)
  {
    hide Image, InstallSnapshot;
    InstalledAt(Hears(f.node, req), req.index, req.lastTerm);
  }

  /** The follower that was `start` has taken everything before `offset`. */
  ghost predicate Underway(step: Step, installer: Option<Installer>, f: Replica, start: Replica, s: Snapshot,
        term: nat, leader: Id, offset: nat) {
    && (offset == 0 ==> f == start) && (offset > 0 ==> f.node.term <= term && start.node.term <= term)
    && MidSend(f, s, offset) && f.node.snapIndex == start.node.snapIndex && f.disk == start.disk
    && Accepts(installer, f, s, term) == Accepts(installer, start, s, term)
    && (Accepts(installer, f, s, term) ==> Sent(step, f, s, term, leader) == Sent(step, start, s, term, leader))
  }

  lemma Undertaken(step: Step, installer: Option<Installer>, f: Replica, s: Snapshot, term: nat, leader: Id)
    ensures Underway(step, installer, f, f, s, term, leader, 0)
  {
  }

  lemma UnderwayKeeps(step: Step, installer: Option<Installer>, f: Replica, start: Replica, s: Snapshot, term: nat,
        leader: Id, offset: nat)
    requires Underway(step, installer, f, start, s, term, leader, offset)
    ensures f.node.snapIndex == start.node.snapIndex && f.disk == start.disk
  {
  }

  /**
   A chunk in term that is refused ends its transfer. One that is taken and is not behind the follower's
   snapshot starts a transfer or continues it where it stands, and the reply says how far it has come.
   */
  lemma RefusedDrops(step: Step, installer: Option<Installer>, f: Replica, req: Chunk, fault: Fault)
    requires req.term >= f.node.term && installer.Some?
    ensures var r := OnChunk(step, installer, f, req, fault);
            var p := r.replica.pending;
            && (!r.reply.success ==> p == Idle && r.reply.stored == 0 && r.replica.disk == f.disk)
            && (r.reply.success && (req.index > f.node.snapIndex || f.node.snapIndex == 0) ==>
                  var before := if req.offset == 0 || f.pending == Idle then [] else f.pending.bytes;
                  && r.reply.stored == req.offset + |req.data|
                  && (req.offset > 0 ==>
                        f.pending.Open? && f.pending.index == req.index && f.pending.term == req.lastTerm)
                  && |before| == req.offset
                  && var bytes := before + req.data;
                     if req.done then p == Idle && r.given == Some(Snapshot(req.index, req.lastTerm, bytes))
                     else p == Open(req.index, req.lastTerm, bytes))
  {
    hide Image, InstallSnapshot;
  }

  /** A failing file operation changes nothing, or drops the transfer and is answered with a refusal. */
  lemma FaultDrops(step: Step, installer: Option<Installer>, f: Replica, req: Chunk, fault: Fault)
    ensures var r, r0 := OnChunk(step, installer, f, req, fault), OnChunk(step, installer, f, req, NoFault);
            || (r.replica == r0.replica && r.reply == r0.reply)
            || (!r.reply.success && r.replica.node.snapIndex == f.node.snapIndex && r.replica.disk == f.disk
               && r.replica.pending == Idle)
  {
    hide Image, InstallSnapshot;
  }

  lemma UnderwayStep(step: Step, installer: Option<Installer>, f: Replica, start: Replica, s: Snapshot, term: nat,
        leader: Id, offset: nat, fault: Fault)
    requires Underway(step, installer, f, start, s, term, leader, offset)
    ensures var c := ChunkAt(s, term, leader, offset);
            var r, accepts := OnChunk(step, installer, f, c, fault), Accepts(installer, start, s, term);
            && (c.done && r.reply.success ==> accepts && r.replica == Sent(step, start, s, term, leader))
            && (!c.done && r.reply.success ==>
                  Underway(step, installer, r.replica, start, s, term, leader, offset + CHUNK))
            && (!r.reply.success && fault == NoFault ==> !accepts)
            && (!(c.done && r.reply.success) ==>
                  r.replica.node.snapIndex == start.node.snapIndex && r.replica.disk == start.disk)
            && (if start.node.term > term then !r.reply.success && r.reply.term == start.node.term
                else r.reply.term <= term)
  {
    hide OnChunk, Sent, Accepts;
    SendStep(step, installer, f, s, term, leader, offset);
    ReplyTerms(step, installer, f, ChunkAt(s, term, leader, offset), fault);
    ReplyTerms(step, installer, f, ChunkAt(s, term, leader, offset), NoFault);
    FaultDrops(step, installer, f, ChunkAt(s, term, leader, offset), fault);
  }
}
