/**
 The follower's end of a snapshot transfer, spilling chunks to a file whose header is patched last,
 and the leader's send loop (internal/zero/raft/pending_snapshot.go, snapshot_rpc.go, snapshot_send.go).
 */
module SnapshotReceiver {
  import opened Options
  import opened Bytes
  import opened RaftTypes
  import opened RaftNode
  import opened RaftServer
  import opened LogFilter
  import opened SnapshotFile
  import opened SnapshotStream

  class Receiver {
    const server: Server
    const step: Step
    const installer: Option<Installer>
    var spill: Option<seq<Byte>>
    var expected: nat
    var index: Long
    var term: Long
    var crc: Word
    var disk: Option<seq<Byte>>

    constructor (server: Server, step: Step, installer: Option<Installer>, onDisk: Option<seq<Byte>>)
      ensures this.server == server && this.step == step && this.installer == installer
      ensures Valid() && View() == Replica(server.View(), Idle, onDisk)
    {
      this.server, this.step, this.installer := server, step, installer;
      spill, expected, index, term, crc, disk := None, 0, 0, 0, 0, onDisk;
    }

    ghost predicate Valid()
      reads this
    {
      match spill
      case None => expected == 0
      case Some(file) =>
        && |file| == HEADER + expected && expected <= MAX_SIZE
        && file[..HEADER] == Header(index, term, 0, 0) && crc == Fold(step, 0, file[HEADER..])
    }

    ghost function Held(): Pending
      reads this
    {
      if spill.Some? && |spill.value| >= HEADER then Open(index, term, spill.value[HEADER..]) else Idle
    }

    ghost function View(): Replica
      reads this, server
    {
      Replica(server.View(), Held(), disk)
    }

    method ReleasePending()
      modifies this`spill, this`expected, this`index, this`term, this`crc
      ensures Valid() && Held() == Idle
    {
      expected, index, term, crc := 0, 0, 0, 0;
      spill := None;
    }

    method BeginPending(lastIndex: Long, lastTerm: Long, fault: Fault) returns (ok: bool)
      modifies this`spill, this`expected, this`index, this`term, this`crc
      ensures Valid() && ok == (fault != AtBegin) && ok == spill.Some?
      ensures Held() == if ok then Open(lastIndex, lastTerm, []) else Idle
    {
      ReleasePending();
      index, term := lastIndex, lastTerm;
      if fault == AtBegin { return false; }
      var file := MAGIC;
      file := file + (Le(lastIndex, 8) + Le(lastTerm, 8) + Le(0, 4));
      file := file + Le(0, 4);
      assert file == Header(lastIndex, lastTerm, 0, 0);
      assert file[..HEADER] == file;
      spill, crc := Some(file), 0;
      return true;
    }

    /** A write that fails may leave part of the chunk in the spill; every caller then drops the transfer. */
    method AppendPending(data: seq<Byte>, fault: Fault) returns (ok: bool)
      requires Valid() && spill.Some?
      modifies this`spill, this`expected, this`crc
      ensures Valid() && spill.Some?
      ensures ok == (|old(Held()).bytes + data| <= MAX_SIZE && fault != AtAppend)
      ensures Held() == if ok then old(Held()).(bytes := old(Held()).bytes + data) else old(Held())
    {
      hide Header;
      var newSize := expected + |data|;
      if newSize > MAX_SIZE || fault == AtAppend { return false; }
      FoldAppend(step, 0, spill.value[HEADER..], data);
      assert (spill.value + data)[..HEADER] == spill.value[..HEADER];
      assert (spill.value + data)[HEADER..] == spill.value[HEADER..] + data;
      spill := Some(spill.value + data);
      crc := Fold(step, crc, data);
      expected := newSize;
      return true;
    }

    /** The patched spill is byte for byte the file that saving the same snapshot would write. */
    method FinalizePending(fault: Fault) returns (r: Option<seq<Byte>>)
      requires Valid() && spill.Some?
      modifies this`spill, this`expected, this`index, this`term, this`crc
      ensures Valid() && Held() == Idle && (r == None <==> fault == AtFinalize)
      ensures r.Some? ==>
                var p := old(Held());
                |p.bytes| <= MAX_SIZE && r.value == Image(step, Snapshot(p.index, p.term, p.bytes))
      ensures r.Some? ==> |r.value| >= HEADER && r.value[HEADER..] == old(Held()).bytes
    {
      hide Header, Le, Fold;
      var size, sum, was := expected, crc, spill.value;
      Patched(was, index, term, size, sum);
      var file := was[..LENGTH_AT] + (Le(size, 4) + Le(sum, 4)) + was[LENGTH_AT + 8..];
      ReleasePending();
      return if fault == AtFinalize then None else Some(file);
    }

    method HandleInstallSnapshot(req: Chunk, fault: Fault) returns (reply: Reply, ghost given: Option<Snapshot>)
      requires Valid()
      modifies this, server
      ensures Valid()
      ensures Outcome(View(), reply, given) == OnChunk(step, installer, old(View()), req, fault)
    {
      hide Image, Header, Fold, InstallSnapshot;
      given := None;
      reply := Reply(server.term, false, 0);
      if req.term < server.term { return; }
      if installer.None? { return; }
      if req.term > server.term {
        server.term := req.term;
        server.votedFor := "";
      }
      server.role := Follower;
      server.leaderId := req.leader;
      assert View() == Replica(Hears(old(server.View()), req), old(Held()), old(disk));
      if req.index <= server.snapIndex && server.snapIndex > 0 {
        return Reply(server.term, true, 0), None;
      }
      reply, given := Store(req, fault);
    }

    /** Everything after the term and staleness checks. */
    method Store(req: Chunk, fault: Fault) returns (reply: Reply, ghost given: Option<Snapshot>)
      requires Valid() && installer.Some?
      modifies this, server
      ensures Valid() && Outcome(View(), reply, given) == OnStored(step, installer.value, old(View()), req, fault)
    {
      hide Image, Header, Fold, InstallSnapshot;
      given := None;
      if req.offset == 0 || req.index != index || req.lastTerm != term {
        var begun := BeginPending(req.index, req.lastTerm, fault);
        if !begun { return Reply(server.term, false, 0), None; }
      }
      if req.offset != expected {
        ReleasePending();
        return Reply(server.term, false, 0), None;
      }
      var ok := AppendPending(req.data, fault);
      if !ok {
        ReleasePending();
        return Reply(server.term, false, 0), None;
      }
      if !req.done {
        return Reply(server.term, true, expected), None;
      }
      var size := expected;
      var final := FinalizePending(fault);
      if final.None? { return Reply(server.term, false, 0), None; }
      var file := final.value;
      var snap := Snapshot(req.index, req.lastTerm, file[HEADER..]);
      given := Some(snap);
      if !installer.value(snap) {
        return Reply(server.term, false, 0), given;
      }
      if fault == AtRename { return Reply(server.term, false, 0), given; }
      disk := Some(file);
      Installed(req.index, req.lastTerm);
      return Reply(server.term, true, size), given;
    }

    method Installed(lastIndex: nat, lastTerm: nat)
      modifies server
      ensures server.term == old(server.term)
      ensures server.View() == InstallSnapshot(old(server.View()), lastIndex, lastTerm)
      ensures server.snapIndex == lastIndex && server.snapTerm == lastTerm
      ensures server.offset == Max(old(server.offset), lastIndex) && server.commit == Max(old(server.commit), lastIndex)
      ensures server.lastApplied == Max(old(server.lastApplied), lastIndex)
    {
      hide Filter;
      server.snapIndex, server.snapTerm := lastIndex, lastTerm;
      server.commit := Max(server.commit, lastIndex);
      server.lastApplied := Max(server.lastApplied, lastIndex);
      server.log := KeepAbove(server.log, lastIndex);
      server.offset := Max(server.offset, lastIndex);
    }
  }

  /** Writing the length and the checksum over their placeholders completes the header. */
  lemma Patched(was: seq<Byte>, index: Long, term: Long, size: Word, sum: Word)
    requires |was| >= HEADER && was[..HEADER] == Header(index, term, 0, 0)
    ensures was[..LENGTH_AT] + (Le(size, 4) + Le(sum, 4)) + was[LENGTH_AT + 8..]
            == Header(index, term, size, sum) + was[HEADER..]
  {
    assert was[..HEADER][..LENGTH_AT] == was[..LENGTH_AT] == MAGIC + Le(index, 8) + Le(term, 8);
  }

  function Concat(chunks: seq<seq<Byte>>): seq<Byte> {
    if chunks == [] then [] else Concat(chunks[..|chunks| - 1]) + chunks[|chunks| - 1]
  }

  lemma {:induction false} ConcatGrows(chunks: seq<seq<Byte>>, i: nat)
    requires i <= |chunks|
    ensures |Concat(chunks[..i])| <= |Concat(chunks)|
  {
    if i < |chunks| {
      ConcatGrows(chunks[..|chunks| - 1], i);
      assert chunks[..|chunks| - 1][..i] == chunks[..i];
    } else {
      assert chunks[..i] == chunks;
    }
  }

  /** Begin, append each chunk, finalize: whatever the chunking, the file is the one that saving the whole writes. */
  method SpillChunks(r: Receiver, lastIndex: Long, lastTerm: Long,
        chunks: seq<seq<Byte>>) returns (file: Option<seq<Byte>>)
    modifies r
    ensures r.Valid() && r.Held() == Idle
    ensures file.Some? <==> |Concat(chunks)| <= MAX_SIZE
    ensures file.Some? ==>
              var whole := Snapshot(lastIndex, lastTerm, Concat(chunks));
              file.value == Image(r.step, whole) && Load(r.step, file.value) == Some(whole)
  {
    hide Image, Header, Fold, Load;
    var _ := r.BeginPending(lastIndex, lastTerm, NoFault);
    for i := 0 to |chunks|
      invariant r.Valid() && r.spill.Some? && r.Held() == Open(lastIndex, lastTerm, Concat(chunks[..i]))
      invariant |Concat(chunks[..i])| <= MAX_SIZE
    {
      assert chunks[..i + 1][..i] == chunks[..i];
      var ok := r.AppendPending(chunks[i], NoFault);
      if !ok {
        ConcatGrows(chunks, i + 1);
        r.ReleasePending();
        return None;
      }
    }
    assert chunks[..|chunks|] == chunks;
    file := r.FinalizePending(NoFault);
    LoadIff(r.step, file.value, Snapshot(lastIndex, lastTerm, Concat(chunks)));
  }

  method KeepAbove(log: seq<Entry>, index: nat) returns (keep: seq<Entry>)
    ensures keep == Filter(From(index + 1), log)
  {
    keep := [];
    for i := 0 to |log|
      invariant keep == Filter(From(index + 1), log[..i])
    {
      assert log[..i + 1][..i] == log[..i];
      if log[i].index > index { keep := keep + [log[i]]; }
    }
    assert log[..|log|] == log;
  }

  /** What becomes of one exchange: the caller gives up before it, a message is lost, or there is an answer. */
  datatype Fate = Answered | RequestLost | ReplyLost | Cancelled

  /** One RPC. An answer of a later term deposes the leader, whatever else it says. */
  method ExchangeChunk(leader: Server, peer: Receiver, req: Chunk, fate: Fate, fault: Fault) returns (ok: Option<bool>)
    requires peer.Valid() && leader != peer.server
    modifies peer, peer.server, leader
    ensures peer.Valid() && (ok == None <==> fate == RequestLost || fate == ReplyLost)
    ensures var r := OnChunk(peer.step, peer.installer, old(peer.View()), req, fault);
            && peer.View() == (if fate == RequestLost then old(peer.View()) else r.replica)
            && (ok.Some? ==> ok.value == r.reply.success && leader.View() == SeeTerm(old(leader.View()), r.reply.term))
            && (ok == None ==> leader.View() == old(leader.View()))
  {
    hide OnChunk;
    if fate == RequestLost { return None; }
    ghost var me := leader.View();
    var reply, given := peer.HandleInstallSnapshot(req, fault);
    assert leader.View() == me;
    if fate == ReplyLost { return None; }
    if reply.term > leader.term {
      leader.term, leader.role, leader.votedFor := reply.term, Follower, "";
    }
    return Some(reply.success);
  }

  /** Every exchange of the transfer is answered and no file operation of the follower fails. */
  ghost predicate Undisturbed(fate: nat -> Fate, faults: nat -> Fault) {
    forall k :: fate(k) == Answered && faults(k) == NoFault
  }

  /** The follower has the snapshot it had. */
  twostate predicate Kept(peer: Receiver)
    reads peer, peer.server
  {
    peer.server.snapIndex == old(peer.server.snapIndex) && peer.disk == old(peer.disk)
  }

  /**
   The send loop, with a fate and a fault for the exchange at each offset, against a follower that no one else
   disturbs. It ends. The peer's indices move only after a follower that accepts has the snapshot or
   already covered it. Otherwise the follower has the snapshot it had, unless the reply lost is the
   last; and the leader is as it was, unless the follower is of a later term. Without losses it succeeds
   exactly when the follower accepts.
   */
  method SendInstallSnapshot(leader: Server, peer: Receiver, s: Snapshot, name: Id, fate: nat -> Fate,
        faults: nat -> Fault) returns (ok: bool)
    requires peer.Valid() && leader != peer.server
    modifies peer, peer.server, leader
    ensures peer.Valid()
    ensures var me, f := old(leader.View()), old(peer.View());
            var accepts := Accepts(peer.installer, f, s, me.term);
            && (ok ==>
                  && accepts && peer.View() == Sent(peer.step, f, s, me.term, me.id)
                  && leader.View() == me.(nextIndex := me.nextIndex[name := s.index + 1],
                                          matchIndex := me.matchIndex[name := s.index]))
            && (!ok ==>
                  || Kept(peer)
                  || (&& accepts && peer.View() == Sent(peer.step, f, s, me.term, me.id)
                      && exists k :: fate(k) == ReplyLost))
            && (!ok ==> leader.View() == me || (f.node.term > me.term && leader.View() == SeeTerm(me, f.node.term)))
            && (Undisturbed(fate, faults) ==>
                  ok == accepts && (f.node.term > me.term ==> leader.View() == SeeTerm(me, f.node.term)))
  {
    hide OnChunk, Sent, Underway;
    ghost var me, start := leader.View(), peer.View();
    var term, id, total := leader.term, leader.id, |s.data|;
    Undertaken(peer.step, peer.installer, start, s, term, id);
    if total == 0 {
      var req := Chunk(term, id, s.index, s.term, 0, true, []);
      assert req == ChunkAt(s, term, id, 0);
      UnderwayStep(peer.step, peer.installer, start, start, s, term, id, 0, faults(0));
      var answer := ExchangeChunk(leader, peer, req, fate(0), faults(0));
      if answer != Some(true) { return false; }
    } else {
      var offset := 0;
      while offset < total
        invariant offset <= total && peer.Valid() && leader.View() == me
        invariant offset < total ==> Underway(peer.step, peer.installer, peer.View(), start, s, term, id, offset)
        invariant offset == total ==>
                    Accepts(peer.installer, start, s, term) && peer.View() == Sent(peer.step, start, s, term, id)
      {
        UnderwayKeeps(peer.step, peer.installer, peer.View(), start, s, term, id, offset);
        if fate(offset) == Cancelled { return false; }
        var end := if offset + CHUNK > total then total else offset + CHUNK;
        var req := Chunk(term, id, s.index, s.term, offset, end == total, s.data[offset..end]);
        assert req == ChunkAt(s, term, id, offset);
        UnderwayStep(peer.step, peer.installer, peer.View(), start, s, term, id, offset, faults(offset));
        var answer := ExchangeChunk(leader, peer, req, fate(offset), faults(offset));
        if answer != Some(true) { return false; }
        offset := end;
      }
    }
    leader.nextIndex := leader.nextIndex[name := s.index + 1];
    leader.matchIndex := leader.matchIndex[name := s.index];
    ok := true;
  }
}
