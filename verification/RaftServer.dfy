/**
 The node as an object whose critical sections update its fields in place, step by step as the
 source does, each proved to compute the function of RaftNode that the protocol is built from.
 */
module RaftServer {
  import opened Options
  import opened RaftTypes
  import opened RaftNode
  import opened LogFilter

  /** On a log in order, cutting the slice at a slot keeps exactly the entries up to the index. */
  lemma CutIsFilter(log: seq<Entry>, offset: nat, lastKeep: nat)
    requires InOrder(log, offset)
    ensures TruncateSliceAfter(log, offset, lastKeep) == Filter(UpTo(lastKeep), log)
  {
    UpToIsPrefix(lastKeep, log, offset);
    assert log[..|log|] == log;
  }

  class Server {
    const id: Id
    const peers: seq<Id>
    var role: Role
    var term: nat
    var votedFor: Id
    var leaderId: Id
    var log: seq<Entry>
    var offset: nat
    var snapIndex: nat
    var snapTerm: nat
    var commit: nat
    var lastApplied: nat
    var nextIndex: map<Id, nat>
    var matchIndex: map<Id, nat>

    function View(): Node
      reads this
    {
      Node(id, peers, role, term, votedFor, leaderId, log, offset, snapIndex, snapTerm, commit, lastApplied,
           nextIndex, matchIndex)
    }

    constructor (id: Id, peers: seq<Id>)
      ensures View() == Node(id, peers, Follower, 0, "", "", [], 0, 0, 0, 0, 0, map[], map[])
    {
      this.id, this.peers := id, peers;
      role, term, votedFor, leaderId := Follower, 0, "", "";
      log, offset, snapIndex, snapTerm := [], 0, 0, 0;
      commit, lastApplied := 0, 0;
      nextIndex, matchIndex := map[], map[];
    }

    method HandlePreVote(req: VoteRequest, recent: bool) returns (replyTerm: nat, granted: bool)
      ensures replyTerm == View().term
      ensures granted == GrantsPreVote(View(), req, recent)
      ensures recent && leaderId != "" ==> !granted
    {
      replyTerm, granted := term, false;
      if req.term < term { return; }
      if recent && leaderId != "" { return; }
      if !IsLogUpToDate(View(), req.lastIndex, req.lastTerm) { return; }
      granted := true;
    }

    method HandleRequestVote(req: VoteRequest) returns (replyTerm: nat, granted: bool)
      modifies this
      ensures VoteOutcome(View(), replyTerm, granted) == OnVoteRequest(old(View()), req)
      ensures replyTerm == term == Max(old(term), req.term)
    {
      replyTerm, granted := term, false;
      if req.term < term { return; }
      if req.term > term {
        term := req.term;
        role := Follower;
        votedFor := "";
      }
      if (votedFor == "" || votedFor == req.candidate) && IsLogUpToDate(View(), req.lastIndex, req.lastTerm) {
        votedFor := req.candidate;
        granted := true;
      }
      replyTerm := term;
    }

    /** Memory is cut as TruncateAfter cuts the file: exactly the entries up to lastKeep stay. */
    method TruncateSlice(lastKeep: nat)
      modifies this`log
      ensures log == TruncateSliceAfter(old(log), offset, lastKeep)
      ensures InOrder(old(log), offset) ==> log == Filter(UpTo(lastKeep), old(log))
    {
      if InOrder(log, offset) { CutIsFilter(log, offset, lastKeep); }
      if lastKeep <= offset {
        log := [];
        return;
      }
      match OffsetToSlot(lastKeep + 1, offset, |log|)
      case None =>
      case Some(slot) => log := log[..slot];
    }

    /** ops: how many writes the write-ahead log accepts before one fails. */
    method HandleAppendEntries(req: AppendRequest, ops: nat) returns (replyTerm: nat, success: bool)
      modifies this
      ensures AppendOutcome(View(), replyTerm, success) == OnAppendRequest(old(View()), req, ops)
      ensures term == Max(old(term), req.term) && replyTerm == if success then term else old(term)
      ensures req.term >= old(term) ==> role == Follower && leaderId == req.leader
    {
      hide AbsorbEntries, TermAt;
      replyTerm, success := term, false;
      if req.term < term { return; }
      if req.term > term {
        term := req.term;
        votedFor := "";
      }
      role := Follower;
      leaderId := req.leader;
      assert View() == Hear(old(View()), req);
      if req.prevIndex > 0 {
        var held := TermAt(View(), req.prevIndex);
        if held == None || held.value != req.prevTerm { return; }
      }
      success := AppendLoop(req, ops);
      if !success { return; }
      if req.leaderCommit > commit {
        var lastNew := req.prevIndex + |req.entries|;
        if req.leaderCommit < lastNew {
          commit := req.leaderCommit;
        } else {
          commit := lastNew;
        }
      }
      replyTerm := term;
    }

    method AppendLoop(req: AppendRequest, ops: nat) returns (ok: bool)
      modifies this`log
      ensures Absorbed(log, ok) == AbsorbEntries(old(log), offset, req.prevIndex + 1, req.entries, ops)
    {
      var left := ops;
      var i := 0;
      while i < |req.entries|
        invariant 0 <= i <= |req.entries|
        invariant AbsorbEntries(log, offset, req.prevIndex + i + 1, req.entries[i..], left)
               == AbsorbEntries(old(log), offset, req.prevIndex + 1, req.entries, ops)
      {
        var entry, idx := req.entries[i], req.prevIndex + i + 1;
        assert req.entries[i..][0] == entry && req.entries[i..][1..] == req.entries[i + 1..];
        var slot := OffsetToSlot(idx, offset, |log|);
        if slot.Some? {
          if log[slot.value].term != entry.term {
            TruncateSlice(idx - 1);
            if left < 2 { return false; }
            left := left - 2;
            log := log + [entry];
          }
        } else if idx > offset + |log| {
          if left == 0 { return false; }
          left := left - 1;
          log := log + [entry];
        }
        i := i + 1;
      }
      ok := true;
    }

    method StartElectionTerm() returns (ballot: VoteRequest)
      modifies this
      ensures View() == StartElection(old(View()))
      ensures ballot == Ballot(View())
    {
      term := term + 1;
      role := Candidate;
      votedFor := id;
      var (lastIndex, lastTerm) := LastIndexTerm(View());
      ballot := VoteRequest(term, id, lastIndex, lastTerm);
    }

    /** Counts replies as they come in and stops as soon as they suffice. */
    method CollectVotes(granted: seq<bool>) returns (won: bool)
      ensures won <==> 1 + Trues(granted) >= VotesNeeded(View())
    {
      var votes := 1;
      var needed := (|peers| + 1) / 2 + 1;
      if votes >= needed { TruesBound(granted, 0); return true; }
      for i := 0 to |granted|
        invariant votes == 1 + Trues(granted[..i]) < needed
      {
        TruesStep(granted, i);
        if granted[i] { votes := votes + 1; }
        if votes >= needed { TruesBound(granted, i + 1); return true; }
      }
      assert granted[..|granted|] == granted;
      won := false;
    }

    method TakeLeadership()
      modifies this
      ensures View() == BecomeLeader(old(View()))
    {
      role := Leader;
      leaderId := id;
      var nextAbs := offset + |log| + 1;
      for i := 0 to |peers|
        invariant View() == old(View()).(role := Leader, leaderId := id,
                                         nextIndex := SetAll(old(nextIndex), peers[..i], nextAbs),
                                         matchIndex := SetAll(old(matchIndex), peers[..i], 0))
      {
        assert peers[..i + 1][..i] == peers[..i];
        nextIndex := nextIndex[peers[i] := nextAbs];
        matchIndex := matchIndex[peers[i] := 0];
      }
      assert peers[..|peers|] == peers;
    }

    method PublishEntry(command: string) returns (ok: bool)
      modifies this`log
      ensures ok <==> role == Leader
      ensures View() == if ok then Publish(old(View()), command) else old(View())
    {
      if role != Leader { return false; }
      log := log + [Entry(offset + |log| + 1, term, command)];
      ok := true;
    }

    /** The entry that could not be persisted goes from the top of the log, by its length and index alone. */
    method RollbackEntry(publishedLen: nat, index: nat)
      modifies this`log
      ensures View() == Rollback(old(View()), publishedLen, index)
    {
      if |log| == publishedLen && |log| > 0 && log[|log| - 1].index == index {
        log := log[..|log| - 1];
      }
    }

    /** Looks at every index above the commit index, and for each counts the peers that hold it. */
    method UpdateCommitIndex()
      modifies this`commit
      ensures View() == UpdateCommit(old(View()))
    {
      ghost var start := View();
      var i := commit + 1;
      var top := offset + |log|;
      while i <= top
        invariant start.commit < i && (i <= top + 1 || i == start.commit + 1)
        invariant View() == start.(commit := ScanCommit(start, i - 1))
      {
        var held := TermAt(View(), i);
        if held.Some? && held.value == term {
          var matches := 1;
          for k := 0 to |peers|
            invariant matches == CountMatches(start, i, peers[..k])
          {
            assert peers[..k + 1][..k] == peers[..k];
            if Lookup(matchIndex, peers[k]) >= i { matches := matches + 1; }
          }
          assert peers[..|peers|] == peers;
          if matches > (|peers| + 1) / 2 { commit := i; }
        }
        i := i + 1;
      }
    }

    method HandleAppendReply(peer: Id, req: AppendRequest, replyTerm: nat, success: bool)
      modifies this
      ensures View() == OnAppendReply(old(View()), peer, req, replyTerm, success)
      ensures term == Max(old(term), replyTerm)
      ensures replyTerm > old(term) ==> View() == old(View()).(term := replyTerm, role := Follower, votedFor := "")
    {
      if replyTerm > term {
        term := replyTerm;
        role := Follower;
        votedFor := "";
        return;
      }
      if role != Leader || term != req.term || Lookup(nextIndex, peer) != req.prevIndex + 1 { return; }
      if success {
        nextIndex := nextIndex[peer := req.prevIndex + 1 + |req.entries|];
        matchIndex := matchIndex[peer := nextIndex[peer] - 1];
        UpdateCommitIndex();
      } else if Lookup(nextIndex, peer) > 1 {
        nextIndex := nextIndex[peer := Lookup(nextIndex, peer) - 1];
      }
    }

    /** Hands every committed entry to the state machine, in order and at most once. */
    method ApplyCommitted() returns (out: seq<Entry>)
      modifies this`lastApplied
      ensures lastApplied == Max(old(lastApplied), commit)
      ensures offset <= old(lastApplied) && commit <= offset + |log| ==>
                out == if old(lastApplied) < commit then log[old(lastApplied) - offset..commit - offset] else []
    {
      out := [];
      while lastApplied < commit
        invariant old(lastApplied) <= lastApplied <= Max(old(lastApplied), commit)
        invariant lastApplied == old(lastApplied) ==> out == []
        invariant offset <= old(lastApplied) && commit <= offset + |log| && old(lastApplied) < commit ==>
                    out == log[old(lastApplied) - offset..lastApplied - offset]
      {
        lastApplied := lastApplied + 1;
        var slot := OffsetToSlot(lastApplied, offset, |log|);
        if slot.Some? { out := out + [log[slot.value]]; }
      }
    }

    method DropPrefix(index: nat, boundaryTerm: nat)
      modifies this
      ensures View() == CompactDrop(old(View()), index, boundaryTerm)
    {
      if index <= snapIndex { return; }
      if index > offset {
        var drop := |log|;
        var slot := OffsetToSlot(index + 1, offset, |log|);
        if slot.Some? { drop := slot.value; }
        log := log[drop..];
      }
      offset, snapIndex, snapTerm := index, index, boundaryTerm;
    }
  }

  function Trues(bits: seq<bool>): nat {
    if bits == [] then 0 else Trues(bits[..|bits| - 1]) + if bits[|bits| - 1] then 1 else 0
  }

  lemma TruesStep(bits: seq<bool>, i: nat)
    requires i < |bits|
    ensures Trues(bits[..i + 1]) == Trues(bits[..i]) + if bits[i] then 1 else 0
  {
    assert bits[..i + 1][..i] == bits[..i];
  }

  lemma {:induction false} TruesBound(bits: seq<bool>, i: nat)
    requires i <= |bits|
    ensures Trues(bits[..i]) <= Trues(bits)
  {
    if i == |bits| {
      assert bits[..i] == bits;
    } else {
      var front := bits[..|bits| - 1];
      assert bits[..i] == front[..i];
      TruesBound(front, i);
    }
  }
}
