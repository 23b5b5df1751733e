/**
 A leader and a lagging follower: the requests that step back until one is taken, and where that ends
 (internal/zero/raft/replication.go, rpc_handlers.go).
 */
module RaftCatchUp {
  import opened Options
  import opened RaftTypes
  import opened RaftNode
  import opened RaftSystem
  import opened RaftCompaction
  import opened RaftFindings
  import RaftRefinement
  import Spec = RaftSpec

  // ---- One exchange --------------------------------------------------------------------------------

  /** Behind index p the follower can go on with the leader's log: it agrees up to p and can still tell. */
  ghost predicate Meets(lead: seq<Entry>, ny: Node, held: seq<Entry>, p: nat) {
    p == 0 || (ny.snapIndex <= p && Same(lead, held, p))
  }

  /** A leader and a node of no later term as they stand in runs; dx and dy are what they have compacted. */
  ghost predicate Paired(nx: Node, dx: seq<Entry>, ny: Node, dy: seq<Entry>, y: Id) {
    && Linked(nx, dx) && Linked(ny, dy) && nx.role == Leader && ny.term <= nx.term
    && 1 <= Lookup(nx.nextIndex, y) <= LogLen(nx) + 1 && nx.commit <= LogLen(nx)
    && Same(dx + nx.log, dy + ny.log, ny.snapIndex) && Matching(dx + nx.log, dy + ny.log)
  }

  /** The request starts behind the entry before nextIndex and carries the rest of the whole log. */
  lemma RequestAt(nx: Node, dx: seq<Entry>, y: Id)
    requires Linked(nx, dx) && nx.role == Leader && nx.snapIndex < Lookup(nx.nextIndex, y) <= LogLen(nx) + 1
    ensures var lead, prev := dx + nx.log, Lookup(nx.nextIndex, y) - 1;
            NextAppend(nx, y) ==
            Some(AppendRequest(nx.term, nx.id, prev, Spec.PrevTerm(lead, prev), lead[prev..], nx.commit))
  {
    var lead, prev := dx + nx.log, Lookup(nx.nextIndex, y) - 1;
    RaftRefinement.ShippedTerm(nx, dx, prev);
    RaftRefinement.ShippedTail(nx, dx, prev);
    assert lead[prev..|lead|] == lead[prev..];
    hide TermAt, OffsetToSlot, Linked;
  }

  /** The follower passes the consistency check exactly where it can go on with the leader's log. */
  lemma PassesIff(nx: Node, dx: seq<Entry>, ny: Node, dy: seq<Entry>, y: Id, m: Node)
    requires Paired(nx, dx, ny, dy, y) && m.log == ny.log && m.offset == ny.offset && m.snapIndex == ny.snapIndex
    requires m.snapTerm == ny.snapTerm
    ensures var lead, prev := dx + nx.log, Lookup(nx.nextIndex, y) - 1;
            prev == 0 || TermAt(m, prev) == Some(Spec.PrevTerm(lead, prev)) <==> Meets(lead, ny, dy + ny.log, prev)
  {
    var lead, held, prev := dx + nx.log, dy + ny.log, Lookup(nx.nextIndex, y) - 1;
    LogView(m, dy);
    if prev > 0 && ny.snapIndex <= prev <= |held| {
      assert TermAt(m, prev) == Some(held[prev - 1].term);
      if held[prev - 1].term == lead[prev - 1].term { assert AgreeThrough(lead, held, prev - 1); }
    }
  }

  /** What the leader sends of the follower's compacted prefix is what the follower compacted. */
  lemma SentRepeats(lead: seq<Entry>, ny: Node, dy: seq<Entry>, prev: nat)
    requires Linked(ny, dy) && prev <= |lead| && Same(lead, dy + ny.log, ny.snapIndex)
    ensures Repeats(dy, prev + 1, lead[prev..])
  {
    assert forall k :: 0 <= k < |dy| ==> dy[k] == (dy + ny.log)[k];
  }

  lemma Spliced(lead: seq<Entry>, held: seq<Entry>, p: nat)
    requires Same(lead, held, p)
    ensures Same(lead, held[..p] + lead[p..], |lead|)
  {
  }

  lemma KeptAgrees(lead: seq<Entry>, held: seq<Entry>, prev: nat, kept: nat)
    requires Matching(lead, held) && prev + kept <= |lead| && prev + kept <= |held| && Same(lead, held, prev)
    requires kept > 0 ==> lead[prev + kept - 1].term == held[prev + kept - 1].term
    ensures Same(lead, held, prev + kept)
  {
    if kept > 0 { assert AgreeThrough(lead, held, prev + kept - 1); }
  }

  /** A log that absorbed the rest of the leader's log behind an agreed prefix holds all of it. */
  lemma AbsorbedHolds(lead: seq<Entry>, held: seq<Entry>, req: AppendRequest, kept: nat, held': seq<Entry>)
    requires Matching(lead, held) && req.prevIndex <= |lead| && req.entries == lead[req.prevIndex..]
    requires Same(lead, held, req.prevIndex) && Spec.Absorbs(held, req, kept, |req.entries|, held')
    ensures Same(lead, held', |lead|)
  {
    hide Matching, Same;
    var p := req.prevIndex + kept;
    if kept > 0 { assert req.entries[kept - 1].term == held[p - 1].term && lead[p - 1] == req.entries[kept - 1]; }
    KeptAgrees(lead, held, req.prevIndex, kept);
    assert req.entries[kept..|req.entries|] == lead[p..];
    Spliced(lead, held, p);
  }

  /** The follower's side of an exchange. */
  lemma TakesIff(nx: Node, dx: seq<Entry>, ny: Node, dy: seq<Entry>, y: Id, req: AppendRequest, ops: nat)
    requires Paired(nx, dx, ny, dy, y) && NextAppend(nx, y) == Some(req) && nx.snapIndex < Lookup(nx.nextIndex, y)
    requires ops >= WritesNeeded(ny.log, ny.offset, req.prevIndex + 1, req.entries)
    ensures var lead, r := dx + nx.log, OnAppendRequest(ny, req, ops);
            && (r.success <==> Meets(lead, ny, dy + ny.log, req.prevIndex)) && r.term <= nx.term
            && r.node == Hear(ny, req).(log := r.node.log, commit := r.node.commit)
            && (r.success ==> Same(lead, dy + r.node.log, |lead|) && r.node.commit == Max(ny.commit, nx.commit))
            && (!r.success ==> req.prevIndex > 0 && r.node.log == ny.log && r.node.commit == ny.commit)
  {
    var lead, held := dx + nx.log, dy + ny.log;
    RequestAt(nx, dx, y);
    PassesIff(nx, dx, ny, dy, y, Hear(ny, req));
    WritesSuffice(ny.log, ny.offset, req.prevIndex + 1, req.entries, ops);
    hide Linked, TermAt, AbsorbEntries, NextAppend, Matching, WritesNeeded, Same;
    if req.prevIndex == 0 || TermAt(Hear(ny, req), req.prevIndex) == Some(req.prevTerm) {
      SentRepeats(lead, ny, dy, req.prevIndex);
      var kept, taken := RaftRefinement.AbsorbAsStep(ny, dy, req, ops);
      assert Same(lead, held, req.prevIndex) by { NothingDiffers(lead, held); }
      hide Spec.Absorbs;
      AbsorbedHolds(lead, held, req, kept,
          dy + AbsorbEntries(ny.log, ny.offset, req.prevIndex + 1, req.entries, ops).log);
    }
  }

  lemma NothingDiffers(a: seq<Entry>, b: seq<Entry>)
    ensures Same(a, b, 0)
  {
  }

  /** The leader's side of an exchange. */
  lemma Learns(nx: Node, y: Id, req: AppendRequest, term: nat, success: bool)
    requires nx.role == Leader && nx.term == req.term && Lookup(nx.nextIndex, y) == req.prevIndex + 1 && term <= nx.term
    ensures var last, nx' := req.prevIndex + |req.entries|, OnAppendReply(nx, y, req, term, success);
            && (success ==> nx' == UpdateCommit(nx.(nextIndex := nx.nextIndex[y := last + 1],
                                                    matchIndex := nx.matchIndex[y := last])))
            && (!success && req.prevIndex > 0 ==> nx' == nx.(nextIndex := nx.nextIndex[y := req.prevIndex]))
  {
    hide UpdateCommit;
  }

  /**
   An exchange with a follower that can write: it succeeds exactly where the follower can go on with the
   leader's log. Then the follower holds all of it, follows the leader and has committed what either had,
   and the leader knows. Otherwise the follower's log stays and the leader goes one entry back.
   */
  lemma ExchangeIff(nx: Node, dx: seq<Entry>, ny: Node, dy: seq<Entry>, y: Id, ops: nat)
    requires Paired(nx, dx, ny, dy, y) && nx.snapIndex < Lookup(nx.nextIndex, y)
    requires var next := Lookup(nx.nextIndex, y);
             ops >= WritesNeeded(ny.log, ny.offset, next, (dx + nx.log)[next - 1..])
    ensures NextAppend(nx, y).Some?
    ensures var lead, next, req := dx + nx.log, Lookup(nx.nextIndex, y), NextAppend(nx, y).value;
            var r := OnAppendRequest(ny, req, ops);
            var nx' := OnAppendReply(nx, y, req, r.term, r.success);
            && (r.success <==> Meets(lead, ny, dy + ny.log, next - 1))
            && r.node == Hear(ny, req).(log := r.node.log, commit := r.node.commit)
            && (r.success ==>
                  && Same(lead, dy + r.node.log, |lead|) && r.node.commit == Max(ny.commit, nx.commit)
                  && nx' == UpdateCommit(nx.(nextIndex := nx.nextIndex[y := |lead| + 1],
                                             matchIndex := nx.matchIndex[y := |lead|])))
            && (!r.success ==>
                  && r.node.log == ny.log && r.node.commit == ny.commit
                  && next > 1 && nx' == nx.(nextIndex := nx.nextIndex[y := next - 1]))
  {
    hide OnAppendRequest, OnAppendReply, UpdateCommit, NextAppend, Meets, WritesNeeded, Same, Matching;
    RequestAt(nx, dx, y);
    var req := NextAppend(nx, y).value;
    TakesIff(nx, dx, ny, dy, y, req, ops);
    var r := OnAppendRequest(ny, req, ops);
    Learns(nx, y, req, r.term, r.success);
  }

  // ---- After a snapshot ----------------------------------------------------------------------------------

  /**
   A follower that has just installed the leader's snapshot takes the leader's next request, which starts
   right behind it, and then ends where the leader's log ends or beyond, with the leader's terms.
   */
  lemma InstalledTakesNext(nx: Node, dx: seq<Entry>, ny: Node, dy: seq<Entry>, y: Id, ops: nat)
    requires Linked(nx, dx) && Linked(ny, dy) && nx.role == Leader && ny.term <= nx.term
    requires ny.snapIndex < nx.snapIndex == Lookup(nx.nextIndex, y) - 1
    requires var m := InstallSnapshot(ny, nx.snapIndex, nx.snapTerm);
             ops >= WritesNeeded(m.log, m.offset, nx.snapIndex + 1, nx.log)
    ensures NextAppend(nx, y).Some?
    ensures var m, req := InstallSnapshot(ny, nx.snapIndex, nx.snapTerm), NextAppend(nx, y).value;
            var r := OnAppendRequest(m, req, ops);
            && req.prevIndex == nx.snapIndex && req.entries == nx.log && r.success
            && LogLen(r.node) >= LogLen(nx) && r.node.offset == nx.offset
            && forall k :: 0 <= k < |nx.log| ==> r.node.log[k].term == nx.log[k].term
  {
    hide InstallSnapshot, AbsorbEntries, WritesNeeded, NextAppend, OnAppendRequest, TermAt;
    var m := InstallSnapshot(ny, nx.snapIndex, nx.snapTerm);
    InstallLinks(ny, dy, dx, nx.snapIndex, nx.snapTerm);
    RequestAt(nx, dx, y);
    assert (dx + nx.log)[nx.snapIndex..] == nx.log;
    BehindSnapshot(m, dx, NextAppend(nx, y).value, ops);
  }

  /** A request that starts right behind the snapshot, with the term of the snapshot, is taken. */
  lemma BehindSnapshot(m: Node, d: seq<Entry>, req: AppendRequest, ops: nat)
    requires Linked(m, d) && m.term <= req.term && 0 < m.snapIndex == req.prevIndex && req.prevTerm == m.snapTerm
    requires ops >= WritesNeeded(m.log, m.offset, req.prevIndex + 1, req.entries)
    ensures var r := OnAppendRequest(m, req, ops);
            && r.success && r.node.offset == m.offset && |r.node.log| >= |req.entries|
            && forall k :: 0 <= k < |req.entries| ==> r.node.log[k].term == req.entries[k].term
  {
    hide AbsorbEntries, WritesNeeded, Spec.Absorbs;
    WritesSuffice(m.log, m.offset, req.prevIndex + 1, req.entries, ops);
    assert Repeats(d, req.prevIndex + 1, req.entries);
    var kept, taken := RaftRefinement.AbsorbAsStep(m, d, req, ops);
    var a := AbsorbEntries(m.log, m.offset, req.prevIndex + 1, req.entries, ops);
    AbsorbedTerms(d + m.log, req, kept, d + a.log);
    Behind(d, a.log, req.entries);
  }

  lemma Behind(d: seq<Entry>, log: seq<Entry>, entries: seq<Entry>)
    requires |d + log| >= |d| + |entries|
    requires forall k :: 0 <= k < |entries| ==> (d + log)[|d| + k].term == entries[k].term
    ensures |log| >= |entries| && forall k :: 0 <= k < |entries| ==> log[k].term == entries[k].term
  {
    assert forall k :: 0 <= k < |log| ==> (d + log)[|d| + k] == log[k];
  }

  /** Whatever it agreed with before, a log that absorbed a request has the terms of its entries there. */
  lemma AbsorbedTerms(held: seq<Entry>, req: AppendRequest, kept: nat, held': seq<Entry>)
    requires Spec.Absorbs(held, req, kept, |req.entries|, held')
    ensures |held'| >= req.prevIndex + |req.entries|
    ensures forall k :: 0 <= k < |req.entries| ==> held'[req.prevIndex + k].term == req.entries[k].term
  {
  }
}
