/**
 The check for a peer that needs a snapshot and the building of the request that follows it take the
 lock one after the other (internal/zero/raft/replication.go:50-58). A compaction in between leaves
 a request with no entries and an undiminished commit index.
 */
module RaftRace {
  import opened Options
  import opened RaftTypes
  import opened RaftNode
  import opened RaftSystem
  import opened RaftRefinement
  import RaftSafety
  import opened RaftTrails

  // ---- When a request lowers the commit index ----------------------------------------------------

  /**
   A request lowers the commit index of a follower exactly when it is in term, continues the follower's
   log, can be written, announces a commit index above the follower's and itself ends below it.
   */
  lemma CommitFallsIff(n: Node, req: AppendRequest, ops: nat)
    ensures OnAppendRequest(n, req, ops).node.commit < n.commit <==>
              && req.term >= n.term
              && (req.prevIndex == 0 || TermAt(n, req.prevIndex) == Some(req.prevTerm))
              && ops >= WritesNeeded(n.log, n.offset, req.prevIndex + 1, req.entries)
              && req.prevIndex + |req.entries| < n.commit < req.leaderCommit
  {
    hide AbsorbEntries, WritesNeeded;
    WritesSuffice(n.log, n.offset, req.prevIndex + 1, req.entries, ops);
    assert TermAt(Hear(n, req), req.prevIndex) == TermAt(n, req.prevIndex);
  }

  /**
   The request that x builds, at some moment of a run, for a peer which by then needs a snapshot, and
   the peer at a later moment. It lowers the commit index of the peer exactly when x takes the log of
   the peer to be empty while the peer has committed something, but less than x.
   */
  lemma RaceFallsIff(states: seq<System>, actions: seq<Action>, i: nat, j: nat, x: Id, peer: Id, ops: nat)
    requires Run(states, actions) && i <= j < |states| && x in states[i].nodes && peer in states[j].nodes
    requires peer in states[i].nodes[x].peers && NeedsSnapshot(states[i].nodes[x], peer)
    ensures TailFor(states[i].nodes[x], peer).Some?
    ensures var n, m := states[i].nodes[x], states[j].nodes[peer];
            OnAppendRequest(m, TailFor(n, peer).value, ops).node.commit < m.commit <==>
              n.nextIndex[peer] == 1 && n.term >= m.term && 0 < m.commit < n.commit
  {
    hide Run;
    RaftSafety.TermsPositive(states, actions, j, peer);
    RaftSafety.SnapBelowCommit(states, actions, i, x);
    RaftSafety.NextIsPositive(states, actions, i, x, peer);
    var n, m := states[i].nodes[x], states[j].nodes[peer];
    CommitFallsIff(m, TailFor(n, peer).value, ops);
  }

  // ---- A run in which it happens -----------------------------------------------------------------

  /** x, the leader of term 1 over uncompacted logs, and its follower d. */
  ghost predicate Scene(t: Trail, f: Three, log: seq<Entry>, commit: nat) {
    && f.Distinct() && Walked(t) && End(t).nodes.Keys == End(t).delivered.Keys == f.All()
    && var n := End(t).nodes[f.x];
    && n.id == f.x && n.peers == Listing(f.All() - {f.x}) && Uncompacted(n)
    && n.term == 1 && n.role == Leader && n.log == log && n.commit == commit
    && Lookup(n.nextIndex, f.a) == 2 && Lookup(n.nextIndex, f.d) == 1
    && var m := End(t).nodes[f.a];
    Uncompacted(m) && m.term == 1 && m.log == [P()]
  }

  /** d has the first entry and has committed it; its reply is lost. */
  ghost predicate Behind(t: Trail, f: Three)
    requires Walked(t)
  {
    && f.d in End(t).nodes
    && var n := End(t).nodes[f.d];
       Uncompacted(n) && n.term == 1 && n.log == [P()] && n.commit == 1
  }

  lemma LosesReply(f: Three) returns (t: Trail)
    requires f.Distinct()
    ensures Scene(t, f, [P()], 1) && Behind(t, f)
  {
    hide Run, Listing;
    t := FirstCommit(f);
    var nx, nd := End(t).nodes[f.x], End(t).nodes[f.d];
    LeaderOver(nx, f);
    RequestIs(nx, f.d);
    var req := NextAppend(nx, f.d).value;
    assert req == AppendRequest(1, f.x, 0, 0, [P()], 1);
    t := Take(t, SendAppend(f.x, f.d), End(t).(net := End(t).net + {AppendAsk(f.d, req)}));
    AbsorbAll([], [P()], 2);
    var r := OnAppendRequest(nd, req, 2);
    assert r.node.log == [P()] && r.node.commit == 1;
    hide OnAppendRequest, NextAppend;
    t := Take(t, HandleAppend(f.d, req, 2),
        Set(End(t), f.d, r.node).(net := End(t).net + {AppendReply(f.d, req, r.term, r.success)}));
  }

  lemma LeaderOver(n: Node, f: Three)
    requires f.Distinct() && n.id == f.x && n.peers == Listing(f.All() - {f.x})
    ensures f.a in n.peers && f.d in n.peers
  {
    hide Listing;
    assert Configured(n, f.x, f.All());
    ConfiguredPeers(n, f.x, f.All());
  }

  /** x publishes a second entry. */
  lemma Publishes(t: Trail, f: Three) returns (u: Trail)
    requires Scene(t, f, [P()], 1) && Behind(t, f)
    ensures Scene(u, f, [P(), Q()], 1) && Behind(u, f)
  {
    hide Run, Listing;
    u := SubmitAt(t, f.x, "q");
  }

  /** a acknowledges it and x commits it. */
  lemma SecondCommit(t: Trail, f: Three) returns (u: Trail)
    requires Scene(t, f, [P(), Q()], 1) && Behind(t, f)
    ensures Walked(u) && End(u).nodes.Keys == End(u).delivered.Keys == f.All() && Behind(u, f)
    ensures var n := End(u).nodes[f.x];
            && Uncompacted(n) && n.term == 1 && n.role == Leader && n.id == f.x && n.log == [P(), Q()] && n.commit == 2
            && Lookup(n.nextIndex, f.d) == 1
  {
    hide Run, Listing, UpdateCommit;
    var nx, na := End(t).nodes[f.x], End(t).nodes[f.a];
    LeaderOver(nx, f);
    RequestIs(nx, f.a);
    var req := NextAppend(nx, f.a).value;
    assert req == AppendRequest(1, f.x, 1, 1, [Q()], 1);
    AbsorbAll([P()], [Q()], 1);
    assert OnAppendRequest(na, req, 1).success && OnAppendRequest(na, req, 1).term == 1;
    var n' := nx.(nextIndex := nx.nextIndex[f.a := 3], matchIndex := nx.matchIndex[f.a := 2]);
    assert OnAppendReply(nx, f.a, req, 1, true) == UpdateCommit(n');
    TwoAreEnough(n', f);
    hide OnAppendRequest, OnAppendReply, NextAppend;
    u := Exchange(t, f.x, f.a, 1);
  }

  lemma TwoAreEnough(n: Node, f: Three)
    requires f.Distinct() && n.id == f.x && n.peers == Listing(f.All() - {f.x}) && Uncompacted(n)
    requires n.term == 1 && n.log == [P(), Q()] && n.commit == 1 && Lookup(n.matchIndex, f.a) == 2
    ensures UpdateCommit(n) == n.(commit := 2)
  {
    hide Listing, ScanCommit;
    assert {f.x, f.a} <= Reaching(n, 2, f.All());
    SubsetSize({f.x, f.a}, Reaching(n, 2, f.All()));
    assert |f.All()| == 3;
    Scanned(n, f.x, f.All());
  }

  /** A node applies what it has committed. */
  lemma {:induction false} ApplyAll(t: Trail, x: Id) returns (u: Trail)
    requires Walked(t) && x in End(t).nodes && x in End(t).delivered
    ensures Continues(t, u) && End(u).delivered.Keys == End(t).delivered.Keys
    ensures var n, n' := End(t).nodes[x], End(u).nodes[x];
            n' == n.(lastApplied := n'.lastApplied) && n'.lastApplied >= n.commit
    ensures forall y :: y in End(t).nodes && y != x ==> End(u).nodes[y] == End(t).nodes[y]
    decreases End(t).nodes[x].commit - End(t).nodes[x].lastApplied
  {
    hide Run;
    u := t;
    var n := End(t).nodes[x];
    if n.lastApplied < n.commit {
      var (n', out) := ApplyNext(n);
      var s := End(t);
      u := Take(t, Apply(x), Set(s, x, n').(delivered := if out.Some?
          then s.delivered[x := s.delivered[x] + [out.value]] else s.delivered));
      u := ApplyAll(u, x);
    }
  }

  /** It compacts the two entries. */
  lemma Compacts(t: Trail, x: Id) returns (u: Trail)
    requires Walked(t) && x in End(t).nodes && x in End(t).delivered
    requires var n := End(t).nodes[x]; Uncompacted(n) && n.log == [P(), Q()] && n.commit == 2 && n.lastApplied >= 2
    ensures Continues(t, u)
    ensures End(u).nodes == End(t).nodes[x := End(t).nodes[x].(log := [], offset := 2, snapIndex := 2, snapTerm := 1)]
  {
    hide Run;
    var n := End(t).nodes[x];
    assert CompactCheck(n, 2) == Some(1);
    u := Take(t, CheckCompaction(x, 2), End(t).(tickets := End(t).tickets + {Ticket(x, 2, 1)}));
    assert CompactDrop(n, 2, 1) == n.(log := [], offset := 2, snapIndex := 2, snapTerm := 1);
    u := Take(u, DropCompacted(x, 2, 1), Set(End(u), x, CompactDrop(n, 2, 1)));
  }

  /**
   A run with two moments: at the first, d does not need a snapshot; at the second, after a compaction,
   the request built for d takes its commit index from 1 back to 0.
   */
  lemma RaceLowersCommit(f: Three) returns (t: Trail, u: Trail)
    requires f.Distinct()
    ensures Continues(t, u) && f.x in End(t).nodes && f.x in End(u).nodes && f.d in End(u).nodes
    ensures !NeedsSnapshot(End(t).nodes[f.x], f.d) && TailFor(End(u).nodes[f.x], f.d).Some?
    ensures var m := End(u).nodes[f.d];
            m.commit == 1 && OnAppendRequest(m, TailFor(End(u).nodes[f.x], f.d).value, 0).node.commit == 0
  {
    hide Run, Listing;
    t := LosesReply(f);
    t := Publishes(t, f);
    t := SecondCommit(t, f);
    var w := ApplyAll(t, f.x);
    assert Behind(w, f);
    u := Compacts(w, f.x);
    assert TailFor(End(u).nodes[f.x], f.d) == Some(AppendRequest(1, f.x, 0, 0, [], 2));
  }
}
