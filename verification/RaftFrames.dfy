/**
 What each part of the invariant needs from a step in which one node moves and the history grows.
 */
module RaftFrames {
  import opened RaftTypes
  import opened RaftSpec
  import opened RaftHistory
  import opened RaftGrowth

  /** A node's term never falls, and within a term its vote and its leadership stay. */
  ghost predicate Follows(n: Peer, n': Peer) {
    || n'.term > n.term
    || (n'.term == n.term && (n'.vote == n.vote || n.vote == "") && (n.role == Leader ==> n'.role == Leader))
  }

  ghost predicate Moves(s: Cluster, h: History, s': Cluster, h': History, x: Id) {
    && x in s.peers && x in s'.peers && s'.peers == s.peers[x := s'.peers[x]]
    && Follows(s.peers[x], s'.peers[x]) && Grows(h, h')
  }

  lemma GrowsSelf(h: History)
    ensures Grows(h, h)
  {
  }

  lemma SameMembers(s: Cluster, h: History, s': Cluster, h': History, x: Id)
    requires Moves(s, h, s', h', x)
    ensures s'.peers.Keys == s.peers.Keys
  {
  }

  lemma FrameBids(s: Cluster, h: History, s': Cluster, h': History, x: Id)
    requires Moves(s, h, s', h', x) && BidsInv(s, h)
    requires forall b :: b in h'.bids && b !in h.bids ==> BidOk(b, h') && BidTermOk(b, s')
    ensures BidsInv(s', h')
  {
    forall b | b in h'.bids ensures BidOk(b, h') && BidTermOk(b, s') {
      if b in h.bids { BidGrows(b, h, h'); }
    }
  }

  lemma FrameBallots(s: Cluster, h: History, s': Cluster, h': History, x: Id)
    requires Moves(s, h, s', h', x) && BidsInv(s, h) && BallotsInv(s, h) && OneVotePerTerm(h')
    requires forall b :: b in h'.ballots && b !in h.ballots ==> BallotOk(b, s', h')
    ensures BallotsInv(s', h')
  {
  }

  lemma FrameThrones(s: Cluster, h: History, s': Cluster, h': History, x: Id)
    requires Moves(s, h, s', h', x) && ThronesInv(s, h)
    requires forall t :: t in h'.reigns && t !in h.reigns ==> ThroneOk(t, s', h')
    ensures ThronesInv(s', h')
  {
  }

  lemma FrameReigns(h: History, h': History, members: set<Id>)
    requires Grows(h, h') && ReignsInv(h, members)
    requires forall t :: t in h'.reigns && (t !in h.reigns || h.reigns[t].log != h'.reigns[t].log)
                         ==> ReignOk(t, h', members)
    ensures ReignsInv(h', members)
  {
    forall t | t in h'.reigns ensures ReignOk(t, h', members) {
      if t in h.reigns && h.reigns[t].log == h'.reigns[t].log { ReignKept(t, h, h', members); }
    }
  }

  /** Only x acknowledges anything new, and only to the leader of its own term. */
  ghost predicate AcksOnlyBy(x: Id, t: nat, h: History, h': History) {
    forall v, u :: (v != x || u != t) ==> AckOf(h', v, u) == AckOf(h, v, u)
  }

  lemma FrameAcks(s: Cluster, h: History, s': Cluster, h': History, x: Id)
    requires Moves(s, h, s', h', x) && AcksInv(s, h)
    requires AcksOnlyBy(x, s'.peers[x].term, h, h') && AckOk(x, s'.peers[x].term, s', h')
    ensures AcksInv(s', h')
  {
    forall v, t ensures AckOk(v, t, s', h') {
      if v != x || t != s'.peers[x].term {
        assert AckOk(v, t, s, h) && AckOf(h', v, t) == AckOf(h, v, t);
        if AckOf(h, v, t) > 0 { assert ReignGrows(h.reigns[t], h'.reigns[t]); }
      }
    }
  }

  /** What x itself acknowledged is the caller's concern. */
  lemma FrameKept(s: Cluster, h: History, s': Cluster, h': History, x: Id)
    requires Moves(s, h, s', h', x) && AcksInv(s, h) && KeptInv(s, h)
    requires AcksOnlyBy(x, s'.peers[x].term, h, h')
    requires forall t, k :: 0 <= k < AckOf(h', x, t) ==> Kept(x, t, k, s', h')
    ensures KeptInv(s', h')
  {
    forall v, t, k | 0 <= k < AckOf(h', v, t) ensures Kept(v, t, k, s', h') {
      if v != x {
        assert AckOf(h', v, t) == AckOf(h, v, t);
        assert Kept(v, t, k, s, h) && AckOk(v, t, s, h);
        KeptGrows(v, t, k, s, h, s', h');
      }
    }
  }

  /** A node that neither changes its log nor acknowledges anything new keeps what it had. */
  lemma FrameKeptStill(s: Cluster, h: History, s': Cluster, h': History, x: Id)
    requires Moves(s, h, s', h', x) && AcksInv(s, h) && KeptInv(s, h)
    requires h'.acks == h.acks && s'.peers[x].log == s.peers[x].log
    ensures KeptInv(s', h') && AcksOnlyBy(x, s'.peers[x].term, h, h')
  {
    forall t, k | 0 <= k < AckOf(h', x, t) ensures Kept(x, t, k, s', h') {
      assert AckOf(h', x, t) == AckOf(h, x, t);
      assert Kept(x, t, k, s, h) && AckOk(x, t, s, h);
      KeptGrows(x, t, k, s, h, s', h');
    }
    FrameKept(s, h, s', h', x);
  }

  /** Votes already cast: the voter has left the terms they vouch for. */
  lemma FrameEndorsed(s: Cluster, h: History, s': Cluster, h': History, x: Id)
    requires Moves(s, h, s', h', x) && BallotsInv(s, h) && AcksInv(s, h) && EndorsedInv(h)
    requires AcksOnlyBy(x, s'.peers[x].term, h, h')
    requires forall b, t: nat, k: nat ::
               b in h'.ballots && b !in h.ballots && t < b.term && k < AckOf(h', b.voter, t) && OwnTerm(h', t, k)
               ==> Endorsed(b, t, k, h')
    ensures EndorsedInv(h')
  {
    forall b, t: nat, k: nat | b in h'.ballots && t < b.term && k < AckOf(h', b.voter, t) && OwnTerm(h', t, k)
      ensures Endorsed(b, t, k, h')
    {
      if b in h.ballots {
        assert BallotOk(b, s, h);
        assert AckOf(h', b.voter, t) == AckOf(h, b.voter, t);
        OwnTermBack(s, h, h', b.voter, t, k);
        assert Endorsed(b, t, k, h);
        EndorsedGrows(b, t, k, h, h');
      }
    }
  }

  lemma OwnTermBack(s: Cluster, h: History, h': History, v: Id, t: nat, k: nat)
    requires AcksInv(s, h) && Grows(h, h') && k < AckOf(h, v, t) && OwnTerm(h', t, k)
    ensures OwnTerm(h, t, k)
  {
    assert AckOk(v, t, s, h);
    assert ReignGrows(h.reigns[t], h'.reigns[t]);
  }

  lemma FrameInherited(s: Cluster, h: History, s': Cluster, h': History, x: Id)
    requires Moves(s, h, s', h', x) && BallotsInv(s, h) && ReignsInv(h, s.peers.Keys) && AcksInv(s, h)
    requires InheritedInv(h) && AcksOnlyBy(x, s'.peers[x].term, h, h')
    requires forall u, v, t: nat, k: nat ::
               (&& u in h'.reigns && u !in h.reigns && v in h'.reigns[u].voters && t < u
                && k < AckOf(h', v, t) && OwnTerm(h', t, k))
               ==> Inherited(u, v, t, k, h')
    ensures InheritedInv(h')
  {
    forall u, v, t: nat, k: nat | u in h'.reigns && v in h'.reigns[u].voters && t < u && k < AckOf(h', v, t)
        && OwnTerm(h', t, k)
      ensures Inherited(u, v, t, k, h')
    {
      if u in h.reigns {
        assert ReignOk(u, h, s.peers.Keys) && ReignGrows(h.reigns[u], h'.reigns[u]);
        assert BallotOk(Ballot(u, v, h.reigns[u].leader), s, h);
        assert AckOf(h', v, t) == AckOf(h, v, t);
        OwnTermBack(s, h, h', v, t, k);
        assert Inherited(u, v, t, k, h);
        InheritedGrows(u, v, t, k, h, h');
      }
    }
  }

  lemma FrameDecisions(h: History, h': History, members: set<Id>)
    requires Grows(h, h') && DecisionsInv(h, members) && h'.decisions == h.decisions && h'.canon == h.canon
    ensures DecisionsInv(h', members)
  {
    forall d | d in h'.decisions ensures DecisionOk(d, h', members) { DecisionGrows(d, h, h', members); }
  }

  /** The nodes that did not move. */
  lemma FramePeers(s: Cluster, h: History, s': Cluster, h': History, x: Id)
    requires Moves(s, h, s', h', x) && PeersInv(s, h)
    requires AcksOnlyBy(x, s'.peers[x].term, h, h') && PeerOk(x, s'.peers[x], h')
    requires forall t :: t in h'.reigns && (t !in h.reigns || h.reigns[t].log != h'.reigns[t].log)
                         ==> h'.reigns[t].leader == x
    ensures PeersInv(s', h')
  {
    forall y | y in s'.peers ensures PeerOk(y, s'.peers[y], h') {
      if y != x {
        assert PeerOk(y, s.peers[y], h);
        RoleGrows(y, s.peers[y], h, h');
        PeerGrows(y, s.peers[y], h, h');
      }
    }
  }

  /** A step that adds nothing to the history and leaves the log of x alone. */
  lemma FrameStill(s: Cluster, h: History, s': Cluster, x: Id)
    requires Moves(s, h, s', h, x) && Inv(s, h)
    requires s'.peers[x].log == s.peers[x].log
    requires PeerOk(x, s'.peers[x], h) && NetInv(s'.net, h)
    ensures Inv(s', h)
  {
    SameMembers(s, h, s', h, x);
    FrameBids(s, h, s', h, x);
    FrameBallots(s, h, s', h, x);
    FrameThrones(s, h, s', h, x);
    FrameKeptStill(s, h, s', h, x);
    AckStill(s, h, s', h, x);
    FrameAcks(s, h, s', h, x);
    FramePeers(s, h, s', h, x);
  }

  lemma AckStill(s: Cluster, h: History, s': Cluster, h': History, x: Id)
    requires Moves(s, h, s', h', x) && AcksInv(s, h) && h'.acks == h.acks
    ensures AckOk(x, s'.peers[x].term, s', h')
  {
    var t := s'.peers[x].term;
    assert AckOk(x, t, s, h) && AckOf(h', x, t) == AckOf(h, x, t);
    if AckOf(h, x, t) > 0 { assert ReignGrows(h.reigns[t], h'.reigns[t]); }
  }

  /** A step with no new leader, no new acknowledgement and no change to the log of x. */
  lemma FrameVoting(s: Cluster, h: History, s': Cluster, h': History, x: Id)
    requires Moves(s, h, s', h', x) && Inv(s, h)
    requires h'.reigns == h.reigns && h'.acks == h.acks && s'.peers[x].log == s.peers[x].log
    ensures AcksOnlyBy(x, s'.peers[x].term, h, h') && s'.peers.Keys == s.peers.Keys
    ensures ReignsInv(h', s'.peers.Keys) && ThronesInv(s', h') && AcksInv(s', h') && KeptInv(s', h')
    ensures InheritedInv(h')
  {
    SameMembers(s, h, s', h', x);
    FrameReigns(h, h', s.peers.Keys);
    FrameThrones(s, h, s', h', x);
    FrameKeptStill(s, h, s', h', x);
    AckStill(s, h, s', h', x);
    FrameAcks(s, h, s', h', x);
    FrameInherited(s, h, s', h', x);
  }
}
