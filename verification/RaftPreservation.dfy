/** Every step keeps the invariant: one lemma for each kind of step. */
module RaftPreservation {
  import opened RaftTypes
  import opened RaftSpec
  import opened RaftHistory
  import opened RaftGrowth
  import opened RaftFrames

  /** What the history notes about a step. */
  ghost function Record(s: Cluster, e: Event, s': Cluster, h: History): History {
    if e.x !in s.peers || e.x !in s'.peers then h else
    var n, n' := s.peers[e.x], s'.peers[e.x];
    match e
    case Campaign(x) =>
      h.(bids := h.bids[Bid(n'.term, x) := n'.log], ballots := h.ballots + {Ballot(n'.term, x, x)})
    case Vote(x, ask) =>
      if Grants(n, ask) then h.(ballots := h.ballots + {Ballot(ask.term, x, ask.candidate)}) else h
    case Elect(x, voters, cleared) =>
      h.(reigns := h.reigns[n.term := Reign(x, voters + {x}, n.log, n.log)],
         acks := h.acks[Receipt(x, n.term) := |n.log|])
    case Propose(x, _) =>
      if n.term in h.reigns then
        h.(reigns := h.reigns[n.term := h.reigns[n.term].(log := n'.log)],
           acks := h.acks[Receipt(x, n.term) := |n'.log|])
      else h
    case Absorb(x, req, _, _, done, _, _) =>
      if done then
        h.(acks := h.acks[Receipt(x, req.term) := Max(AckOf(h, x, req.term), req.prevIndex + |req.entries|)])
      else h
    case Commit(x, upTo) =>
      h.(decisions := h.decisions + {Decision(n.term, upTo)},
         canon := if |h.canon| < upTo <= |n.log| then n.log[..upTo] else h.canon)
    case _ => h
  }

  // ---- Campaign -----------------------------------------------------------------------------

  lemma StepCampaign(s: Cluster, x: Id, s': Cluster, h: History)
    requires Inv(s, h) && Step(s, Campaign(x), s')
    ensures var h' := Record(s, Campaign(x), s', h); Grows(h, h') && Inv(s', h')
  {
    var h' := Record(s, Campaign(x), s', h);
    CampaignMoves(s, x, s', h);
    FrameVoting(s, h, s', h', x);
    FrameDecisions(h, h', s.peers.Keys);
    CampaignBallots(s, x, s', h);
    CampaignEndorsed(s, x, s', h);
    CampaignPeer(s, x, s', h);
    FramePeers(s, h, s', h', x);
    CampaignNet(s, x, s', h);
  }

  lemma CampaignMoves(s: Cluster, x: Id, s': Cluster, h: History)
    requires BidsInv(s, h) && Step(s, Campaign(x), s')
    ensures Moves(s, h, s', Record(s, Campaign(x), s', h), x)
    ensures Bid(s'.peers[x].term, x) !in h.bids
  {
    var h' := Record(s, Campaign(x), s', h);
    var b := Bid(s'.peers[x].term, x);
    assert b in h.bids ==> BidTermOk(b, s);
    assert forall v, t :: AckOf(h', v, t) == AckOf(h, v, t);
  }

  lemma CampaignBallots(s: Cluster, x: Id, s': Cluster, h: History)
    requires BidsInv(s, h) && BallotsInv(s, h) && PeersInv(s, h) && Step(s, Campaign(x), s')
    requires Moves(s, h, s', Record(s, Campaign(x), s', h), x)
    ensures var h' := Record(s, Campaign(x), s', h); BidsInv(s', h') && BallotsInv(s', h')
  {
    var n, n', h' := s.peers[x], s'.peers[x], Record(s, Campaign(x), s', h);
    assert PeerOk(x, n, h);
    RootedGrows(n.log, h, h');
    FrameBids(s, h, s', h', x);
    assert OneVotePerTerm(h') by {
      forall c | c in h.ballots && c.term == n'.term ensures c.voter != x { assert BallotOk(c, s, h); }
    }
    FrameBallots(s, h, s', h', x);
  }

  lemma CampaignNet(s: Cluster, x: Id, s': Cluster, h: History)
    requires NetInv(s.net, h) && Step(s, Campaign(x), s') && Grows(h, Record(s, Campaign(x), s', h))
    ensures NetInv(s'.net, Record(s, Campaign(x), s', h))
  {
    var h' := Record(s, Campaign(x), s', h);
    NetGrows(s.net, h, h');
    forall m | m in s'.net ensures MsgOk(m, h') { assert m in s.net || m in Asks(s, x, s'.peers[x]); }
  }

  lemma CampaignPeer(s: Cluster, x: Id, s': Cluster, h: History)
    requires PeersInv(s, h) && ThronesInv(s, h) && Step(s, Campaign(x), s')
    requires Grows(h, Record(s, Campaign(x), s', h))
    ensures PeerOk(x, s'.peers[x], Record(s, Campaign(x), s', h))
  {
    var n, n', h' := s.peers[x], s'.peers[x], Record(s, Campaign(x), s', h);
    assert PeerOk(x, n, h);
    if n'.term in h.reigns { assert ThroneOk(n'.term, s, h); }
    RootedGrows(n.log, h, h');
    SettledGrows(h, h', n.peak, n.term, n'.term);
  }

  lemma CampaignEndorsed(s: Cluster, x: Id, s': Cluster, h: History)
    requires BallotsInv(s, h) && AcksInv(s, h) && KeptInv(s, h) && EndorsedInv(h) && Step(s, Campaign(x), s')
    requires Moves(s, h, s', Record(s, Campaign(x), s', h), x)
    ensures EndorsedInv(Record(s, Campaign(x), s', h))
  {
    var n, n', h' := s.peers[x], s'.peers[x], Record(s, Campaign(x), s', h);
    forall t: nat, k: nat | t < n'.term && k < AckOf(h', x, t) && OwnTerm(h', t, k)
      ensures Endorsed(Ballot(n'.term, x, x), t, k, h')
    {
      assert Kept(x, t, k, s, h) && AckOk(x, t, s, h);
      if !Same(h.reigns[t].log, n.log, k + 1) { LostGrows(h, h', t, k + 1, n.term, n'.term); }
    }
    FrameEndorsed(s, h, s', h', x);
  }

  // ---- Vote ---------------------------------------------------------------------------------

  lemma StepVote(s: Cluster, x: Id, ask: VoteRequest, s': Cluster, h: History)
    requires Inv(s, h) && Step(s, Vote(x, ask), s')
    ensures var h' := Record(s, Vote(x, ask), s', h); Grows(h, h') && Inv(s', h')
  {
    VoteMoves(s, x, ask, s', h);
    VoteBallots(s, x, ask, s', h);
    VoteEndorsed(s, x, ask, s', h);
    VotePeers(s, x, ask, s', h);
    VoteNet(s, x, ask, s', h);
    VoteFrames(s, x, ask, s', h, Record(s, Vote(x, ask), s', h));
  }

  lemma VoteFrames(s: Cluster, x: Id, ask: VoteRequest, s': Cluster, h: History, h': History)
    requires Inv(s, h) && Moves(s, h, s', h', x)
    requires h' == h.(ballots := h'.ballots) && s'.peers[x] == AfterVote(s.peers[x], ask)
    ensures s'.peers.Keys == s.peers.Keys
    ensures ReignsInv(h', s'.peers.Keys) && ThronesInv(s', h') && AcksInv(s', h') && KeptInv(s', h')
    ensures InheritedInv(h') && DecisionsInv(h', s'.peers.Keys)
  {
    FrameVoting(s, h, s', h', x);
    FrameDecisions(h, h', s.peers.Keys);
  }

  lemma VotePeers(s: Cluster, x: Id, ask: VoteRequest, s': Cluster, h: History)
    requires PeersInv(s, h) && Step(s, Vote(x, ask), s')
    requires Moves(s, h, s', Record(s, Vote(x, ask), s', h), x)
    ensures PeersInv(s', Record(s, Vote(x, ask), s', h))
  {
    VotePeer(s, x, ask, s', h);
    FramePeers(s, h, s', Record(s, Vote(x, ask), s', h), x);
  }

  lemma VoteNet(s: Cluster, x: Id, ask: VoteRequest, s': Cluster, h: History)
    requires NetInv(s.net, h) && Step(s, Vote(x, ask), s') && Grows(h, Record(s, Vote(x, ask), s', h))
    ensures NetInv(s'.net, Record(s, Vote(x, ask), s', h))
  {
    NetGrows(s.net, h, Record(s, Vote(x, ask), s', h));
  }

  lemma VoteMoves(s: Cluster, x: Id, ask: VoteRequest, s': Cluster, h: History)
    requires Step(s, Vote(x, ask), s')
    ensures Moves(s, h, s', Record(s, Vote(x, ask), s', h), x)
  {
    var h' := Record(s, Vote(x, ask), s', h);
    assert forall v, t :: AckOf(h', v, t) == AckOf(h, v, t);
  }

  lemma VoteBallots(s: Cluster, x: Id, ask: VoteRequest, s': Cluster, h: History)
    requires BidsInv(s, h) && BallotsInv(s, h) && NetInv(s.net, h) && Step(s, Vote(x, ask), s')
    requires Moves(s, h, s', Record(s, Vote(x, ask), s', h), x)
    ensures var h' := Record(s, Vote(x, ask), s', h); BidsInv(s', h') && BallotsInv(s', h')
  {
    var h' := Record(s, Vote(x, ask), s', h);
    assert MsgOk(VoteAsk(x, ask), h);
    FrameBids(s, h, s', h', x);
    assert OneVotePerTerm(h') by {
      forall c | c in h.ballots && c.term == ask.term && c.voter == x && Grants(s.peers[x], ask)
        ensures c.candidate == ask.candidate
      {
        assert BallotOk(c, s, h) && BidTermOk(Bid(c.term, c.candidate), s);
      }
    }
    FrameBallots(s, h, s', h', x);
  }

  lemma VotePeer(s: Cluster, x: Id, ask: VoteRequest, s': Cluster, h: History)
    requires PeersInv(s, h) && Step(s, Vote(x, ask), s')
    requires Grows(h, Record(s, Vote(x, ask), s', h))
    ensures PeerOk(x, s'.peers[x], Record(s, Vote(x, ask), s', h))
  {
    var n, n', h' := s.peers[x], s'.peers[x], Record(s, Vote(x, ask), s', h);
    assert PeerOk(x, n, h);
    RootedGrows(n.log, h, h');
    SettledGrows(h, h', n.peak, n.term, n'.term);
    if n'.role != Follower { RoleGrows(x, n, h, h'); }
  }

  /** A log at least as up to date as one that holds an acknowledged prefix holds it too, or a leader lost it. */
  lemma UpToDateKeeps(h: History, members: set<Id>, log: seq<Entry>, bid: seq<Entry>, t: nat, k: nat, limit: nat)
    requires ReignsInv(h, members) && Rooted(log, h.reigns) && Rooted(bid, h.reigns) && TermsBelow(bid, limit)
    requires OwnTerm(h, t, k) && Same(h.reigns[t].log, log, k + 1)
    requires UpToDate(log, |bid|, LastTerm(bid))
    ensures Same(h.reigns[t].log, bid, k + 1) || Lost(h.reigns, t, k + 1, limit)
  {
    var u := LastTerm(log);
    var w := LastTerm(bid);
    assert RootedAt(log, |log| - 1, h.reigns) && ReignOk(u, h, members);
    assert log[k].term == t;
    TermsUpTo(h, members, u, k);
    assert t <= u && u >= 1;
    assert bid != [];
    assert RootedAt(bid, |bid| - 1, h.reigns) && ReignOk(w, h, members);
    if w == u {
      SameThrough(log, h.reigns[u].log, bid, k + 1);
      SameThrough(h.reigns[t].log, log, bid, k + 1);
    } else if Same(h.reigns[t].log, h.reigns[w].base, k + 1) {
      assert |bid| > |h.reigns[w].base|;
      SameThrough(h.reigns[t].log, h.reigns[w].base, h.reigns[w].log, k + 1);
      SameThrough(h.reigns[t].log, h.reigns[w].log, bid, k + 1);
    } else {
      assert bid[|bid| - 1].term < limit;
    }
  }

  /** A leader's log holds no term above its own. */
  lemma TermsUpTo(h: History, members: set<Id>, u: nat, k: nat)
    requires ReignsInv(h, members) && u in h.reigns && k < |h.reigns[u].log|
    ensures h.reigns[u].log[k].term <= u
  {
  }

  lemma VoteEndorsed(s: Cluster, x: Id, ask: VoteRequest, s': Cluster, h: History)
    requires PeersInv(s, h) && NetInv(s.net, h) && BidsInv(s, h) && ReignsInv(h, s.peers.Keys)
    requires AcksInv(s, h) && KeptInv(s, h) && BallotsInv(s, h) && EndorsedInv(h)
    requires Step(s, Vote(x, ask), s')
    requires Moves(s, h, s', Record(s, Vote(x, ask), s', h), x)
    ensures EndorsedInv(Record(s, Vote(x, ask), s', h))
  {
    var h' := Record(s, Vote(x, ask), s', h);
    if Grants(s.peers[x], ask) {
      NewBallot(s, x, ask, s', h, h');
      FrameEndorsed(s, h, s', h', x);
    }
  }

  lemma NewBallot(s: Cluster, x: Id, ask: VoteRequest, s': Cluster, h: History, h': History)
    requires PeersInv(s, h) && NetInv(s.net, h) && BidsInv(s, h) && ReignsInv(h, s.peers.Keys)
    requires AcksInv(s, h) && KeptInv(s, h)
    requires x in s.peers && VoteAsk(x, ask) in s.net && ask.term >= s.peers[x].term && Grants(s.peers[x], ask)
    requires h' == h.(ballots := h.ballots + {Ballot(ask.term, x, ask.candidate)}) && Grows(h, h')
    ensures forall b, t: nat, k: nat ::
              b in h'.ballots && b !in h.ballots && t < b.term && k < AckOf(h', b.voter, t) && OwnTerm(h', t, k)
              ==> Endorsed(b, t, k, h')
  {
    forall b, t: nat, k: nat |
      b in h'.ballots && b !in h.ballots && t < b.term && k < AckOf(h', b.voter, t) && OwnTerm(h', t, k)
      ensures Endorsed(b, t, k, h')
    {
      VoteEndorses(s, x, ask, h, t, k);
      EndorsedGrows(b, t, k, h, h');
    }
  }

  lemma VoteEndorses(s: Cluster, x: Id, ask: VoteRequest, h: History, t: nat, k: nat)
    requires PeersInv(s, h) && NetInv(s.net, h) && BidsInv(s, h) && ReignsInv(h, s.peers.Keys)
    requires AcksInv(s, h) && KeptInv(s, h)
    requires x in s.peers && VoteAsk(x, ask) in s.net && ask.term >= s.peers[x].term && Grants(s.peers[x], ask)
    requires t < ask.term && k < AckOf(h, x, t) && OwnTerm(h, t, k)
    ensures Endorsed(Ballot(ask.term, x, ask.candidate), t, k, h)
  {
    var n := s.peers[x];
    assert MsgOk(VoteAsk(x, ask), h) && PeerOk(x, n, h);
    var bid := h.bids[Bid(ask.term, ask.candidate)];
    assert BidOk(Bid(ask.term, ask.candidate), h);
    assert Kept(x, t, k, s, h) && AckOk(x, t, s, h);
    if Same(h.reigns[t].log, n.log, k + 1) {
      UpToDateKeeps(h, s.peers.Keys, n.log, bid, t, k, ask.term);
    } else {
      GrowsSelf(h);
      LostGrows(h, h, t, k + 1, n.term, ask.term);
    }
  }

  // ---- Elect --------------------------------------------------------------------------------

  lemma StepElect(s: Cluster, x: Id, voters: set<Id>, cleared: map<Id, nat>, s': Cluster, h: History)
    requires Inv(s, h) && Step(s, Elect(x, voters, cleared), s')
    ensures var h' := Record(s, Elect(x, voters, cleared), s', h); Grows(h, h') && Inv(s', h')
  {
    var h' := Record(s, Elect(x, voters, cleared), s', h);
    ElectBallots(s, x, voters, cleared, s', h);
    ElectFresh(s, x, voters, cleared, s', h);
    ElectMoves(s, x, voters, cleared, s', h);
    SameMembers(s, h, s', h', x);
    FrameBids(s, h, s', h', x);
    FrameBallots(s, h, s', h', x);
    ElectReigns(s, x, voters, cleared, s', h);
    ElectAcks(s, x, voters, cleared, s', h);
    FrameEndorsed(s, h, s', h', x);
    ElectInherited(s, x, voters, cleared, s', h);
    FrameDecisions(h, h', s.peers.Keys);
    ElectPeer(s, x, voters, cleared, s', h);
    FramePeers(s, h, s', h', x);
    NetGrows(s.net, h, h');
  }

  lemma ElectBallots(s: Cluster, x: Id, voters: set<Id>, cleared: map<Id, nat>, s': Cluster, h: History)
    requires PeersInv(s, h) && NetInv(s.net, h) && Step(s, Elect(x, voters, cleared), s')
    ensures forall v :: v in voters + {x} ==> Ballot(s.peers[x].term, v, x) in h.ballots
  {
    var t := s.peers[x].term;
    assert PeerOk(x, s.peers[x], h);
    forall v | v in voters ensures Ballot(t, v, x) in h.ballots {
      var req :| VoteReply(v, req, t, true) in s.net && req.candidate == x && req.term == t;
      assert MsgOk(VoteReply(v, req, t, true), h);
    }
  }

  /** Election safety: two majorities of one term chose the same candidate. */
  lemma OneLeaderPerTerm(h: History, members: set<Id>, t: nat, x: Id, voters: set<Id>)
    requires ReignsInv(h, members) && OneVotePerTerm(h) && t in h.reigns
    requires voters <= members && 2 * |voters| > |members|
    requires forall v :: v in voters ==> Ballot(t, v, x) in h.ballots
    ensures h.reigns[t].leader == x
  {
    assert ReignOk(t, h, members);
    var v := MajoritiesMeet(members, voters, h.reigns[t].voters);
    assert Ballot(t, v, x) in h.ballots && Ballot(t, v, h.reigns[t].leader) in h.ballots;
  }

  lemma ElectFresh(s: Cluster, x: Id, voters: set<Id>, cleared: map<Id, nat>, s': Cluster, h: History)
    requires BallotsInv(s, h) && ReignsInv(h, s.peers.Keys) && PeersInv(s, h) && AcksInv(s, h)
    requires Step(s, Elect(x, voters, cleared), s')
    requires forall v :: v in voters + {x} ==> Ballot(s.peers[x].term, v, x) in h.ballots
    ensures s.peers[x].term !in h.reigns && AckOf(h, x, s.peers[x].term) == 0
  {
    var t := s.peers[x].term;
    assert PeerOk(x, s.peers[x], h) && AckOk(x, t, s, h);
    if t in h.reigns { OneLeaderPerTerm(h, s.peers.Keys, t, x, voters + {x}); }
  }

  lemma ElectMoves(s: Cluster, x: Id, voters: set<Id>, cleared: map<Id, nat>, s': Cluster, h: History)
    requires Step(s, Elect(x, voters, cleared), s')
    requires s.peers[x].term !in h.reigns && AckOf(h, x, s.peers[x].term) == 0
    ensures Moves(s, h, s', Record(s, Elect(x, voters, cleared), s', h), x)
    ensures AcksOnlyBy(x, s'.peers[x].term, h, Record(s, Elect(x, voters, cleared), s', h))
  {
  }

  lemma ElectReigns(s: Cluster, x: Id, voters: set<Id>, cleared: map<Id, nat>, s': Cluster, h: History)
    requires ReignsInv(h, s.peers.Keys) && ThronesInv(s, h) && PeersInv(s, h) && BidsInv(s, h)
    requires Step(s, Elect(x, voters, cleared), s')
    requires Moves(s, h, s', Record(s, Elect(x, voters, cleared), s', h), x)
    requires forall v :: v in voters + {x} ==> Ballot(s.peers[x].term, v, x) in h.ballots
    ensures ReignsInv(Record(s, Elect(x, voters, cleared), s', h), s.peers.Keys)
    ensures ThronesInv(s', Record(s, Elect(x, voters, cleared), s', h))
  {
    var n, h' := s.peers[x], Record(s, Elect(x, voters, cleared), s', h);
    assert PeerOk(x, n, h) && BidOk(Bid(n.term, x), h);
    RootedGrows(n.log, h, h');
    assert ReignOk(n.term, h', s.peers.Keys);
    FrameReigns(h, h', s.peers.Keys);
    FrameThrones(s, h, s', h', x);
  }

  lemma ElectAcks(s: Cluster, x: Id, voters: set<Id>, cleared: map<Id, nat>, s': Cluster, h: History)
    requires AcksInv(s, h) && KeptInv(s, h) && Step(s, Elect(x, voters, cleared), s')
    requires Moves(s, h, s', Record(s, Elect(x, voters, cleared), s', h), x)
    requires AcksOnlyBy(x, s'.peers[x].term, h, Record(s, Elect(x, voters, cleared), s', h))
    ensures AcksInv(s', Record(s, Elect(x, voters, cleared), s', h))
    ensures KeptInv(s', Record(s, Elect(x, voters, cleared), s', h))
  {
    var n, h' := s.peers[x], Record(s, Elect(x, voters, cleared), s', h);
    FrameAcks(s, h, s', h', x);
    forall t, k | 0 <= k < AckOf(h', x, t) ensures Kept(x, t, k, s', h') {
      if t != n.term {
        assert AckOf(h', x, t) == AckOf(h, x, t);
        assert Kept(x, t, k, s, h) && AckOk(x, t, s, h);
        KeptGrows(x, t, k, s, h, s', h');
      }
    }
    FrameKept(s, h, s', h', x);
  }

  lemma ElectInherited(s: Cluster, x: Id, voters: set<Id>, cleared: map<Id, nat>, s': Cluster, h: History)
    requires BallotsInv(s, h) && ReignsInv(h, s.peers.Keys) && AcksInv(s, h) && EndorsedInv(h) && InheritedInv(h)
    requires PeersInv(s, h) && Step(s, Elect(x, voters, cleared), s') && s.peers[x].term !in h.reigns
    requires Moves(s, h, s', Record(s, Elect(x, voters, cleared), s', h), x)
    requires AcksOnlyBy(x, s'.peers[x].term, h, Record(s, Elect(x, voters, cleared), s', h))
    requires forall v :: v in voters + {x} ==> Ballot(s.peers[x].term, v, x) in h.ballots
    ensures InheritedInv(Record(s, Elect(x, voters, cleared), s', h))
  {
    var n, h' := s.peers[x], Record(s, Elect(x, voters, cleared), s', h);
    assert PeerOk(x, n, h);
    forall v, t: nat, k: nat | v in voters + {x} && t < n.term && k < AckOf(h', v, t) && OwnTerm(h', t, k)
      ensures Inherited(n.term, v, t, k, h')
    {
      NewReign(s, h, h', Ballot(n.term, v, x), t, k);
    }
    FrameInherited(s, h, s', h', x);
  }

  lemma NewReign(s: Cluster, h: History, h': History, b: Ballot, t: nat, k: nat)
    requires AcksInv(s, h) && EndorsedInv(h) && Grows(h, h')
    requires b in h.ballots && b.term !in h.reigns && Bid(b.term, b.candidate) in h.bids
    requires b.term in h'.reigns && h'.reigns[b.term].base == h.bids[Bid(b.term, b.candidate)]
    requires t < b.term && k < AckOf(h, b.voter, t) && OwnTerm(h', t, k)
    ensures Inherited(b.term, b.voter, t, k, h')
  {
    OwnTermBack(s, h, h', b.voter, t, k);
    assert Endorsed(b, t, k, h);
    assert ReignGrows(h.reigns[t], h'.reigns[t]);
    var bid := h.bids[Bid(b.term, b.candidate)];
    if Same(h.reigns[t].log, bid, k + 1) {
      SameThrough(h'.reigns[t].log, h.reigns[t].log, bid, k + 1);
    } else {
      assert Lost(h.reigns, t, k + 1, b.term - 1);
      LostGrows(h, h', t, k + 1, b.term - 1, b.term - 1);
    }
  }

  lemma ElectPeer(s: Cluster, x: Id, voters: set<Id>, cleared: map<Id, nat>, s': Cluster, h: History)
    requires PeersInv(s, h) && Step(s, Elect(x, voters, cleared), s')
    requires Grows(h, Record(s, Elect(x, voters, cleared), s', h))
    ensures PeerOk(x, s'.peers[x], Record(s, Elect(x, voters, cleared), s', h))
  {
    var n, n', h' := s.peers[x], s'.peers[x], Record(s, Elect(x, voters, cleared), s', h);
    assert PeerOk(x, n, h);
    RootedGrows(n.log, h, h');
    SettledGrows(h, h', n.peak, n.term, n'.term);
  }

  // ---- Propose ------------------------------------------------------------------------------

  lemma StepPropose(s: Cluster, x: Id, command: string, s': Cluster, h: History)
    requires Inv(s, h) && Step(s, Propose(x, command), s')
    ensures var h' := Record(s, Propose(x, command), s', h); Grows(h, h') && Inv(s', h')
  {
    var h' := Record(s, Propose(x, command), s', h);
    ProposeMoves(s, x, command, s', h);
    SameMembers(s, h, s', h', x);
    FrameBids(s, h, s', h', x);
    FrameBallots(s, h, s', h', x);
    FrameThrones(s, h, s', h', x);
    ProposeReigns(s, x, command, s', h);
    ProposeAcks(s, x, command, s', h);
    FrameEndorsed(s, h, s', h', x);
    FrameInherited(s, h, s', h', x);
    FrameDecisions(h, h', s.peers.Keys);
    ProposePeers(s, x, command, s', h);
    NetGrows(s.net, h, h');
  }

  lemma ProposeMoves(s: Cluster, x: Id, command: string, s': Cluster, h: History)
    requires PeersInv(s, h) && Step(s, Propose(x, command), s')
    ensures Moves(s, h, s', Record(s, Propose(x, command), s', h), x)
    ensures AcksOnlyBy(x, s'.peers[x].term, h, Record(s, Propose(x, command), s', h))
  {
    assert PeerOk(x, s.peers[x], h);
  }

  lemma ProposeReigns(s: Cluster, x: Id, command: string, s': Cluster, h: History)
    requires PeersInv(s, h) && ReignsInv(h, s.peers.Keys) && Step(s, Propose(x, command), s')
    requires Grows(h, Record(s, Propose(x, command), s', h))
    ensures ReignsInv(Record(s, Propose(x, command), s', h), s.peers.Keys)
  {
    var n, h' := s.peers[x], Record(s, Propose(x, command), s', h);
    assert PeerOk(x, n, h);
    ReignExtended(n.term, h, h', s.peers.Keys, Entry(|n.log| + 1, n.term, command));
    FrameReigns(h, h', s.peers.Keys);
  }

  lemma ReignExtended(t: nat, h: History, h': History, members: set<Id>, entry: Entry)
    requires t in h.reigns && ReignOk(t, h, members) && Grows(h, h')
    requires entry.term == t && entry.index == |h.reigns[t].log| + 1
    requires h'.reigns[t] == h.reigns[t].(log := h.reigns[t].log + [entry])
    ensures ReignOk(t, h', members)
  {
    RootedGrows(h.reigns[t].base, h, h');
  }

  lemma ProposeAcks(s: Cluster, x: Id, command: string, s': Cluster, h: History)
    requires PeersInv(s, h) && AcksInv(s, h) && KeptInv(s, h) && Step(s, Propose(x, command), s')
    requires Moves(s, h, s', Record(s, Propose(x, command), s', h), x)
    requires AcksOnlyBy(x, s'.peers[x].term, h, Record(s, Propose(x, command), s', h))
    ensures AcksInv(s', Record(s, Propose(x, command), s', h))
    ensures KeptInv(s', Record(s, Propose(x, command), s', h))
  {
    var n, h' := s.peers[x], Record(s, Propose(x, command), s', h);
    assert PeerOk(x, n, h);
    FrameAcks(s, h, s', h', x);
    forall t, k | 0 <= k < AckOf(h', x, t) ensures Kept(x, t, k, s', h') {
      if t != n.term {
        assert AckOf(h', x, t) == AckOf(h, x, t);
        assert Kept(x, t, k, s, h) && AckOk(x, t, s, h);
        KeptGrows(x, t, k, s, h, s', h');
      }
    }
    FrameKept(s, h, s', h', x);
  }

  lemma ProposePeers(s: Cluster, x: Id, command: string, s': Cluster, h: History)
    requires PeersInv(s, h) && Step(s, Propose(x, command), s')
    requires Moves(s, h, s', Record(s, Propose(x, command), s', h), x)
    requires AcksOnlyBy(x, s'.peers[x].term, h, Record(s, Propose(x, command), s', h))
    ensures PeersInv(s', Record(s, Propose(x, command), s', h))
  {
    var n, n', h' := s.peers[x], s'.peers[x], Record(s, Propose(x, command), s', h);
    assert PeerOk(x, n, h);
    RootedGrows(n.log, h, h');
    forall k | 0 <= k < |n'.log| ensures RootedAt(n'.log, k, h'.reigns) {
      if k < |n.log| { assert RootedAt(n.log, k, h'.reigns); }
    }
    SettledGrows(h, h', n.peak, n.term, n'.term);
    assert PeerOk(x, n', h');
    FramePeers(s, h, s', h', x);
  }

  // ---- Absorb -------------------------------------------------------------------------------

  lemma ReignRooted(h: History, members: set<Id>, t: nat)
    requires ReignsInv(h, members) && t in h.reigns
    ensures Rooted(h.reigns[t].log, h.reigns) && TermsBelow(h.reigns[t].log, t + 1)
  {
    var r := h.reigns[t];
    assert ReignOk(t, h, members);
    forall k | 0 <= k < |r.log| ensures RootedAt(r.log, k, h.reigns) {
      if k < |r.base| {
        assert RootedAt(r.base, k, h.reigns);
        SameThrough(r.log, r.base, h.reigns[r.base[k].term].log, k + 1);
      }
    }
    forall k | 0 <= k < |r.log| ensures r.log[k].term < t + 1 { TermsUpTo(h, members, t, k); }
  }

  lemma RootedPrefix(a: seq<Entry>, b: seq<Entry>, r: map<nat, Reign>)
    requires Rooted(b, r) && Same(a, b, |a|)
    ensures Rooted(a, r)
  {
    forall k | 0 <= k < |a| ensures RootedAt(a, k, r) {
      assert RootedAt(b, k, r);
      SameThrough(a, b, r[a[k].term].log, k + 1);
    }
  }

  /** The entries a follower already holds with the leader's terms are the leader's entries. */
  lemma AgreedFront(log: seq<Entry>, req: AppendRequest, kept: nat, taken: nat, log': seq<Entry>, h: History)
    requires Rooted(log, h.reigns) && AppendOk(req, h) && Rooted(h.reigns[req.term].log, h.reigns)
    requires Matches(log, req) && Absorbs(log, req, kept, taken, log')
    ensures Same(log, h.reigns[req.term].log, req.prevIndex + kept)
  {
    var lead := h.reigns[req.term].log;
    var i := req.prevIndex + kept;
    if i > 0 {
      assert log[i - 1].term == lead[i - 1].term by {
        if kept > 0 { assert req.entries[kept - 1].term == log[req.prevIndex + (kept - 1)].term; }
      }
      LogMatching(log, lead, h.reigns, i - 1);
    }
  }

  /** Absorbing a leader's entries: the log stays, or becomes a prefix of the leader's that loses nothing shared. */
  lemma AbsorbOutcome(log: seq<Entry>, req: AppendRequest, kept: nat, taken: nat, log': seq<Entry>, h: History, c: nat)
    requires Rooted(log, h.reigns) && AppendOk(req, h) && Rooted(h.reigns[req.term].log, h.reigns)
    requires Matches(log, req) && Absorbs(log, req, kept, taken, log')
    ensures Same(log', h.reigns[req.term].log, req.prevIndex + taken)
    ensures log' == log || |log'| == req.prevIndex + taken
    ensures Same(log, h.reigns[req.term].log, c) ==> Same(log', h.reigns[req.term].log, c)
  {
    var lead := h.reigns[req.term].log;
    AgreedFront(log, req, kept, taken, log', h);
    if log' != log {
      forall k | 0 <= k < req.prevIndex + taken ensures log'[k] == lead[k] {
        if k < req.prevIndex + kept {
          assert log'[k] == log[k];
        } else {
          assert log'[k] == req.entries[k - req.prevIndex];
        }
      }
    }
  }

  lemma StepAbsorb(s: Cluster, e: Event, s': Cluster, h: History)
    requires Inv(s, h) && e.Absorb? && Step(s, e, s')
    ensures var h' := Record(s, e, s', h); Grows(h, h') && Inv(s', h')
  {
    var h' := Record(s, e, s', h);
    AbsorbMoves(s, e, s', h);
    SameMembers(s, h, s', h', e.x);
    FrameBids(s, h, s', h', e.x);
    FrameBallots(s, h, s', h', e.x);
    FrameThrones(s, h, s', h', e.x);
    FrameReigns(h, h', s.peers.Keys);
    AbsorbKept(s, e, s', h);
    FrameEndorsed(s, h, s', h', e.x);
    FrameInherited(s, h, s', h', e.x);
    FrameDecisions(h, h', s.peers.Keys);
    AbsorbPeers(s, e, s', h);
    AbsorbNet(s, e, s', h);
  }

  lemma AbsorbMoves(s: Cluster, e: Event, s': Cluster, h: History)
    requires PeersInv(s, h) && NetInv(s.net, h) && AcksInv(s, h) && e.Absorb? && Step(s, e, s')
    ensures Moves(s, h, s', Record(s, e, s', h), e.x)
    ensures AcksOnlyBy(e.x, s'.peers[e.x].term, h, Record(s, e, s', h))
    ensures Record(s, e, s', h) == h.(acks := Record(s, e, s', h).acks)
    ensures AckOk(e.x, s'.peers[e.x].term, s', Record(s, e, s', h))
  {
    var n, n' := s.peers[e.x], s'.peers[e.x];
    HearingFollows(s, e.x, e.req, h);
    assert Follows(n, n');
    assert AppendOk(e.req, h) by { assert MsgOk(AppendAsk(e.x, e.req), h); }
    hide PeersInv, NetInv, AcksInv, Grows, AcksOnlyBy, AckOk, AppendOk;
    AcksRaised(s, e.x, e.req, s', h, Record(s, e, s', h));
  }

  /** A leader never hears its own term from somebody else. */
  lemma HearingFollows(s: Cluster, x: Id, req: AppendRequest, h: History)
    requires PeersInv(s, h) && NetInv(s.net, h) && x in s.peers && AppendAsk(x, req) in s.net
    requires req.term >= s.peers[x].term
    ensures Follows(s.peers[x], AfterHearing(s.peers[x], req))
    ensures s.peers[x].role == Leader ==> req.term > s.peers[x].term
  {
  }

  lemma AcksRaised(s: Cluster, x: Id, req: AppendRequest, s': Cluster, h: History, h': History)
    requires AcksInv(s, h) && x in s'.peers && s'.peers[x].term == req.term
    requires AppendOk(req, h)
    requires h' == h || h' == h.(acks := h.acks[Receipt(x, req.term) :=
                                          Max(AckOf(h, x, req.term), req.prevIndex + |req.entries|)])
    ensures Grows(h, h') && AcksOnlyBy(x, req.term, h, h') && AckOk(x, req.term, s', h')
  {
    assert AckOk(x, req.term, s, h);
  }

  lemma AbsorbKept(s: Cluster, e: Event, s': Cluster, h: History)
    requires PeersInv(s, h) && NetInv(s.net, h) && AcksInv(s, h) && KeptInv(s, h) && ReignsInv(h, s.peers.Keys)
    requires e.Absorb? && Step(s, e, s')
    requires Moves(s, h, s', Record(s, e, s', h), e.x)
    requires AcksOnlyBy(e.x, s'.peers[e.x].term, h, Record(s, e, s', h))
    requires AckOk(e.x, s'.peers[e.x].term, s', Record(s, e, s', h))
    ensures AcksInv(s', Record(s, e, s', h)) && KeptInv(s', Record(s, e, s', h))
  {
    var h' := Record(s, e, s', h);
    FrameAcks(s, h, s', h', e.x);
    forall t, k | 0 <= k < AckOf(h', e.x, t) ensures Kept(e.x, t, k, s', h') {
      AbsorbKeeps(s, e, s', h, h', t, k);
    }
    FrameKept(s, h, s', h', e.x);
  }

  lemma AbsorbKeeps(s: Cluster, e: Event, s': Cluster, h: History, h': History, t: nat, k: nat)
    requires PeersInv(s, h) && NetInv(s.net, h) && AcksInv(s, h) && KeptInv(s, h) && ReignsInv(h, s.peers.Keys)
    requires e.Absorb? && Step(s, e, s') && h'.reigns == h.reigns
    requires k < AckOf(h, e.x, t) || (t == e.req.term && e.done && k < e.req.prevIndex + |e.req.entries|)
    ensures Kept(e.x, t, k, s', h')
  {
    var n, req := s.peers[e.x], e.req;
    assert MsgOk(AppendAsk(e.x, req), h) && PeerOk(e.x, n, h) && AckOk(e.x, t, s, h);
    var lead := h.reigns[req.term].log;
    ReignRooted(h, s.peers.Keys, req.term);
    AbsorbOutcome(n.log, req, e.kept, e.taken, e.log, h, k + 1);
    if k < AckOf(h, e.x, t) {
      assert Kept(e.x, t, k, s, h) && ReignOk(req.term, h, s.peers.Keys);
      BaseInLog(h.reigns[t].log, h.reigns[req.term].base, lead, k + 1);
      if Same(h.reigns[t].log, n.log, k + 1) && Same(h.reigns[t].log, lead, k + 1) {
        SameThrough(n.log, h.reigns[t].log, lead, k + 1);
        SameThrough(h.reigns[t].log, lead, e.log, k + 1);
      }
    }
  }

  lemma BaseInLog(log: seq<Entry>, base: seq<Entry>, lead: seq<Entry>, k: nat)
    requires Same(base, lead, |base|)
    ensures Same(log, base, k) ==> Same(log, lead, k)
  {
  }

  lemma AbsorbPeers(s: Cluster, e: Event, s': Cluster, h: History)
    requires PeersInv(s, h) && NetInv(s.net, h) && ReignsInv(h, s.peers.Keys) && InheritedInv(h)
    requires DecisionsInv(h, s.peers.Keys) && e.Absorb? && Step(s, e, s')
    requires Moves(s, h, s', Record(s, e, s', h), e.x)
    requires AcksOnlyBy(e.x, s'.peers[e.x].term, h, Record(s, e, s', h))
    ensures PeersInv(s', Record(s, e, s', h))
  {
    var n', h' := s'.peers[e.x], Record(s, e, s', h);
    AbsorbPeer(s, e, s', h);
    PeerGrows(e.x, n', h, h');
    FramePeers(s, h, s', h', e.x);
  }

  /** What a follower knows to be settled survives a leader's entries. */
  lemma AbsorbSettled(n: Peer, req: AppendRequest, kept: nat, taken: nat, log': seq<Entry>, h: History,
        members: set<Id>, c: nat)
    requires ReignsInv(h, members) && InheritedInv(h) && DecisionsInv(h, members)
    requires Rooted(n.log, h.reigns) && AppendOk(req, h) && n.term <= req.term
    requires Matches(n.log, req) && Absorbs(n.log, req, kept, taken, log')
    requires Settled(h, c, n.term) && Same(n.log, h.canon, c)
    ensures Same(log', h.canon, c) && Settled(h, c, req.term)
  {
    var lead := h.reigns[req.term].log;
    ReignRooted(h, members, req.term);
    SettledInReign(h, members, c, n.term, req.term);
    SameThrough(n.log, h.canon, lead, c);
    AbsorbOutcome(n.log, req, kept, taken, log', h, c);
    SameThrough(log', lead, h.canon, c);
    GrowsSelf(h);
    SettledGrows(h, h, c, n.term, req.term);
  }

  lemma AbsorbPeer(s: Cluster, e: Event, s': Cluster, h: History)
    requires PeersInv(s, h) && NetInv(s.net, h) && ReignsInv(h, s.peers.Keys) && InheritedInv(h)
    requires DecisionsInv(h, s.peers.Keys) && e.Absorb? && Step(s, e, s')
    ensures PeerOk(e.x, s'.peers[e.x], h)
  {
    assert MsgOk(AppendAsk(e.x, e.req), h) && PeerOk(e.x, s.peers[e.x], h);
    AbsorbPeerOk(e.x, s.peers[e.x], e, h, s.peers.Keys);
  }

  lemma AbsorbPeerOk(x: Id, n: Peer, e: Event, h: History, members: set<Id>)
    requires ReignsInv(h, members) && InheritedInv(h) && DecisionsInv(h, members)
    requires PeerOk(x, n, h) && e.Absorb? && AppendOk(e.req, h) && n.term <= e.req.term
    requires Matches(n.log, e.req) && Absorbs(n.log, e.req, e.kept, e.taken, e.log)
    requires e.done ==> e.taken == |e.req.entries|
    ensures PeerOk(x, AfterAbsorbing(n, e.req, e.log, e.done), h)
  {
    AbsorbLogOk(n, e.req, e.kept, e.taken, e.log, h, members);
    AbsorbSettled(n, e.req, e.kept, e.taken, e.log, h, members, n.peak);
    AbsorbCommit(n, e, h);
  }

  lemma AbsorbCommit(n: Peer, e: Event, h: History)
    requires e.Absorb? && AppendOk(e.req, h)
    requires Same(e.log, h.reigns[e.req.term].log, e.req.prevIndex + e.taken)
    requires e.done ==> e.taken == |e.req.entries|
    ensures var c := CommitAfter(n.commit, e.req, e.done);
            c == n.commit || (Same(e.log, h.canon, c) && Settled(h, c, e.req.term))
  {
  }

  lemma AbsorbLogOk(n: Peer, req: AppendRequest, kept: nat, taken: nat, log': seq<Entry>, h: History, members: set<Id>)
    requires ReignsInv(h, members) && Rooted(n.log, h.reigns) && TermsBelow(n.log, n.term + 1)
    requires AppendOk(req, h) && n.term <= req.term
    requires Matches(n.log, req) && Absorbs(n.log, req, kept, taken, log')
    ensures Rooted(log', h.reigns) && TermsBelow(log', req.term + 1)
    ensures Same(log', h.reigns[req.term].log, req.prevIndex + taken)
  {
    ReignRooted(h, members, req.term);
    AbsorbOutcome(n.log, req, kept, taken, log', h, 0);
    if log' != n.log { RootedPrefix(log', h.reigns[req.term].log, h.reigns); }
  }

  lemma AbsorbNet(s: Cluster, e: Event, s': Cluster, h: History)
    requires NetInv(s.net, h) && e.Absorb? && Step(s, e, s') && Grows(h, Record(s, e, s', h))
    ensures NetInv(s'.net, Record(s, e, s', h))
  {
    assert MsgOk(AppendAsk(e.x, e.req), h);
    NetGrows(s.net, h, Record(s, e, s', h));
  }

  // ---- Commit -------------------------------------------------------------------------------

  lemma StepCommit(s: Cluster, x: Id, upTo: nat, s': Cluster, h: History)
    requires Inv(s, h) && Step(s, Commit(x, upTo), s')
    ensures var h' := Record(s, Commit(x, upTo), s', h); Grows(h, h') && Inv(s', h')
  {
    var n, h' := s.peers[x], Record(s, Commit(x, upTo), s', h);
    assert PeerOk(x, n, h);
    CommitChosen(x, n, s.peers.Keys, upTo, h);
    CommitExtends(n.term, n.log, upTo, h, h', s.peers.Keys);
    CommitKeeps(s, x, upTo, s', h, h');
  }

  /** x takes its log to be committed up to an index, on whatever grounds. */
  ghost predicate RaisesCommit(s: Cluster, x: Id, upTo: nat, s': Cluster) {
    && x in s.peers && s.peers[x].commit < upTo <= |s.peers[x].log|
    && s' == s.(peers := s.peers[x := WithCommit(s.peers[x], upTo)])
  }

  lemma CommitKeeps(s: Cluster, x: Id, upTo: nat, s': Cluster, h: History, h': History)
    requires Inv(s, h) && RaisesCommit(s, x, upTo, s') && Grows(h, h') && DecisionsInv(h', s.peers.Keys)
    requires h' == h.(decisions := h'.decisions, canon := h'.canon)
    requires Settled(h', upTo, s.peers[x].term) && Same(s.peers[x].log, h'.canon, upTo)
    ensures Inv(s', h')
  {
    FrameVoting(s, h, s', h', x);
    FrameBids(s, h, s', h', x);
    FrameBallots(s, h, s', h', x);
    FrameEndorsed(s, h, s', h', x);
    CommitPeers(s, x, upTo, s', h, h');
    NetGrows(s.net, h, h');
  }

  lemma CommitChosen(x: Id, n: Peer, members: set<Id>, upTo: nat, h: History)
    requires PeerOk(x, n, h) && x in members && n.role == Leader
    requires n.commit < upTo <= |n.log| && n.log[upTo - 1].term == n.term && Majority(n, x, members, upTo)
    ensures Chosen(h, members, n.term, upTo) && h.reigns[n.term].log == n.log
  {
    var q := {x} + (set p | p in members && p != x && Lookup(n.matched, p) >= upTo);
    assert AllAcked(h, q, n.term, upTo);
  }

  /** A newly chosen prefix and the agreed log continue one another. */
  lemma CommitAgrees(t: nat, upTo: nat, h: History, members: set<Id>)
    requires ReignsInv(h, members) && InheritedInv(h) && DecisionsInv(h, members) && Chosen(h, members, t, upTo)
    ensures Same(h.canon, h.reigns[t].log, Min(upTo, |h.canon|))
  {
    if h.canon != [] {
      var d :| d in h.decisions && d.index == |h.canon|;
      assert DecisionOk(d, h, members);
      if d.term <= t {
        DecisionInReign(h, members, d, t);
      } else {
        LeaderCompleteness(h, members, t, upTo, d.term);
        assert ReignOk(d.term, h, members);
        var c := Min(upTo, |h.canon|);
        SameThrough(h.canon, h.reigns[d.term].log, h.reigns[d.term].base, c);
        SameThrough(h.canon, h.reigns[d.term].base, h.reigns[t].log, c);
      }
    }
  }

  lemma CommitExtends(t: nat, log: seq<Entry>, upTo: nat, h: History, h': History, members: set<Id>)
    requires ReignsInv(h, members) && InheritedInv(h) && DecisionsInv(h, members) && Chosen(h, members, t, upTo)
    requires h.reigns[t].log == log && upTo <= |log|
    requires h' == h.(decisions := h.decisions + {Decision(t, upTo)},
                      canon := if |h.canon| < upTo <= |log| then log[..upTo] else h.canon)
    ensures Grows(h, h') && DecisionsInv(h', members) && Settled(h', upTo, t) && Same(log, h'.canon, upTo)
  {
    CommitAgrees(t, upTo, h, members);
    assert forall v, u :: AckOf(h', v, u) == AckOf(h, v, u);
    assert Grows(h, h');
    var d := Decision(t, upTo);
    assert d in h'.decisions;
    ChosenGrows(h, h', members, t, upTo);
    forall c | c in h'.decisions ensures DecisionOk(c, h', members) {
      if c != d { DecisionGrows(c, h, h', members); }
    }
  }

  lemma CommitPeers(s: Cluster, x: Id, upTo: nat, s': Cluster, h: History, h': History)
    requires PeersInv(s, h) && RaisesCommit(s, x, upTo, s') && Moves(s, h, s', h', x)
    requires AcksOnlyBy(x, s'.peers[x].term, h, h') && h'.reigns == h.reigns && h'.bids == h.bids
    requires h'.ballots == h.ballots && h'.acks == h.acks
    requires Settled(h', upTo, s.peers[x].term) && Same(s.peers[x].log, h'.canon, upTo)
    ensures PeersInv(s', h')
  {
    var n := s.peers[x];
    assert PeerOk(x, n, h);
    RoleGrows(x, n, h, h');
    PeerGrows(x, n, h, h');
    FramePeers(s, h, s', h', x);
  }

  // ---- Steps the history has nothing to say about -------------------------------------------

  lemma StepQuiet(s: Cluster, e: Event, s': Cluster, h: History)
    requires Inv(s, h) && Step(s, e, s')
    requires e.StepDown? || e.Ship? || e.Refuse? || e.Decline? || e.Ack? || e.Deliver?
    ensures Inv(s', h)
  {
    GrowsSelf(h);
    QuietPeer(s, e, s', h);
    QuietNet(s, e, s', h);
    FrameStill(s, h, s', e.x);
  }

  lemma QuietNet(s: Cluster, e: Event, s': Cluster, h: History)
    requires PeersInv(s, h) && NetInv(s.net, h) && Step(s, e, s')
    requires e.StepDown? || e.Ship? || e.Refuse? || e.Decline? || e.Ack? || e.Deliver?
    ensures NetInv(s'.net, h)
  {
    if e.Ship? {
      assert PeerOk(e.x, s.peers[e.x], h);
      ShippedOk(e.x, s.peers[e.x], e.prev, e.last, h);
    }
  }

  lemma QuietPeer(s: Cluster, e: Event, s': Cluster, h: History)
    requires PeersInv(s, h) && NetInv(s.net, h) && Step(s, e, s')
    requires e.StepDown? || e.Ship? || e.Refuse? || e.Decline? || e.Ack? || e.Deliver?
    ensures e.x in s.peers && e.x in s'.peers && s'.peers == s.peers[e.x := s'.peers[e.x]]
    ensures Follows(s.peers[e.x], s'.peers[e.x]) && PeerOk(e.x, s'.peers[e.x], h)
    ensures s'.peers[e.x].log == s.peers[e.x].log
  {
    var n := s.peers[e.x];
    assert PeerOk(e.x, n, h);
    match e
    case StepDown(x, higher) => LaterPeer(x, n, h, higher);
    case Refuse(x, req, _) =>
      HearingFollows(s, x, req, h);
      LaterPeer(x, n, h, req.term);
    case Ship(_, _, _, _) =>
    case Decline(_, _) =>
    case Ack(x, from, req) => AckedPeer(s, x, from, req, s', h);
    case Deliver(x) => DeliveredPeer(x, n, h);
  }

  /** Falling back to follower, in the same or a later term, keeps a node in order. */
  lemma LaterPeer(x: Id, n: Peer, h: History, t: nat)
    requires PeerOk(x, n, h) && t >= n.term
    ensures forall v :: PeerOk(x, n.(role := Follower, term := t, vote := v), h)
  {
  }

  lemma ShippedOk(x: Id, n: Peer, prev: nat, last: nat, h: History)
    requires PeerOk(x, n, h) && n.role == Leader && prev <= last <= |n.log|
    ensures AppendOk(Shipped(n, x, prev, last), h)
  {
  }

  lemma AckedPeer(s: Cluster, x: Id, from: Id, req: AppendRequest, s': Cluster, h: History)
    requires PeersInv(s, h) && NetInv(s.net, h) && Step(s, Ack(x, from, req), s')
    ensures PeerOk(x, s'.peers[x], h)
  {
    var t :| AppendReply(from, req, t, true) in s.net;
    assert PeerOk(x, s.peers[x], h) && MsgOk(AppendReply(from, req, t, true), h);
  }

  lemma DeliveredPeer(x: Id, n: Peer, h: History)
    requires PeerOk(x, n, h) && |n.applied| < n.commit <= |n.log|
    ensures PeerOk(x, n.(applied := n.applied + [n.log[|n.applied|]]), h)
  {
  }

  // ---- All steps ----------------------------------------------------------------------------

  lemma StepKeeps(s: Cluster, e: Event, s': Cluster, h: History)
    requires Inv(s, h) && Step(s, e, s')
    ensures Grows(h, Record(s, e, s', h)) && Inv(s', Record(s, e, s', h))
  {
    hide Inv, Step, Grows;
    match e
    case Campaign(x) => StepCampaign(s, x, s', h);
    case Vote(x, ask) => StepVote(s, x, ask, s', h);
    case Elect(x, voters, cleared) => StepElect(s, x, voters, cleared, s', h);
    case Propose(x, command) => StepPropose(s, x, command, s', h);
    case Absorb(_, _, _, _, _, _, _) => StepAbsorb(s, e, s', h);
    case Commit(x, upTo) => StepCommit(s, x, upTo, s', h);
    case _ =>
      GrowsSelf(h);
      StepQuiet(s, e, s', h);
  }

  lemma InitHolds(s: Cluster)
    requires Init(s)
    ensures Inv(s, NoHistory)
  {
  }
}
