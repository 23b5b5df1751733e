/** The history only ever grows, and what it says of the past stays true as it does. */
module RaftGrowth {
  import opened RaftTypes
  import opened RaftSpec
  import opened RaftHistory

  ghost predicate ReignGrows(a: Reign, b: Reign) {
    a.leader == b.leader && a.voters == b.voters && a.base == b.base && Same(a.log, b.log, |a.log|)
  }

  ghost predicate Grows(h: History, h': History) {
    && (forall t :: t in h.reigns ==> t in h'.reigns && ReignGrows(h.reigns[t], h'.reigns[t]))
    && (forall b :: b in h.bids ==> b in h'.bids && h'.bids[b] == h.bids[b])
    && h.ballots <= h'.ballots
    && (forall v, t :: AckOf(h, v, t) <= AckOf(h', v, t))
    && h.decisions <= h'.decisions
    && Same(h.canon, h'.canon, |h.canon|)
  }

  lemma RootedGrows(log: seq<Entry>, h: History, h': History)
    requires Rooted(log, h.reigns) && Grows(h, h')
    ensures Rooted(log, h'.reigns)
  {
    forall k | 0 <= k < |log| ensures RootedAt(log, k, h'.reigns) {
      assert RootedAt(log, k, h.reigns);
      var t := log[k].term;
      assert ReignGrows(h.reigns[t], h'.reigns[t]);
      SameThrough(log, h.reigns[t].log, h'.reigns[t].log, k + 1);
    }
  }

  lemma SettledGrows(h: History, h': History, c: nat, t: nat, t': nat)
    requires Settled(h, c, t) && Grows(h, h') && t <= t'
    ensures Settled(h', c, t')
  {
  }

  lemma MsgGrows(m: Msg, h: History, h': History)
    requires MsgOk(m, h) && Grows(h, h')
    ensures MsgOk(m, h')
  {
    match m
    case VoteAsk(_, _) =>
    case VoteReply(_, _, _, _) =>
    case AppendReply(from, append, _, _) =>
      assert AckOf(h, from, append.term) <= AckOf(h', from, append.term);
    case AppendAsk(_, append) =>
      var r, r' := h.reigns[append.term], h'.reigns[append.term];
      assert ReignGrows(r, r');
      SettledGrows(h, h', append.leaderCommit, append.term, append.term);
      SameThrough(r'.log, r.log, h.canon, append.leaderCommit);
      SameThrough(r'.log, h.canon, h'.canon, append.leaderCommit);
  }

  lemma NetGrows(net: set<Msg>, h: History, h': History)
    requires NetInv(net, h) && Grows(h, h')
    ensures NetInv(net, h')
  {
    forall m | m in net ensures MsgOk(m, h') { MsgGrows(m, h, h'); }
  }

  lemma BidGrows(b: Bid, h: History, h': History)
    requires b in h.bids && BidOk(b, h) && Grows(h, h')
    ensures b in h'.bids && BidOk(b, h')
  {
    RootedGrows(h.bids[b], h, h');
  }

  /** A reign that has not been extended. */
  lemma ReignKept(t: nat, h: History, h': History, members: set<Id>)
    requires t in h.reigns && ReignOk(t, h, members) && Grows(h, h')
    requires h'.reigns[t].log == h.reigns[t].log
    ensures ReignOk(t, h', members)
  {
    assert ReignGrows(h.reigns[t], h'.reigns[t]);
    RootedGrows(h.reigns[t].base, h, h');
  }

  lemma LostGrows(h: History, h': History, t: nat, i: nat, upTo: nat, upTo': nat)
    requires t in h.reigns && i <= |h.reigns[t].log| && Grows(h, h') && upTo <= upTo'
    requires Lost(h.reigns, t, i, upTo)
    ensures Lost(h'.reigns, t, i, upTo')
  {
  }

  lemma KeptGrows(v: Id, t: nat, k: nat, s: Cluster, h: History, s': Cluster, h': History)
    requires Kept(v, t, k, s, h) && Grows(h, h') && k < |h.reigns[t].log|
    requires v in s'.peers && Same(s.peers[v].log, s'.peers[v].log, |s.peers[v].log|)
    requires s'.peers[v].term >= s.peers[v].term
    ensures Kept(v, t, k, s', h')
  {
  }

  lemma EndorsedGrows(b: Ballot, t: nat, k: nat, h: History, h': History)
    requires Endorsed(b, t, k, h) && Grows(h, h') && k < |h.reigns[t].log|
    ensures Endorsed(b, t, k, h')
  {
  }

  lemma InheritedGrows(u: nat, v: Id, t: nat, k: nat, h: History, h': History)
    requires u in h.reigns && t < u && Inherited(u, v, t, k, h) && Grows(h, h') && k < |h.reigns[t].log|
    ensures u in h'.reigns && Inherited(u, v, t, k, h')
  {
  }

  lemma ChosenGrows(h: History, h': History, members: set<Id>, t: nat, i: nat)
    requires Chosen(h, members, t, i) && Grows(h, h')
    ensures Chosen(h', members, t, i)
  {
  }

  lemma DecisionGrows(d: Decision, h: History, h': History, members: set<Id>)
    requires DecisionOk(d, h, members) && Grows(h, h')
    ensures DecisionOk(d, h', members)
  {
  }

  /** A node whose state stands still, or only learns of a later term, while the history grows. */
  lemma PeerGrows(x: Id, n: Peer, h: History, h': History)
    requires PeerOk(x, n, h) && Grows(h, h') && RoleOk(x, n, h')
    ensures PeerOk(x, n, h')
  {
    RootedGrows(n.log, h, h');
    SettledGrows(h, h', n.peak, n.term, n.term);
    SameThrough(n.log, h.canon, h'.canon, n.peak);
    SameThrough(n.applied, h.canon, h'.canon, |n.applied|);
  }

  lemma RoleGrows(x: Id, n: Peer, h: History, h': History)
    requires RoleOk(x, n, h) && Grows(h, h')
    requires n.role == Candidate && n.term in h'.reigns ==> h'.reigns[n.term].leader != x
    requires n.role == Leader ==> h'.reigns[n.term].log == h.reigns[n.term].log
    requires n.role == Leader ==> AckOf(h', x, n.term) == AckOf(h, x, n.term)
    ensures RoleOk(x, n, h')
  {
  }
}
