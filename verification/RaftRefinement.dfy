/**
 Every action of the system is a step of the protocol on whole logs, so the protocol's invariant
 holds of every reachable state of the system.
 */
module RaftRefinement {
  import opened Options
  import opened RaftTypes
  import opened RaftNode
  import opened RaftSystem
  import opened RaftCompaction
  import Spec = RaftSpec
  import opened RaftHistory
  import opened RaftGrowth
  import opened RaftPreservation

  /** What a run remembers of a node: the log prefix it compacted and the highest commit index it reached. */
  datatype Past = Past(dropped: seq<Entry>, peak: nat)

  type Pasts = map<Id, Past>

  ghost function Note(p: Past, n: Node): Past {
    p.(peak := Max(p.peak, n.commit))
  }

  ghost function AbsPeer(n: Node, p: Past, applied: seq<Entry>): Spec.Peer {
    Spec.Peer(n.role, n.term, n.votedFor, p.dropped + n.log, n.commit, p.peak, n.matchIndex, applied)
  }

  ghost function Abs(s: System, d: Pasts): Spec.Cluster {
    Spec.Cluster(map x | x in s.nodes && x in d && x in s.delivered :: AbsPeer(s.nodes[x], d[x], s.delivered[x]), s.net)
  }

  ghost predicate NodeOk(x: Id, n: Node, p: Past, applied: seq<Entry>, members: set<Id>) {
    && Configured(n, x, members) && Bounded(n, p.dropped)
    && n.lastApplied == |applied| && n.offset <= n.lastApplied && n.commit <= p.peak
    && n.matchIndex.Keys <= members - {x}
    && (n.role == Leader ==> forall q :: q in members && q != x ==> 1 <= Lookup(n.nextIndex, q) <= LogLen(n) + 1)
  }

  ghost predicate NodesOk(s: System, d: Pasts) {
    && s.nodes.Keys == s.delivered.Keys == d.Keys
    && forall x :: x in s.nodes ==> NodeOk(x, s.nodes[x], d[x], s.delivered[x], s.nodes.Keys)
  }

  ghost predicate TicketOk(t: Ticket, s: System, h: History) {
    && t.node in s.nodes && 1 <= t.index <= s.nodes[t.node].lastApplied
    && t.index <= |h.canon| && h.canon[t.index - 1].term == t.term
  }

  ghost predicate TicketsOk(s: System, h: History) {
    forall t :: t in s.tickets ==> TicketOk(t, s, h)
  }

  ghost predicate Good(s: System, d: Pasts, h: History) {
    NodesOk(s, d) && TicketsOk(s, h) && Inv(Abs(s, d), h)
  }

  // ---- Using what is known of one node ------------------------------------------------------

  lemma KnownPeer(s: System, d: Pasts, h: History, x: Id)
    requires Good(s, d, h) && x in s.nodes
    ensures x in d && x in s.delivered
    ensures NodeOk(x, s.nodes[x], d[x], s.delivered[x], s.nodes.Keys)
    ensures PeerOk(x, AbsPeer(s.nodes[x], d[x], s.delivered[x]), h) && Linked(s.nodes[x], d[x].dropped)
    ensures x in Abs(s, d).peers && Abs(s, d).peers[x] == AbsPeer(s.nodes[x], d[x], s.delivered[x])
    ensures Abs(s, d).peers.Keys == s.nodes.Keys
  {
    hide Rooted, RoleOk, Linked, BidsInv, BallotsInv, ReignsInv, ThronesInv, AcksInv, KeptInv, EndorsedInv,
      InheritedInv, DecisionsInv, NetInv;
    assert PeerOk(x, Abs(s, d).peers[x], h);
    RootedLinked(s.nodes[x], d[x].dropped, h.reigns);
  }

  lemma RootedLinked(n: Node, d: seq<Entry>, r: map<nat, Reign>)
    requires Rooted(d + n.log, r) && Bounded(n, d)
    ensures Linked(n, d)
  {
    var full := d + n.log;
    forall k | 0 <= k < |d| ensures d[k].index == k + 1 {
      assert full[k] == d[k] && RootedAt(full, k, r);
    }
    forall k | 0 <= k < |n.log| ensures n.log[k].index == n.offset + k + 1 {
      assert full[|d| + k] == n.log[k] && RootedAt(full, |d| + k, r);
    }
  }

  /** The abstract cluster after one node has moved. */
  lemma AbsSet(s: System, d: Pasts, s': System, d': Pasts, x: Id)
    requires s.nodes.Keys == s.delivered.Keys == d.Keys && x in s.nodes
    requires s'.nodes.Keys == s.nodes.Keys && s'.delivered.Keys == s.nodes.Keys && d'.Keys == d.Keys
    requires forall y :: y in s.nodes && y != x ==>
                           s'.nodes[y] == s.nodes[y] && s'.delivered[y] == s.delivered[y] && d'[y] == d[y]
    ensures Abs(s', d').peers == Abs(s, d).peers[x := AbsPeer(s'.nodes[x], d'[x], s'.delivered[x])]
  {
  }

  lemma NodesSet(s: System, d: Pasts, s': System, d': Pasts, x: Id)
    requires NodesOk(s, d) && x in s.nodes
    requires s'.nodes.Keys == s.nodes.Keys && s'.delivered.Keys == s.nodes.Keys && d'.Keys == d.Keys
    requires forall y :: y in s.nodes && y != x ==>
                           s'.nodes[y] == s.nodes[y] && s'.delivered[y] == s.delivered[y] && d'[y] == d[y]
    requires NodeOk(x, s'.nodes[x], d'[x], s'.delivered[x], s.nodes.Keys)
    ensures NodesOk(s', d')
  {
  }

  lemma Simulate(s: System, d: Pasts, h: History, s': System, d': Pasts, e: Spec.Event) returns (h': History)
    requires Good(s, d, h) && Spec.Step(Abs(s, d), e, Abs(s', d')) && NodesOk(s', d')
    requires s'.tickets == s.tickets && s'.nodes.Keys == s.nodes.Keys
    requires forall x :: x in s.nodes ==> s'.nodes[x].lastApplied >= s.nodes[x].lastApplied
    ensures Good(s', d', h') && Grows(h, h') && h' == Record(Abs(s, d), e, Abs(s', d'), h)
  {
    hide Inv, Spec.Step, Abs;
    h' := Record(Abs(s, d), e, Abs(s', d'), h);
    StepKeeps(Abs(s, d), e, Abs(s', d'), h);
    forall t | t in s'.tickets ensures TicketOk(t, s', h') { assert TicketOk(t, s, h); }
  }

  /** The pasts after node x has become n'. */
  ghost function After(d: Pasts, x: Id, n': Node): Pasts {
    if x in d then d[x := Note(d[x], n')] else d
  }

  /** One node moves; nothing is dropped, delivered or compacted. */
  lemma SimulateMove(s: System, d: Pasts, h: History, x: Id, n': Node, net': set<Msg>,
        e: Spec.Event)
    returns (h': History)
    requires Good(s, d, h) && x in s.nodes
    requires NodeOk(x, n', Note(d[x], n'), s.delivered[x], s.nodes.Keys) && n'.lastApplied == s.nodes[x].lastApplied
    requires Spec.Step(Abs(s, d), e,
                       Spec.Cluster(Abs(s, d).peers[x := AbsPeer(n', Note(d[x], n'), s.delivered[x])], net'))
    ensures Good(Set(s, x, n').(net := net'), After(d, x, n'), h') && Grows(h, h')
  {
    hide Inv, Spec.Step, NodeOk;
    var s', d' := Set(s, x, n').(net := net'), After(d, x, n');
    AbsSet(s, d, s', d', x);
    NodesSet(s, d, s', d', x);
    h' := Simulate(s, d, h, s', d', e);
  }

  /** The usual case: the commit index stays as well. */
  lemma SimulateNode(s: System, d: Pasts, h: History, x: Id, n': Node, net': set<Msg>,
        e: Spec.Event)
    returns (h': History)
    requires Good(s, d, h) && x in s.nodes && n'.commit == s.nodes[x].commit
    requires NodeOk(x, n', d[x], s.delivered[x], s.nodes.Keys) && n'.lastApplied == s.nodes[x].lastApplied
    requires Spec.Step(Abs(s, d), e, Spec.Cluster(Abs(s, d).peers[x := AbsPeer(n', d[x], s.delivered[x])], net'))
    ensures Good(Set(s, x, n').(net := net'), d, h') && Grows(h, h')
  {
    hide Inv, Spec.Step, Abs;
    assert Note(d[x], n') == d[x];
    assert After(d, x, n') == d;
    h' := SimulateMove(s, d, h, x, n', net', e);
  }

  // ---- Elections ----------------------------------------------------------------------------

  lemma ConfiguredPeers(n: Node, x: Id, members: set<Id>)
    requires Configured(n, x, members)
    ensures forall q :: q in n.peers <==> q in members && q != x
  {
    forall q ensures q in n.peers <==> (q in members && q != x) {
      assert q in (set p | p in n.peers) <==> q in members - {x};
    }
  }

  lemma TimeoutStep(c: Spec.Cluster, x: Id, n: Node, d: Past, applied: seq<Entry>)
    requires x in c.peers && c.peers[x] == AbsPeer(n, d, applied) && Linked(n, d.dropped)
             && Configured(n, x, c.peers.Keys)
    ensures var n' := StartElection(n);
            Spec.Step(c, Spec.Campaign(x),
                      Spec.Cluster(c.peers[x := AbsPeer(n', d, applied)],
                                   c.net + set q | q in n.peers :: VoteAsk(q, RaftNode.Ballot(n'))))
  {
    var n' := StartElection(n);
    var p := AbsPeer(n', d, applied);
    LogView(n', d.dropped);
    ConfiguredPeers(n, x, c.peers.Keys);
    assert (set q | q in n.peers :: VoteAsk(q, RaftNode.Ballot(n'))) == Spec.Asks(c, x, p);
  }

  lemma TimeoutKeeps(s: System, x: Id, s': System, d: Pasts, h: History) returns (h': History)
    requires Good(s, d, h) && Next(s, Timeout(x), s')
    ensures Good(s', d, h') && Grows(h, h')
  {
    hide Good, Inv, Grows, PeerOk, Spec.Step, Abs;
    KnownPeer(s, d, h, x);
    var n := s.nodes[x];
    TimeoutStep(Abs(s, d), x, n, d[x], s.delivered[x]);
    AbsNet(s, d);
    h' := SimulateNode(s, d, h, x, StartElection(n), s'.net, Spec.Campaign(x));
  }

  lemma AbsNet(s: System, d: Pasts)
    ensures Abs(s, d).net == s.net
  {
  }

  lemma VoteStep(c: Spec.Cluster, x: Id, n: Node, d: Past, applied: seq<Entry>, ask: VoteRequest)
    requires x in c.peers && c.peers[x] == AbsPeer(n, d, applied) && Linked(n, d.dropped)
    requires VoteAsk(x, ask) in c.net && ask.term >= n.term
    ensures var r := OnVoteRequest(n, ask);
            Spec.Step(c, Spec.Vote(x, ask),
                      Spec.Cluster(c.peers[x := AbsPeer(r.node, d, applied)],
                          c.net + {VoteReply(x, ask, r.term, r.granted)}))
  {
    LogView(n, d.dropped);
    var r := OnVoteRequest(n, ask);
    assert Spec.UpToDate(d.dropped + n.log, ask.lastIndex, ask.lastTerm)
           == IsLogUpToDate(n, ask.lastIndex, ask.lastTerm);
    assert Spec.AfterVote(c.peers[x], ask) == AbsPeer(r.node, d, applied);
  }

  lemma HandleVoteKeeps(s: System, x: Id, ask: VoteRequest, s': System, d: Pasts, h: History) returns (h': History)
    requires Good(s, d, h) && Next(s, HandleVote(x, ask), s')
    ensures Good(s', d, h') && Grows(h, h')
  {
    hide Good, Inv, Grows, PeerOk, Spec.Step, Abs, Linked, IsLogUpToDate;
    KnownPeer(s, d, h, x);
    AbsNet(s, d);
    var n := s.nodes[x];
    var r := OnVoteRequest(n, ask);
    if ask.term < n.term {
      h' := DeclineKeeps(s, d, h, x, VoteReply(x, ask, r.term, false));
    } else {
      VoteStep(Abs(s, d), x, n, d[x], s.delivered[x], ask);
      h' := SimulateNode(s, d, h, x, r.node, s'.net, Spec.Vote(x, ask));
    }
  }

  lemma DeclineKeeps(s: System, d: Pasts, h: History, x: Id, reply: Msg) returns (h': History)
    requires Good(s, d, h) && x in s.nodes
    requires (reply.VoteReply? && !reply.granted) || (reply.AppendReply? && !reply.success)
    ensures Good(Set(s, x, s.nodes[x]).(net := s.net + {reply}), d, h') && Grows(h, h')
  {
    hide Good, Inv, Grows, PeerOk;
    KnownPeer(s, d, h, x);
    h' := SimulateNode(s, d, h, x, s.nodes[x], s.net + {reply}, Spec.Decline(x, reply));
  }

  lemma SeeTermKeeps(s: System, x: Id, term: nat, d: Pasts, h: History) returns (h': History)
    requires Good(s, d, h) && x in s.nodes
    ensures Good(Set(s, x, SeeTerm(s.nodes[x], term)), d, h') && Grows(h, h')
  {
    hide Good, Inv, Grows, PeerOk;
    KnownPeer(s, d, h, x);
    var n := s.nodes[x];
    if term > n.term {
      assert Set(s, x, SeeTerm(n, term)) == Set(s, x, SeeTerm(n, term)).(net := s.net);
      h' := SimulateNode(s, d, h, x, SeeTerm(n, term), s.net, Spec.StepDown(x, term));
    } else {
      assert Set(s, x, n) == s;
      h' := h;
      GrowsAlways(h);
    }
  }

  lemma GrowsAlways(h: History)
    ensures Grows(h, h)
  {
  }

  lemma {:induction false} SetAllReads(m: map<Id, nat>, keys: seq<Id>, v: nat, k: Id)
    ensures Lookup(SetAll(m, keys, v), k) == if k in keys then v else Lookup(m, k)
    ensures SetAll(m, keys, v).Keys == m.Keys + set q | q in keys
  {
    if keys != [] {
      SetAllReads(m, keys[..|keys| - 1], v, k);
      assert keys == keys[..|keys| - 1] + [keys[|keys| - 1]];
    }
  }

  lemma PeersCount(n: Node, x: Id, members: set<Id>)
    requires Configured(n, x, members) && x in members
    ensures |n.peers| + 1 == |members|
  {
    DistinctCount(n.peers);
    assert members == (members - {x}) + {x};
  }

  lemma {:induction false} DistinctCount(ids: seq<Id>)
    requires forall i, j :: 0 <= i < j < |ids| ==> ids[i] != ids[j]
    ensures |set p | p in ids| == |ids|
  {
    if ids == [] {
      assert (set p | p in ids) == {};
    } else {
      var front := ids[..|ids| - 1];
      DistinctCount(front);
      assert (set p | p in ids) == (set p | p in front) + {ids[|ids| - 1]};
      assert ids[|ids| - 1] !in front;
    }
  }

  /** A new leader starts every peer at the end of its log, with nothing known to match. */
  lemma NewLeader(x: Id, n: Node, d: Past, applied: seq<Entry>, members: set<Id>)
    requires NodeOk(x, n, d, applied, members)
    ensures NodeOk(x, BecomeLeader(n), d, applied, members)
    ensures forall p :: Lookup(BecomeLeader(n).matchIndex, p) == 0
  {
    hide SetAll;
    var n' := BecomeLeader(n);
    ConfiguredPeers(n, x, members);
    forall p ensures Lookup(n'.matchIndex, p) == 0 && (p in n.peers ==> Lookup(n'.nextIndex, p) == LogLen(n) + 1) {
      SetAllReads(n.matchIndex, n.peers, 0, p);
      SetAllReads(n.nextIndex, n.peers, LogLen(n) + 1, p);
    }
    SetAllReads(n.matchIndex, n.peers, 0, x);
  }

  lemma WinStep(c: Spec.Cluster, x: Id, n: Node, d: Past, applied: seq<Entry>, voters: set<Id>)
    requires x in c.peers && c.peers[x] == AbsPeer(n, d, applied) && Configured(n, x, c.peers.Keys)
             && n.role == Candidate
    requires voters <= (set p | p in n.peers) && 1 + |voters| >= VotesNeeded(n)
    requires forall v :: v in voters ==> Granted(c.net, x, n.term, v)
    requires forall p :: Lookup(BecomeLeader(n).matchIndex, p) == 0
    ensures var n' := BecomeLeader(n);
            Spec.Step(c, Spec.Elect(x, voters, n'.matchIndex),
                      Spec.Cluster(c.peers[x := AbsPeer(n', d, applied)], c.net))
  {
    PeersCount(n, x, c.peers.Keys);
    assert |voters + {x}| == |voters| + 1;
    forall v | v in voters ensures Spec.Voted(c.net, x, c.peers[x].term, v) {
      assert Granted(c.net, x, n.term, v);
    }
  }

  lemma WinKeeps(s: System, x: Id, voters: set<Id>, s': System, d: Pasts, h: History) returns (h': History)
    requires Good(s, d, h) && Next(s, WinElection(x, voters), s')
    ensures Good(s', d, h') && Grows(h, h')
  {
    hide Good, Inv, Grows, PeerOk, Spec.Step, Abs, Linked, BecomeLeader;
    KnownPeer(s, d, h, x);
    AbsNet(s, d);
    var n := s.nodes[x];
    NewLeader(x, n, d[x], s.delivered[x], s.nodes.Keys);
    WinStep(Abs(s, d), x, n, d[x], s.delivered[x], voters);
    LeaderFields(n);
    assert s' == Set(s, x, BecomeLeader(n)).(net := s.net);
    h' := SimulateNode(s, d, h, x, BecomeLeader(n), s.net, Spec.Elect(x, voters, BecomeLeader(n).matchIndex));
  }

  lemma LeaderFields(n: Node)
    ensures BecomeLeader(n).lastApplied == n.lastApplied && BecomeLeader(n).commit == n.commit
  {
  }

  // ---- Leading ------------------------------------------------------------------------------

  lemma SubmitKeeps(s: System, x: Id, command: string, s': System, d: Pasts, h: History) returns (h': History)
    requires Good(s, d, h) && Next(s, Submit(x, command), s')
    ensures Good(s', d, h') && Grows(h, h')
  {
    hide Good, Inv, Grows, PeerOk, Linked;
    KnownPeer(s, d, h, x);
    var n := s.nodes[x];
    var n' := Publish(n, command);
    assert d[x].dropped + n'.log == (d[x].dropped + n.log) + [Entry(LogLen(n) + 1, n.term, command)];
    assert s' == Set(s, x, n').(net := s.net);
    h' := SimulateNode(s, d, h, x, n', s.net, Spec.Propose(x, command));
  }

  ghost function Agreeing(m: map<Id, nat>, i: nat, ids: seq<Id>): set<Id> {
    set p | p in ids && Lookup(m, p) >= i
  }

  lemma {:induction false} CountIsSize(n: Node, i: nat, ids: seq<Id>)
    requires forall a, b :: 0 <= a < b < |ids| ==> ids[a] != ids[b]
    ensures CountMatches(n, i, ids) == 1 + |Agreeing(n.matchIndex, i, ids)|
  {
    if ids == [] {
      assert Agreeing(n.matchIndex, i, ids) == {};
    } else {
      var front, last := ids[..|ids| - 1], ids[|ids| - 1];
      CountIsSize(n, i, front);
      AgreeingStep(n.matchIndex, i, front, last);
      assert ids == front + [last] && last !in front;
    }
  }

  lemma AgreeingStep(m: map<Id, nat>, i: nat, front: seq<Id>, last: Id)
    ensures Agreeing(m, i, front + [last]) == Agreeing(m, i, front) + if Lookup(m, last) >= i then {last} else {}
  {
  }

  lemma CountsMajority(n: Node, d: Past, applied: seq<Entry>, x: Id, members: set<Id>, i: nat)
    requires Configured(n, x, members) && x in members && CountMatches(n, i, n.peers) > (|n.peers| + 1) / 2
    ensures Spec.Majority(AbsPeer(n, d, applied), x, members, i)
  {
    CountIsSize(n, i, n.peers);
    ConfiguredPeers(n, x, members);
    PeersCount(n, x, members);
    var agree := Agreeing(n.matchIndex, i, n.peers);
    assert agree == set p | p in members && p != x && Lookup(n.matchIndex, p) >= i;
    assert |{x} + agree| == 1 + |agree|;
  }

  lemma CommitStep(c: Spec.Cluster, x: Id, n: Node, d: Past, applied: seq<Entry>, i: nat)
    requires x in c.peers && c.peers[x] == AbsPeer(n, d, applied) && Linked(n, d.dropped)
             && Configured(n, x, c.peers.Keys)
    requires n.role == Leader && n.commit < i <= LogLen(n) && Committable(n, i)
    ensures Spec.Step(c, Spec.Commit(x, i),
            Spec.Cluster(c.peers[x := AbsPeer(n.(commit := i), Note(d, n.(commit := i)), applied)], c.net))
  {
    hide Spec.Majority, Configured;
    LogView(n, d.dropped);
    CountsMajority(n, d, applied, x, c.peers.Keys, i);
  }

  lemma RecheckKeeps(s: System, x: Id, d: Pasts, h: History) returns (h': History)
    requires Good(s, d, h) && x in s.nodes && s.nodes[x].role == Leader
    ensures Good(Set(s, x, UpdateCommit(s.nodes[x])), After(d, x, UpdateCommit(s.nodes[x])), h') && Grows(h, h')
  {
    hide Good, Inv, Grows, PeerOk, Linked, Committable, Abs, Spec.Step;
    KnownPeer(s, d, h, x);
    AbsNet(s, d);
    var n := s.nodes[x];
    var c := ScanCommit(n, LogLen(n));
    ScanIsLargest(n, LogLen(n));
    if c == n.commit {
      assert Set(s, x, UpdateCommit(n)) == s && After(d, x, UpdateCommit(n)) == d;
      h' := h;
      GrowsAlways(h);
    } else {
      CommitStep(Abs(s, d), x, n, d[x], s.delivered[x], c);
      assert Set(s, x, UpdateCommit(n)) == Set(s, x, n.(commit := c)).(net := s.net);
      h' := SimulateMove(s, d, h, x, n.(commit := c), s.net, Spec.Commit(x, c));
    }
  }

  lemma ShipStep(c: Spec.Cluster, x: Id, n: Node, d: Past, applied: seq<Entry>, to: Id)
    requires x in c.peers && c.peers[x] == AbsPeer(n, d, applied) && Linked(n, d.dropped)
             && NodeOk(x, n, d, applied, c.peers.Keys)
    requires to in n.peers && NextAppend(n, to).Some?
    ensures Lookup(n.nextIndex, to) >= 1
    ensures Spec.Step(c, Spec.Ship(x, to, Lookup(n.nextIndex, to) - 1, LogLen(n)),
                      Spec.Cluster(c.peers[x := AbsPeer(n, d, applied)],
                          c.net + {AppendAsk(to, NextAppend(n, to).value)}))
  {
    ConfiguredPeers(n, x, c.peers.Keys);
    ShippedIs(n, d, applied, x, to);
    hide Linked, NodeOk, NextAppend, Spec.Shipped;
    assert c.peers[x := AbsPeer(n, d, applied)] == c.peers;
  }

  lemma ShippedIs(n: Node, d: Past, applied: seq<Entry>, x: Id, to: Id)
    requires Linked(n, d.dropped) && n.id == x && NextAppend(n, to).Some? && Lookup(n.nextIndex, to) <= LogLen(n) + 1
    ensures var p, prev := AbsPeer(n, d, applied), Lookup(n.nextIndex, to) - 1;
            0 <= prev <= LogLen(n) == |p.log| && NextAppend(n, to).value == Spec.Shipped(p, x, prev, |p.log|)
  {
    var prev := Lookup(n.nextIndex, to) - 1;
    ShippedTerm(n, d.dropped, prev);
    ShippedTail(n, d.dropped, prev);
    hide TermAt, OffsetToSlot, Linked;
  }

  lemma ShippedTail(n: Node, dropped: seq<Entry>, prev: nat)
    requires Linked(n, dropped) && n.offset <= prev <= LogLen(n)
    ensures var full := dropped + n.log;
            && |full| == LogLen(n)
            && full[prev..|full|] == (match OffsetToSlot(prev + 1, n.offset, |n.log|)
                                      case Some(slot) => n.log[slot..]
                                      case None => [])
  {
    var full := dropped + n.log;
    assert full[prev..|full|] == n.log[prev - n.offset..];
  }

  lemma ShippedTerm(n: Node, dropped: seq<Entry>, prev: nat)
    requires Linked(n, dropped) && n.offset <= prev <= LogLen(n)
    ensures TermAt(n, prev) == Some(Spec.PrevTerm(dropped + n.log, prev))
  {
  }

  lemma SendAppendKeeps(s: System, x: Id, to: Id, s': System, d: Pasts, h: History) returns (h': History)
    requires Good(s, d, h) && Next(s, SendAppend(x, to), s')
    ensures Good(s', d, h') && Grows(h, h')
  {
    hide Good, Inv, Grows, PeerOk, Linked, Abs, Spec.Step, NextAppend;
    KnownPeer(s, d, h, x);
    AbsNet(s, d);
    var n := s.nodes[x];
    ShipStep(Abs(s, d), x, n, d[x], s.delivered[x], to);
    assert s' == Set(s, x, n).(net := s'.net);
    h' := SimulateNode(s, d, h, x, n, s'.net, Spec.Ship(x, to, Lookup(n.nextIndex, to) - 1, LogLen(n)));
  }

  /** A change the protocol does not see. */
  lemma SilentKeeps(s: System, x: Id, n': Node, d: Pasts, h: History)
    requires Good(s, d, h) && x in s.nodes && x in s.delivered && x in d
    requires NodeOk(x, n', d[x], s.delivered[x], s.nodes.Keys) && n'.lastApplied == s.nodes[x].lastApplied
    requires AbsPeer(n', d[x], s.delivered[x]) == AbsPeer(s.nodes[x], d[x], s.delivered[x])
    ensures Good(Set(s, x, n'), d, h)
  {
    hide Inv, NodeOk;
    var s' := Set(s, x, n');
    AbsSet(s, d, s', d, x);
    assert Abs(s', d) == Abs(s, d);
    forall t | t in s'.tickets ensures TicketOk(t, s', h) { assert TicketOk(t, s, h); }
  }

  /** What a peer acknowledged lies within the leader's log. */
  lemma ReplyBound(s: System, x: Id, from: Id, req: AppendRequest, term: nat, d: Pasts, h: History)
    requires Good(s, d, h) && x in s.nodes && x in d && s.nodes[x].role == Leader && s.nodes[x].term == req.term
    requires AppendReply(from, req, term, true) in s.net
    ensures req.prevIndex + |req.entries| <= |d[x].dropped + s.nodes[x].log|
  {
    hide BidsInv, BallotsInv, ReignsInv, ThronesInv, KeptInv, EndorsedInv, InheritedInv, DecisionsInv, NodesOk,
         TicketsOk;
    KnownPeer(s, d, h, x);
    assert MsgOk(AppendReply(from, req, term, true), h) && AckOk(from, req.term, Abs(s, d), h);
  }

  lemma AckKeeps(s: System, x: Id, from: Id, req: AppendRequest, term: nat, d: Pasts, h: History) returns (h': History)
    requires Good(s, d, h) && x in s.nodes && s.nodes[x].role == Leader && s.nodes[x].term == req.term
    requires from in s.nodes[x].peers && AppendReply(from, req, term, true) in s.net
    ensures var n, next := s.nodes[x], req.prevIndex + 1 + |req.entries|;
            Good(Set(s, x, n.(nextIndex := n.nextIndex[from := next], matchIndex := n.matchIndex[from := next - 1])),
                d, h')
            && Grows(h, h')
  {
    hide Good, Inv, Grows, PeerOk, Linked, Spec.Step, Abs, NodeOk;
    KnownPeer(s, d, h, x);
    AbsNet(s, d);
    ReplyBound(s, x, from, req, term, d, h);
    var n, next := s.nodes[x], req.prevIndex + 1 + |req.entries|;
    var n' := n.(nextIndex := n.nextIndex[from := next], matchIndex := n.matchIndex[from := next - 1]);
    LogView(n, d[x].dropped);
    AckedOk(x, n, d[x], s.delivered[x], s.nodes.Keys, from, next);
    AckStep(Abs(s, d), x, n, d[x], s.delivered[x], from, req, term);
    assert Set(s, x, n') == Set(s, x, n').(net := s.net);
    h' := SimulateNode(s, d, h, x, n', s.net, Spec.Ack(x, from, req));
  }

  lemma AckedOk(x: Id, n: Node, d: Past, applied: seq<Entry>, members: set<Id>, from: Id, next: nat)
    requires NodeOk(x, n, d, applied, members) && from in n.peers && 1 <= next <= LogLen(n) + 1
    ensures NodeOk(x, n.(nextIndex := n.nextIndex[from := next], matchIndex := n.matchIndex[from := next - 1]), d,
            applied, members)
  {
  }

  lemma AckStep(c: Spec.Cluster, x: Id, n: Node, d: Past, applied: seq<Entry>, from: Id, req: AppendRequest, term: nat)
    requires x in c.peers && c.peers[x] == AbsPeer(n, d, applied) && n.role == Leader && n.term == req.term
    requires AppendReply(from, req, term, true) in c.net
    ensures var match' := n.matchIndex[from := req.prevIndex + |req.entries|];
            Spec.Step(c, Spec.Ack(x, from, req),
                      Spec.Cluster(c.peers[x := AbsPeer(n.(matchIndex := match'), d, applied)], c.net))
  {
  }

  lemma BackOffKeeps(s: System, x: Id, from: Id, d: Pasts, h: History)
    requires Good(s, d, h) && x in s.nodes && from in s.nodes[x].peers && Lookup(s.nodes[x].nextIndex, from) > 1
    ensures var n := s.nodes[x];
            Good(Set(s, x, n.(nextIndex := n.nextIndex[from := Lookup(n.nextIndex, from) - 1])), d, h)
  {
    hide Good, Inv, PeerOk, Linked;
    KnownPeer(s, d, h, x);
    var n := s.nodes[x];
    ConfiguredPeers(n, x, s.nodes.Keys);
    SilentKeeps(s, x, n.(nextIndex := n.nextIndex[from := Lookup(n.nextIndex, from) - 1]), d, h);
  }

  lemma SeeAppendReplyKeeps(s: System, x: Id, from: Id, req: AppendRequest, term: nat, success: bool, d: Pasts,
        h: History)
    returns (h': History)
    requires Good(s, d, h) && x in s.nodes && from in s.nodes[x].peers && AppendReply(from, req, term, success) in s.net
    ensures var n' := OnAppendReply(s.nodes[x], from, req, term, success);
            Good(Set(s, x, n'), After(d, x, n'), h') && Grows(h, h')
  {
    hide Good, Grows, UpdateCommit;
    var n := s.nodes[x];
    var n' := OnAppendReply(n, from, req, term, success);
    h' := h;
    if term > n.term {
      h' := SeeTermKeeps(s, x, term, d, h);
      AfterSame(s, d, h, x, n');
    } else if n.role != Leader || n.term != req.term || Lookup(n.nextIndex, from) != req.prevIndex + 1 {
      assert Set(s, x, n') == s;
      AfterSame(s, d, h, x, n');
      GrowsAlways(h);
    } else if success {
      var next := req.prevIndex + 1 + |req.entries|;
      var n1 := n.(nextIndex := n.nextIndex[from := next], matchIndex := n.matchIndex[from := next - 1]);
      var h1 := AckKeeps(s, x, from, req, term, d, h);
      h' := RecheckKeeps(Set(s, x, n1), x, d, h1);
      GrowsTwice(h, h1, h');
      assert Set(s, x, n') == Set(Set(s, x, n1), x, UpdateCommit(n1));
    } else if Lookup(n.nextIndex, from) > 1 {
      BackOffKeeps(s, x, from, d, h);
      AfterSame(s, d, h, x, n');
      GrowsAlways(h);
    } else {
      assert Set(s, x, n') == s;
      AfterSame(s, d, h, x, n');
      GrowsAlways(h);
    }
  }

  /** A node that keeps its commit index leaves its past alone. */
  lemma AfterSame(s: System, d: Pasts, h: History, x: Id, n': Node)
    requires Good(s, d, h) && x in s.nodes && n'.commit == s.nodes[x].commit
    ensures After(d, x, n') == d
  {
    hide Good;
    KnownPeer(s, d, h, x);
    assert Note(d[x], n') == d[x];
  }

  lemma GrowsTwice(a: History, b: History, c: History)
    requires Grows(a, b) && Grows(b, c)
    ensures Grows(a, c)
  {
  }

  // ---- Following ----------------------------------------------------------------------------

  /** Past the end of the log the loop only appends, until a write fails. */
  lemma {:induction false} AbsorbTail(log: seq<Entry>, entries: seq<Entry>, ops: nat) returns (t: nat)
    ensures t <= |entries|
    ensures var a := AbsorbEntries(log, 0, |log| + 1, entries, ops);
            a.log == log + entries[..t] && (a.ok ==> t == |entries|)
    decreases |entries|
  {
    t := 0;
    if entries != [] && ops > 0 {
      t := AbsorbTail(log + [entries[0]], entries[1..], ops - 1);
      t := t + 1;
      assert log + [entries[0]] + entries[1..][..t - 1] == log + entries[..t];
    }
  }

  /** The entry loop on an uncompacted log is a protocol step. */
  lemma {:induction false} AbsorbMeaning(log: seq<Entry>, req: AppendRequest, ops: nat) returns (kept: nat, taken: nat)
    requires req.prevIndex <= |log|
    ensures var a := AbsorbEntries(log, 0, req.prevIndex + 1, req.entries, ops);
            Spec.Absorbs(log, req, kept, taken, a.log) && (a.ok ==> taken == |req.entries|)
    decreases |req.entries|
  {
    var prev := req.prevIndex;
    kept, taken := 0, 0;
    if req.entries == [] {
    } else if prev == |log| {
      taken := AbsorbTail(log, req.entries, ops);
      hide AbsorbEntries;
      assert log[..prev] == log;
    } else if log[prev].term == req.entries[0].term {
      var req' := req.(prevIndex := prev + 1, entries := req.entries[1..]);
      assert AbsorbEntries(log, 0, prev + 1, req.entries, ops) == AbsorbEntries(log, 0, prev + 2, req'.entries, ops);
      hide AbsorbEntries, Spec.Absorbs;
      kept, taken := AbsorbMeaning(log, req', ops);
      AbsorbShift(log, req, req', kept, taken, AbsorbEntries(log, 0, prev + 1, req.entries, ops).log);
      kept, taken := kept + 1, taken + 1;
    } else {
      taken := AbsorbConflict(log, prev, req.entries, ops);
      hide AbsorbEntries;
    }
  }

  lemma AbsorbConflict(log: seq<Entry>, prev: nat, entries: seq<Entry>, ops: nat) returns (t: nat)
    requires prev < |log| && entries != [] && log[prev].term != entries[0].term
    ensures t <= |entries|
    ensures var a := AbsorbEntries(log, 0, prev + 1, entries, ops);
            a.log == log[..prev] + entries[..t] && (a.ok ==> t == |entries|)
  {
    t := 0;
    assert TruncateSliceAfter(log, 0, prev) == log[..prev];
    if ops >= 2 {
      t := AbsorbTail(log[..prev] + [entries[0]], entries[1..], ops - 2);
      t := t + 1;
      assert log[..prev] + [entries[0]] + entries[1..][..t - 1] == log[..prev] + entries[..t];
    } else {
      assert log[..prev] + entries[..0] == log[..prev];
    }
  }

  lemma AbsorbShift(log: seq<Entry>, req: AppendRequest, req': AppendRequest, kept: nat, taken: nat, log': seq<Entry>)
    requires req.entries != [] && req.prevIndex < |log| && log[req.prevIndex].term == req.entries[0].term
    requires req'.prevIndex == req.prevIndex + 1 && req'.entries == req.entries[1..]
    requires Spec.Absorbs(log, req', kept, taken, log')
    ensures Spec.Absorbs(log, req, kept + 1, taken + 1, log')
  {
  }

  lemma AppendStep(c: Spec.Cluster, x: Id, n: Node, d: Past, applied: seq<Entry>, req: AppendRequest, ops: nat)
    returns (e: Spec.Event)
    requires x in c.peers && c.peers[x] == AbsPeer(n, d, applied) && Linked(n, d.dropped)
    requires AppendAsk(x, req) in c.net && req.term >= n.term && Repeats(d.dropped, req.prevIndex + 1, req.entries)
    requires n.commit <= d.peak
    ensures var r := OnAppendRequest(n, req, ops);
            Spec.Step(c, e, Spec.Cluster(c.peers[x := AbsPeer(r.node, Note(d, r.node), applied)],
                                         c.net + {AppendReply(x, req, r.term, r.success)}))
  {
    hide Repeats, Linked;
    var r, m := OnAppendRequest(n, req, ops), Hear(n, req);
    if req.prevIndex > 0 && TermAt(m, req.prevIndex) != Some(req.prevTerm) {
      e := Spec.Refuse(x, req, r.term);
      assert Spec.AfterHearing(c.peers[x], req) == AbsPeer(r.node, Note(d, r.node), applied);
    } else {
      var kept, taken := AbsorbAsStep(n, d.dropped, req, ops);
      var a := AbsorbEntries(n.log, n.offset, req.prevIndex + 1, req.entries, ops);
      e := Spec.Absorb(x, req, kept, taken, a.ok, d.dropped + a.log, r.term);
      assert AbsPeer(r.node, Note(d, r.node), applied)
             == Spec.AfterAbsorbing(c.peers[x], req, d.dropped + a.log, a.ok) by {
        hide Spec.Absorbs, Spec.Matches;
      }
    }
  }

  lemma AbsorbAsStep(n: Node, d: seq<Entry>, req: AppendRequest, ops: nat) returns (kept: nat, taken: nat)
    requires Linked(n, d) && Repeats(d, req.prevIndex + 1, req.entries)
    requires req.prevIndex == 0 || TermAt(Hear(n, req), req.prevIndex) == Some(req.prevTerm)
    ensures Spec.Matches(d + n.log, req)
    ensures var a := AbsorbEntries(n.log, n.offset, req.prevIndex + 1, req.entries, ops);
            Spec.Absorbs(d + n.log, req, kept, taken, d + a.log) && (a.ok ==> taken == |req.entries|)
  {
    hide Spec.Absorbs, Repeats;
    LogView(Hear(n, req), d);
    assert Spec.Matches(d + n.log, req);
    AbsorbsAlike(n.log, d, req.prevIndex + 1, req.entries, ops);
    kept, taken := AbsorbMeaning(d + n.log, req, ops);
  }

  /** What a leader sends of a follower's compacted prefix is what the follower compacted. */
  lemma CompactedRepeats(s: System, x: Id, req: AppendRequest, d: Pasts, h: History)
    requires Good(s, d, h) && x in s.nodes && x in d && AppendAsk(x, req) in s.net && req.term >= s.nodes[x].term
    ensures Repeats(d[x].dropped, req.prevIndex + 1, req.entries)
  {
    hide BidsInv, BallotsInv, ReignsInv, ThronesInv, AcksInv, KeptInv, EndorsedInv, InheritedInv, DecisionsInv,
         NodesOk, TicketsOk, RoleOk, Rooted;
    KnownPeer(s, d, h, x);
    var n := s.nodes[x];
    assert MsgOk(AppendAsk(x, req), h);
    SettledInReign(h, s.nodes.Keys, d[x].peak, n.term, req.term);
    var lead, full := h.reigns[req.term].log, d[x].dropped + n.log;
    forall k | 0 <= k < |req.entries| && 1 <= req.prevIndex + 1 + k <= |d[x].dropped|
      ensures d[x].dropped[req.prevIndex + k].term == req.entries[k].term
    {
      assert d[x].dropped[req.prevIndex + k] == full[req.prevIndex + k] == h.canon[req.prevIndex + k]
             == lead[req.prevIndex + k];
    }
  }

  lemma HearingFields(n: Node, req: AppendRequest, ops: nat)
    ensures var m := OnAppendRequest(n, req, ops).node;
            && m.id == n.id && m.peers == n.peers && m.offset == n.offset && m.snapIndex == n.snapIndex
            && m.snapTerm == n.snapTerm && m.lastApplied == n.lastApplied && m.matchIndex == n.matchIndex
            && (req.term >= n.term ==> m.role == Follower)
  {
  }

  lemma HandleAppendKeeps(s: System, x: Id, req: AppendRequest, ops: nat, s': System, d: Pasts,
        h: History)
    returns (h': History)
    requires Good(s, d, h) && Next(s, HandleAppend(x, req, ops), s')
    ensures Good(s', After(d, x, OnAppendRequest(s.nodes[x], req, ops).node), h') && Grows(h, h')
  {
    hide Good, Inv, Grows, PeerOk, Spec.Step, Abs, Linked, Repeats;
    KnownPeer(s, d, h, x);
    AbsNet(s, d);
    var n := s.nodes[x];
    var r := OnAppendRequest(n, req, ops);
    if req.term < n.term {
      h' := DeclineKeeps(s, d, h, x, AppendReply(x, req, r.term, false));
      AfterSame(s, d, h, x, n);
    } else {
      CompactedRepeats(s, x, req, d, h);
      var e := AppendStep(Abs(s, d), x, n, d[x], s.delivered[x], req, ops);
      HearingFields(n, req, ops);
      h' := SimulateMove(s, d, h, x, r.node, s'.net, e);
    }
  }

  // ---- Applying and compacting --------------------------------------------------------------

  lemma ApplyStep(c: Spec.Cluster, x: Id, n: Node, d: Past, applied: seq<Entry>, h: History)
    requires x in c.peers && c.peers[x] == AbsPeer(n, d, applied) && Linked(n, d.dropped) && PeerOk(x, c.peers[x], h)
    requires n.lastApplied == |applied| && n.offset <= n.lastApplied < n.commit
    ensures EntryAt(n, n.lastApplied + 1).Some?
    ensures Spec.Step(c, Spec.Deliver(x),
                      Spec.Cluster(c.peers[x := AbsPeer(n.(lastApplied := n.lastApplied + 1), d,
                                                        applied + [EntryAt(n, n.lastApplied + 1).value])], c.net))
  {
    hide Rooted, RoleOk, Settled;
    LogView(n, d.dropped);
  }

  lemma ApplyKeeps(s: System, x: Id, s': System, d: Pasts, h: History) returns (h': History)
    requires Good(s, d, h) && Next(s, Apply(x), s')
    ensures Good(s', d, h') && Grows(h, h')
  {
    hide Good, Grows;
    var n := s.nodes[x];
    if n.lastApplied >= n.commit {
      assert s' == s;
      h' := h;
      GrowsAlways(h);
    } else {
      h' := DeliverKeeps(s, x, d, h);
    }
  }

  lemma DeliverKeeps(s: System, x: Id, d: Pasts, h: History) returns (h': History)
    requires Good(s, d, h) && x in s.nodes && x in s.delivered && s.nodes[x].lastApplied < s.nodes[x].commit
    ensures var n := s.nodes[x];
            && EntryAt(n, n.lastApplied + 1).Some? && Grows(h, h')
            && Good(Set(s, x, n.(lastApplied := n.lastApplied + 1)).(
                      delivered := s.delivered[x := s.delivered[x] + [EntryAt(n, n.lastApplied + 1).value]]), d, h')
  {
    hide Good, Inv, Grows, PeerOk, Spec.Step, Linked, NodesOk, TicketsOk, Abs, EntryAt;
    KnownPeer(s, d, h, x);
    GoodKeys(s, d, h);
    AbsNet(s, d);
    var n := s.nodes[x];
    assert n.lastApplied == |s.delivered[x]| && n.offset <= n.lastApplied;
    hide NodeOk, AbsPeer;
    ApplyStep(Abs(s, d), x, n, d[x], s.delivered[x], h);
    var n' := n.(lastApplied := n.lastApplied + 1);
    var s' := Set(s, x, n').(delivered := s.delivered[x := s.delivered[x] + [EntryAt(n, n.lastApplied + 1).value]]);
    AbsSet(s, d, s', d, x);
    AbsNet(s', d);
    DeliveredOk(x, n, d[x], s.delivered[x], s.nodes.Keys, EntryAt(n, n.lastApplied + 1).value);
    NodesSet(s, d, s', d, x);
    h' := Simulate(s, d, h, s', d, Spec.Deliver(x));
  }

  lemma DeliveredOk(x: Id, n: Node, d: Past, applied: seq<Entry>, members: set<Id>, e: Entry)
    requires NodeOk(x, n, d, applied, members)
    ensures NodeOk(x, n.(lastApplied := n.lastApplied + 1), d, applied + [e], members)
  {
  }

  lemma GoodKeys(s: System, d: Pasts, h: History)
    requires Good(s, d, h)
    ensures s.nodes.Keys == s.delivered.Keys == d.Keys && NodesOk(s, d) && TicketsOk(s, h)
  {
  }

  /** An applied index: its entry in the log is the agreed one. */
  lemma AppliedEntry(s: System, x: Id, i: nat, d: Pasts, h: History)
    requires Good(s, d, h) && x in s.nodes && x in d && 1 <= i <= s.nodes[x].lastApplied
    ensures i <= |h.canon| && i <= |d[x].dropped + s.nodes[x].log|
            && h.canon[i - 1] == (d[x].dropped + s.nodes[x].log)[i - 1]
  {
    hide Good, Inv, Rooted, RoleOk, Settled, Linked;
    KnownPeer(s, d, h, x);
  }

  lemma CheckKeeps(s: System, x: Id, index: nat, s': System, d: Pasts, h: History)
    requires Good(s, d, h) && Next(s, CheckCompaction(x, index), s')
    ensures Good(s', d, h)
  {
    hide Inv, PeerOk, NodeOk, TicketOk;
    assert Abs(s', d) == Abs(s, d);
    NewTicketOk(s, x, index, d, h);
    forall t | t in s'.tickets ensures TicketOk(t, s', h) { TicketStays(t, s, s', h); }
  }

  lemma TicketStays(t: Ticket, s: System, s': System, h: History)
    requires TicketOk(t, s, h) && s'.nodes == s.nodes
    ensures TicketOk(t, s', h)
  {
  }

  lemma NewTicketOk(s: System, x: Id, index: nat, d: Pasts, h: History)
    requires Good(s, d, h) && x in s.nodes && index <= s.nodes[x].lastApplied && CompactCheck(s.nodes[x], index).Some?
    ensures TicketOk(Ticket(x, index, CompactCheck(s.nodes[x], index).value), s, h)
  {
    hide Good, Inv, PeerOk;
    KnownPeer(s, d, h, x);
    LogView(s.nodes[x], d[x].dropped);
    AppliedEntry(s, x, index, d, h);
  }

  ghost function DropAfter(p: Past, n: Node, index: nat): Past {
    if n.snapIndex < index <= |p.dropped + n.log| then p.(dropped := (p.dropped + n.log)[..index]) else p
  }

  lemma DropKeeps(s: System, x: Id, index: nat, term: nat, s': System, d: Pasts, h: History)
    requires Good(s, d, h) && Next(s, DropCompacted(x, index, term), s')
    ensures x in d && Good(s', d[x := DropAfter(d[x], s.nodes[x], index)], h)
  {
    hide Inv, PeerOk, Linked, Abs, DropAfter;
    KnownPeer(s, d, h, x);
    var n := s.nodes[x];
    assert TicketOk(Ticket(x, index, term), s, h);
    AppliedEntry(s, x, index, d, h);
    DropNode(x, n, d[x], s.delivered[x], s.nodes.Keys, index, term);
    var d' := d[x := DropAfter(d[x], n, index)];
    DropSame(s, d, s', d', x);
    NodesSet(s, d, s', d', x);
    forall t | t in s'.tickets ensures TicketOk(t, s', h) { assert TicketOk(t, s, h); }
  }

  lemma DropSame(s: System, d: Pasts, s': System, d': Pasts, x: Id)
    requires s.nodes.Keys == s.delivered.Keys == d.Keys && x in s.nodes && x in d' && x in s'.nodes
    requires s' == Set(s, x, s'.nodes[x]) && d' == d[x := d'[x]]
    requires AbsPeer(s'.nodes[x], d'[x], s.delivered[x]) == AbsPeer(s.nodes[x], d[x], s.delivered[x])
    ensures Abs(s', d') == Abs(s, d)
  {
    AbsSet(s, d, s', d', x);
  }

  lemma DropNode(x: Id, n: Node, d: Past, applied: seq<Entry>, members: set<Id>, index: nat, term: nat)
    requires NodeOk(x, n, d, applied, members) && Linked(n, d.dropped)
    requires 1 <= index <= n.lastApplied && index <= |d.dropped + n.log| && (d.dropped + n.log)[index - 1].term == term
    ensures var n', p := CompactDrop(n, index, term), DropAfter(d, n, index);
            NodeOk(x, n', p, applied, members) && AbsPeer(n', p, applied) == AbsPeer(n, d, applied)
            && n'.lastApplied == n.lastApplied
  {
  }

  // ---- Every action -------------------------------------------------------------------------

  /** What a run remembers of its nodes after an action. */
  ghost function PastsAfter(d: Pasts, s: System, a: Action, s': System): Pasts {
    if a.x !in d || a.x !in s.nodes || a.x !in s'.nodes then d
    else if a.DropCompacted? then d[a.x := DropAfter(d[a.x], s.nodes[a.x], a.index)]
    else After(d, a.x, s'.nodes[a.x])
  }

  lemma ActionKeeps(s: System, a: Action, s': System, d: Pasts, h: History) returns (h': History)
    requires Good(s, d, h) && Next(s, a, s')
    ensures Good(s', PastsAfter(d, s, a, s'), h') && Grows(h, h')
  {
    hide Good, Grows, DropAfter, UpdateCommit, OnAppendReply, OnAppendRequest, After;
    GoodHas(s, d, h, a.x);
    var x := a.x;
    match a
    case HandleAppend(_, req, ops) => h' := HandleAppendKeeps(s, x, req, ops, s', d, h);
    case SeeAppendReply(_, from, req, term, success) => h' := SeeAppendReplyKeeps(s, x, from, req, term, success, d, h);
    case Recheck(_) => h' := RecheckKeeps(s, x, d, h);
    case DropCompacted(_, index, term) =>
      DropKeeps(s, x, index, term, s', d, h);
      h' := h;
      GrowsAlways(h);
    case _ =>
      h' := ActionKeepsCommit(s, a, s', d, h);
  }

  lemma GoodHas(s: System, d: Pasts, h: History, x: Id)
    requires Good(s, d, h) && x in s.nodes
    ensures x in d
  {
  }

  lemma ActionKeepsCommit(s: System, a: Action, s': System, d: Pasts, h: History) returns (h': History)
    requires Good(s, d, h) && Next(s, a, s')
    requires !a.HandleAppend? && !a.SeeAppendReply? && !a.Recheck? && !a.DropCompacted?
    ensures a.x in s'.nodes && Good(s', After(d, a.x, s'.nodes[a.x]), h') && Grows(h, h')
  {
    hide Good, Grows, After;
    h' := h;
    match a {
      case Timeout(x) => h' := TimeoutKeeps(s, x, s', d, h);
      case HandleVote(x, ask) => h' := HandleVoteKeeps(s, x, ask, s', d, h);
      case SeeVoteReply(x, term) => h' := SeeTermKeeps(s, x, term, d, h);
      case WinElection(x, voters) => h' := WinKeeps(s, x, voters, s', d, h);
      case Submit(x, command) => h' := SubmitKeeps(s, x, command, s', d, h);
      case SendAppend(x, to) => h' := SendAppendKeeps(s, x, to, s', d, h);
      case Apply(x) => h' := ApplyKeeps(s, x, s', d, h);
      case CheckCompaction(x, index) => CheckKeeps(s, x, index, s', d, h); GrowsAlways(h);
    }
    AfterSame(s, d, h, a.x, s'.nodes[a.x]);
  }

  lemma InitGood(s: System) returns (d: Pasts)
    requires Init(s)
    ensures d == map x | x in s.nodes :: Past([], 0)
    ensures Good(s, d, NoHistory)
  {
    d := map x | x in s.nodes :: Past([], 0);
    assert Spec.Init(Abs(s, d)) by {
      forall x | x in s.nodes
        ensures AbsPeer(s.nodes[x], d[x], s.delivered[x]) == Spec.Peer(Follower, 0, "", [], 0, 0, map[], [])
      {
        assert Fresh(s.nodes[x]);
      }
    }
    InitHolds(Abs(s, d));
    forall x | x in s.nodes ensures NodeOk(x, s.nodes[x], d[x], s.delivered[x], s.nodes.Keys) {
      assert Fresh(s.nodes[x]) && Configured(s.nodes[x], x, s.nodes.Keys);
    }
  }
}
