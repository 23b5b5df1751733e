/** The safety of the cluster, over whole runs and between any two moments of a run. */
module RaftSafety {
  import opened Options
  import opened RaftTypes
  import opened RaftNode
  import opened RaftSystem
  import opened RaftHistory
  import opened RaftGrowth
  import opened RaftRefinement
  import RaftCompaction
  import Spec = RaftSpec

  /** The log prefix each node has compacted, and the highest commit index it has reached, at a moment of a run. */
  ghost function PastAt(states: seq<System>, actions: seq<Action>, i: nat): Pasts
    requires Run(states, actions) && i < |states|
  {
    if i == 0 then map x | x in states[0].nodes :: Past([], 0)
    else PastsAfter(PastAt(states, actions, i - 1), states[i - 1], actions[i - 1], states[i])
  }

  lemma {:induction false} HistoryAt(states: seq<System>, actions: seq<Action>, i: nat) returns (h: History)
    requires Run(states, actions) && i < |states|
    ensures Good(states[i], PastAt(states, actions, i), h)
  {
    hide Good, Next, PastsAfter;
    if i == 0 {
      var d := InitGood(states[0]);
      h := NoHistory;
    } else {
      var h0 := HistoryAt(states, actions, i - 1);
      h := ActionKeeps(states[i - 1], actions[i - 1], states[i], PastAt(states, actions, i - 1), h0);
    }
  }

  /** Two moments of a run, with a later history that continues the earlier one. */
  lemma {:induction false} HistoriesAt(states: seq<System>, actions: seq<Action>, i: nat, j: nat)
    returns (h: History, h': History)
    requires Run(states, actions) && i <= j < |states|
    ensures Good(states[i], PastAt(states, actions, i), h) && Good(states[j], PastAt(states, actions, j), h')
    ensures Grows(h, h')
  {
    hide Good, Grows, Next, PastsAfter;
    if i == j {
      h := HistoryAt(states, actions, i);
      h' := h;
      GrowsAlways(h);
    } else {
      var h1;
      h, h1 := HistoriesAt(states, actions, i, j - 1);
      h' := ActionKeeps(states[j - 1], actions[j - 1], states[j], PastAt(states, actions, j - 1), h1);
      GrowsTwice(h, h1, h');
    }
  }

  /** The whole log of a node: what it compacted and what it still holds. */
  ghost function LogAt(states: seq<System>, actions: seq<Action>, i: nat, x: Id): seq<Entry>
    requires Run(states, actions) && i < |states| && x in states[i].nodes
  {
    var d := PastAt(states, actions, i);
    (if x in d then d[x].dropped else []) + states[i].nodes[x].log
  }

  lemma KnownAt(s: System, d: Pasts, h: History, x: Id)
    requires Good(s, d, h) && x in s.nodes
    ensures x in d && x in s.delivered && Rooted(d[x].dropped + s.nodes[x].log, h.reigns)
    ensures RaftCompaction.Linked(s.nodes[x], d[x].dropped)
    ensures s.nodes[x].commit <= d[x].peak <= |h.canon| && Same(d[x].dropped + s.nodes[x].log, h.canon, d[x].peak)
    ensures s.nodes[x].lastApplied == |s.delivered[x]| <= d[x].peak && Same(s.delivered[x], h.canon, |s.delivered[x]|)
    ensures s.nodes[x].role == Leader ==>
              var t := s.nodes[x].term;
              t in h.reigns && h.reigns[t].leader == x && h.reigns[t].log == d[x].dropped + s.nodes[x].log
    ensures Settled(h, d[x].peak, s.nodes[x].term)
  {
    hide Good, Inv, Rooted, RaftCompaction.Linked, Settled;
    KnownPeer(s, d, h, x);
  }

  /** Election safety: a term has at most one leader, however far apart in the run. */
  lemma ElectionSafety(states: seq<System>, actions: seq<Action>, i: nat, j: nat, x: Id, y: Id)
    requires Run(states, actions) && i <= j < |states|
    requires x in states[i].nodes && y in states[j].nodes
    requires states[i].nodes[x].role == Leader && states[j].nodes[y].role == Leader
    requires states[i].nodes[x].term == states[j].nodes[y].term
    ensures x == y
  {
    hide Good;
    var h, h' := HistoriesAt(states, actions, i, j);
    KnownAt(states[i], PastAt(states, actions, i), h, x);
    KnownAt(states[j], PastAt(states, actions, j), h', y);
    assert ReignGrows(h.reigns[states[i].nodes[x].term], h'.reigns[states[i].nodes[x].term]);
  }

  /** A leader only appends during its term: its log at any later moment of the term continues its log now. */
  lemma LeaderAppendsOnly(states: seq<System>, actions: seq<Action>, i: nat, j: nat, x: Id)
    requires Run(states, actions) && i <= j < |states| && x in states[i].nodes && x in states[j].nodes
    requires states[i].nodes[x].role == Leader && states[j].nodes[x].role == Leader
    requires states[i].nodes[x].term == states[j].nodes[x].term
    ensures var now, later := LogAt(states, actions, i, x), LogAt(states, actions, j, x); Same(now, later, |now|)
  {
    hide Good, Rooted, Settled;
    var h, h' := HistoriesAt(states, actions, i, j);
    KnownAt(states[i], PastAt(states, actions, i), h, x);
    KnownAt(states[j], PastAt(states, actions, j), h', x);
    assert ReignGrows(h.reigns[states[i].nodes[x].term], h'.reigns[states[i].nodes[x].term]);
  }

  /**
   Leader completeness: what a node ever regarded as committed is in the log of every later leader of its
   term or beyond.
   */
  lemma LeadersAreComplete(states: seq<System>, actions: seq<Action>, i: nat, j: nat, x: Id, y: Id)
    requires Run(states, actions) && i <= j < |states| && x in states[i].nodes && y in states[j].nodes
    requires states[j].nodes[y].role == Leader && states[i].nodes[x].term <= states[j].nodes[y].term
    ensures Same(LogAt(states, actions, i, x), LogAt(states, actions, j, y), states[i].nodes[x].commit)
  {
    hide Good, Rooted, Settled, Grows;
    var h, h' := HistoriesAt(states, actions, i, j);
    var p := PastAt(states, actions, i);
    KnownAt(states[i], p, h, x);
    KnownAt(states[j], PastAt(states, actions, j), h', y);
    SettledThen(states[j], PastAt(states, actions, j), h, h', p[x].peak, states[i].nodes[x].term,
        states[j].nodes[y].term);
  }

  lemma SettledThen(s: System, d: Pasts, h: History, h': History, c: nat, t: nat, u: nat)
    requires Good(s, d, h') && Grows(h, h') && Settled(h, c, t) && t <= u && u in h'.reigns
    ensures c <= |h.canon| && Same(h.canon, h'.reigns[u].log, c)
  {
    hide BidsInv, BallotsInv, ReignsInv, ThronesInv, AcksInv, KeptInv, EndorsedInv, InheritedInv, DecisionsInv,
         NetInv, PeersInv, NodesOk, TicketsOk;
    SettledGrows(h, h', c, t, t);
    SettledInReign(h', Abs(s, d).peers.Keys, c, t, u);
  }

  /** Log matching: whole logs that share an entry's index and term share everything before it. */
  lemma LogMatchingInRuns(states: seq<System>, actions: seq<Action>, i: nat, j: nat, x: Id, y: Id, k: nat)
    requires Run(states, actions) && i <= j < |states| && x in states[i].nodes && y in states[j].nodes
    requires k < |LogAt(states, actions, i, x)| && k < |LogAt(states, actions, j, y)|
    requires LogAt(states, actions, i, x)[k].term == LogAt(states, actions, j, y)[k].term
    ensures Same(LogAt(states, actions, i, x), LogAt(states, actions, j, y), k + 1)
  {
    hide Good, Grows, Rooted;
    var h, h' := HistoriesAt(states, actions, i, j);
    KnownAt(states[i], PastAt(states, actions, i), h, x);
    KnownAt(states[j], PastAt(states, actions, j), h', y);
    RootedGrows(LogAt(states, actions, i, x), h, h');
    LogMatching(LogAt(states, actions, i, x), LogAt(states, actions, j, y), h'.reigns, k);
  }

  /** The stated offset invariant: log[k].Index == logOffset + k + 1, and the offset is the snapshot index. */
  lemma OffsetInvariant(states: seq<System>, actions: seq<Action>, i: nat, x: Id, k: nat)
    requires Run(states, actions) && i < |states| && x in states[i].nodes && k < |states[i].nodes[x].log|
    ensures var n := states[i].nodes[x]; n.log[k].index == n.offset + k + 1 && n.offset == n.snapIndex
  {
    hide Good, Rooted;
    var h := HistoryAt(states, actions, i);
    KnownAt(states[i], PastAt(states, actions, i), h, x);
  }

  /** No entry and no snapshot boundary has term 0. */
  lemma TermsPositive(states: seq<System>, actions: seq<Action>, i: nat, x: Id)
    requires Run(states, actions) && i < |states| && x in states[i].nodes
    ensures var n := states[i].nodes[x];
            (forall k :: 0 <= k < |n.log| ==> n.log[k].term > 0) && (n.snapIndex > 0 ==> n.snapTerm > 0)
  {
    hide Next, Good;
    var h := HistoryAt(states, actions, i);
    RootedPositive(states[i], PastAt(states, actions, i), h, x);
  }

  /** A leader takes every peer to need some entry from index 1 on. */
  lemma NextIsPositive(states: seq<System>, actions: seq<Action>, i: nat, x: Id, peer: Id)
    requires Run(states, actions) && i < |states| && x in states[i].nodes
    requires states[i].nodes[x].role == Leader && peer in states[i].nodes[x].peers
    ensures 1 <= Lookup(states[i].nodes[x].nextIndex, peer) <= LogLen(states[i].nodes[x]) + 1
  {
    hide Next, Good, Run, RaftHistory.Inv, PeerOk, RaftCompaction.Linked, Abs;
    var h := HistoryAt(states, actions, i);
    KnownPeer(states[i], PastAt(states, actions, i), h, x);
    ConfiguredPeers(states[i].nodes[x], x, states[i].nodes.Keys);
  }

  lemma RootedPositive(s: System, d: Pasts, h: History, x: Id)
    requires Good(s, d, h) && x in s.nodes
    ensures var n := s.nodes[x];
            (forall k :: 0 <= k < |n.log| ==> n.log[k].term > 0) && (n.snapIndex > 0 ==> n.snapTerm > 0)
  {
    hide Good, Inv, Rooted, RaftCompaction.Linked, ReignsInv, Settled;
    KnownAt(s, d, h, x);
    ReignsKnown(s, d, h);
    RootedTerms(d[x].dropped + s.nodes[x].log, h, Abs(s, d).peers.Keys);
    LinkedTerms(s.nodes[x], d[x].dropped);
  }

  lemma ReignsKnown(s: System, d: Pasts, h: History)
    requires Good(s, d, h)
    ensures ReignsInv(h, Abs(s, d).peers.Keys)
  {
    hide NodesOk, TicketsOk, ReignsInv, BidsInv, BallotsInv, ThronesInv, AcksInv, KeptInv, EndorsedInv, InheritedInv,
         DecisionsInv, NetInv, PeersInv, Abs;
  }

  lemma LinkedTerms(n: Node, d: seq<Entry>)
    requires RaftCompaction.Linked(n, d) && forall k :: 0 <= k < |d + n.log| ==> (d + n.log)[k].term > 0
    ensures (forall k :: 0 <= k < |n.log| ==> n.log[k].term > 0) && (n.snapIndex > 0 ==> n.snapTerm > 0)
  {
    assert forall k :: 0 <= k < |n.log| ==> n.log[k] == (d + n.log)[|d| + k];
    assert n.snapIndex > 0 ==> d[n.snapIndex - 1] == (d + n.log)[n.snapIndex - 1];
  }

  lemma RootedTerms(log: seq<Entry>, h: History, members: set<Id>)
    requires Rooted(log, h.reigns) && ReignsInv(h, members)
    ensures forall k :: 0 <= k < |log| ==> log[k].term > 0
  {
    forall k | 0 <= k < |log| ensures log[k].term > 0 {
      assert RootedAt(log, k, h.reigns);
      assert ReignOk(log[k].term, h, members);
    }
  }

  // ---- The commit index ----------------------------------------------------------------------

  /** A leader ships the whole tail of its log, so a request reaches as far as the commit index that it announces. */
  lemma {:induction false} RequestsCoverCommit(states: seq<System>, actions: seq<Action>, i: nat, to: Id,
        req: AppendRequest)
    requires Run(states, actions) && i < |states| && AppendAsk(to, req) in states[i].net
    ensures req.leaderCommit <= req.prevIndex + |req.entries|
    decreases i
  {
    hide Next, Good, PastsAfter;
    if i > 0 {
      var s, a := states[i - 1], actions[i - 1];
      assert Next(s, a, states[i]);
      if AppendAsk(to, req) in s.net {
        RequestsCoverCommit(states, actions, i - 1, to, req);
      } else {
        NewRequest(s, a, states[i], to, req);
        var h := HistoryAt(states, actions, i - 1);
        ShippedCoversCommit(s, PastAt(states, actions, i - 1), h, a.x, to);
      }
    }
  }

  lemma NewRequest(s: System, a: Action, s': System, to: Id, req: AppendRequest)
    requires Next(s, a, s') && AppendAsk(to, req) in s'.net && AppendAsk(to, req) !in s.net
    ensures a == SendAppend(a.x, to) && a.x in s.nodes && to in s.nodes[a.x].peers
            && NextAppend(s.nodes[a.x], to) == Some(req)
  {
    hide NextAppend, OnAppendRequest, OnVoteRequest, UpdateCommit, OnAppendReply, CompactDrop;
  }

  lemma ShippedCoversCommit(s: System, d: Pasts, h: History, x: Id, to: Id)
    requires Good(s, d, h) && x in s.nodes && to in s.nodes[x].peers && NextAppend(s.nodes[x], to).Some?
    ensures var req := NextAppend(s.nodes[x], to).value; req.leaderCommit <= req.prevIndex + |req.entries|
  {
    hide Good, Inv, Rooted, RoleOk, Settled, RaftCompaction.Linked;
    KnownPeer(s, d, h, x);
    ConfiguredPeers(s.nodes[x], x, s.nodes.Keys);
    ShippedIs(s.nodes[x], d[x], s.delivered[x], x, to);
  }

  lemma CommitRises(states: seq<System>, actions: seq<Action>, i: nat, x: Id)
    requires Run(states, actions) && i + 1 < |states| && x in states[i].nodes
    ensures x in states[i + 1].nodes && states[i].nodes[x].commit <= states[i + 1].nodes[x].commit
  {
    var s, a, s' := states[i], actions[i], states[i + 1];
    assert Next(s, a, s');
    assert a.HandleAppend? ==> AppendAsk(a.x, a.req) in s.net;
    hide Next, Init;
    if a.HandleAppend? { RequestsCoverCommit(states, actions, i, a.x, a.req); }
    ActionRaisesCommit(s, a, s', x);
  }

  lemma ActionRaisesCommit(s: System, a: Action, s': System, x: Id)
    requires Next(s, a, s') && x in s.nodes
    requires a.HandleAppend? ==> a.req.leaderCommit <= a.req.prevIndex + |a.req.entries|
    ensures x in s'.nodes && s.nodes[x].commit <= s'.nodes[x].commit
  {
    hide AbsorbEntries, Committable, TermAt;
    var n := s.nodes[a.x];
    ScanIsLargest(n, LogLen(n));
    if a.SeeAppendReply? {
      var next := a.req.prevIndex + 1 + |a.req.entries|;
      var m := n.(nextIndex := n.nextIndex[a.from := next], matchIndex := n.matchIndex[a.from := next - 1]);
      ScanIsLargest(m, LogLen(m));
    }
  }

  /** In every run the commit index of a node never falls. */
  lemma {:induction false} CommitNeverFalls(states: seq<System>, actions: seq<Action>, i: nat, j: nat, x: Id)
    requires Run(states, actions) && i <= j < |states| && x in states[i].nodes
    ensures x in states[j].nodes && states[i].nodes[x].commit <= states[j].nodes[x].commit
    decreases j - i
  {
    hide Next, Init;
    if i < j {
      CommitNeverFalls(states, actions, i, j - 1, x);
      CommitRises(states, actions, j - 1, x);
    }
  }

  /** In every reachable state a node has applied no more than it has committed, and snapshots lie below that. */
  lemma {:induction false} SnapBelowCommit(states: seq<System>, actions: seq<Action>, i: nat, x: Id)
    requires Run(states, actions) && i < |states| && x in states[i].nodes
    ensures var n := states[i].nodes[x]; n.snapIndex == n.offset <= n.lastApplied <= n.commit <= LogLen(n)
    ensures forall t :: t in states[i].tickets && t.node == x ==> t.index <= states[i].nodes[x].commit
    decreases i
  {
    hide Good, Next;
    var h := HistoryAt(states, actions, i);
    SnapBelowApplied(states[i], PastAt(states, actions, i), h, x);
    AppliedBelowCommit(states, actions, i, x);
  }

  lemma SnapBelowApplied(s: System, d: Pasts, h: History, x: Id)
    requires Good(s, d, h) && x in s.nodes
    ensures var n := s.nodes[x]; n.snapIndex == n.offset <= n.lastApplied && n.commit <= LogLen(n)
    ensures forall t :: t in s.tickets && t.node == x ==> t.index <= s.nodes[x].lastApplied
  {
    hide Inv, Rooted, RaftCompaction.Linked, Settled;
    KnownPeer(s, d, h, x);
    assert forall t :: t in s.tickets ==> TicketOk(t, s, h);
  }

  lemma {:induction false} AppliedBelowCommit(states: seq<System>, actions: seq<Action>, i: nat, x: Id)
    requires Run(states, actions) && i < |states| && x in states[i].nodes
    ensures states[i].nodes[x].lastApplied <= states[i].nodes[x].commit
    decreases i
  {
    hide Next, PastsAfter;
    if i == 0 {
      assert Fresh(states[0].nodes[x]);
    } else {
      var s, a, s' := states[i - 1], actions[i - 1], states[i];
      assert Next(s, a, s');
      SameNodes(s, a, s');
      AppliedBelowCommit(states, actions, i - 1, x);
      CommitRises(states, actions, i - 1, x);
      AppliedMoves(s, a, s', x);
    }
  }

  lemma SameNodes(s: System, a: Action, s': System)
    requires Next(s, a, s')
    ensures s'.nodes.Keys == s.nodes.Keys
  {
    hide NextAppend, OnAppendRequest, OnVoteRequest, UpdateCommit, OnAppendReply, CompactDrop;
  }

  lemma AppliedMoves(s: System, a: Action, s': System, x: Id)
    requires Next(s, a, s') && x in s.nodes && x in s'.nodes
    ensures s'.nodes[x].lastApplied == s.nodes[x].lastApplied || s'.nodes[x].lastApplied <= s.nodes[x].commit
  {
    hide AbsorbEntries, Committable, TermAt;
  }

  /** What a node ever regarded as committed is what it regards as committed now. */
  lemma {:induction false} PeakIsCommit(states: seq<System>, actions: seq<Action>, i: nat, x: Id)
    requires Run(states, actions) && i < |states| && x in states[i].nodes
    ensures x in PastAt(states, actions, i) && PastAt(states, actions, i)[x].peak == states[i].nodes[x].commit
    decreases i
  {
    hide Next, PastsAfter;
    if i == 0 {
      assert Fresh(states[0].nodes[x]);
    } else {
      var s, a, s' := states[i - 1], actions[i - 1], states[i];
      assert Next(s, a, s');
      SameNodes(s, a, s');
      PeakIsCommit(states, actions, i - 1, x);
      CommitRises(states, actions, i - 1, x);
      PeakMoves(PastAt(states, actions, i - 1), s, a, s', x);
    }
  }

  lemma PeakMoves(d: Pasts, s: System, a: Action, s': System, x: Id)
    requires Next(s, a, s') && x in d && x in s.nodes && x in s'.nodes
    requires d[x].peak == s.nodes[x].commit <= s'.nodes[x].commit
    ensures x in PastsAfter(d, s, a, s') && PastsAfter(d, s, a, s')[x].peak == s'.nodes[x].commit
  {
    hide OnAppendRequest, OnVoteRequest, UpdateCommit, OnAppendReply, NextAppend;
  }

  /** The commit advance of a compacted node is that of the node that kept its whole log, in every reachable state. */
  lemma ScansAlikeInRuns(states: seq<System>, actions: seq<Action>, i: nat, x: Id)
    requires Run(states, actions) && i < |states| && x in states[i].nodes
    ensures x in PastAt(states, actions, i)
    ensures var n, d := states[i].nodes[x], PastAt(states, actions, i)[x].dropped;
            && RaftCompaction.Whole(n, d).log == LogAt(states, actions, i, x)
            && UpdateCommit(n).commit == UpdateCommit(RaftCompaction.Whole(n, d)).commit
  {
    hide Good, Rooted, ScanCommit;
    var h := HistoryAt(states, actions, i);
    KnownAt(states[i], PastAt(states, actions, i), h, x);
    SnapBelowCommit(states, actions, i, x);
    var n, d := states[i].nodes[x], PastAt(states, actions, i)[x].dropped;
    RaftCompaction.ScansAlike(n, d, LogLen(n));
    RaftCompaction.LogView(n, d);
  }

  // ---- State machine safety ------------------------------------------------------------------

  /**
   Whatever two nodes regard as committed, at any two moments of a run, is the same log up to the shorter
   of the two.
   */
  lemma StateMachineSafety(states: seq<System>, actions: seq<Action>, i: nat, j: nat, x: Id, y: Id)
    requires Run(states, actions) && i <= j < |states| && x in states[i].nodes && y in states[j].nodes
    ensures Same(LogAt(states, actions, i, x), LogAt(states, actions, j, y),
                 Min(states[i].nodes[x].commit, states[j].nodes[y].commit))
  {
    hide Good, Rooted;
    var h, h' := HistoriesAt(states, actions, i, j);
    KnownAt(states[i], PastAt(states, actions, i), h, x);
    KnownAt(states[j], PastAt(states, actions, j), h', y);
  }

  /** Every committed entry is held by a majority, at every moment from the commit on. */
  lemma CommittedOnMajority(states: seq<System>, actions: seq<Action>, i: nat, j: nat, x: Id) returns (q: set<Id>)
    requires Run(states, actions) && i <= j < |states| && x in states[i].nodes && states[i].nodes[x].commit > 0
    ensures q <= states[j].nodes.Keys && 2 * |q| > |states[j].nodes.Keys|
    ensures forall v :: v in q ==>
              v in states[j].nodes
              && Same(LogAt(states, actions, i, x), LogAt(states, actions, j, v), states[i].nodes[x].commit)
  {
    hide Good, Rooted, Settled, Grows, Next;
    var h, h' := HistoriesAt(states, actions, i, j);
    var d := PastAt(states, actions, j);
    KnownAt(states[i], PastAt(states, actions, i), h, x);
    var c, t := states[i].nodes[x].commit, states[i].nodes[x].term;
    PeakIsCommit(states, actions, i, x);
    SettledGrows(h, h', c, t, t);
    q := SettledOnMajority(states[j], d, h', c, t);
    assert Same(h.canon, h'.canon, c) by { CanonGrows(h, h'); }
    forall v | v in q
      ensures v in states[j].nodes && Same(LogAt(states, actions, i, x), LogAt(states, actions, j, v), c)
    {
      assert LogAt(states, actions, j, v) == d[v].dropped + states[j].nodes[v].log;
    }
  }

  lemma CanonGrows(h: History, h': History)
    requires Grows(h, h')
    ensures Same(h.canon, h'.canon, |h.canon|)
  {
  }

  /** What a decision covers is in the logs of the majority that took it: no later leader was elected without it. */
  lemma SettledOnMajority(s: System, d: Pasts, h: History, c: nat, t: nat) returns (q: set<Id>)
    requires Good(s, d, h) && Settled(h, c, t) && c > 0
    ensures q <= s.nodes.Keys && 2 * |q| > |s.nodes.Keys|
    ensures forall v :: v in q ==> v in s.nodes && v in d && Same(h.canon, d[v].dropped + s.nodes[v].log, c)
  {
    hide Settled, BidsInv, BallotsInv, ReignsInv, ThronesInv, AcksInv, KeptInv, EndorsedInv, InheritedInv,
         DecisionsInv, NetInv, PeersInv;
    q := HeldByMajority(Abs(s, d), h, c, t);
    MembersAre(s, d);
  }

  lemma HeldByMajority(s: Spec.Cluster, h: History, c: nat, t: nat) returns (q: set<Id>)
    requires ReignsInv(h, s.peers.Keys) && InheritedInv(h) && KeptInv(s, h) && DecisionsInv(h, s.peers.Keys)
    requires Settled(h, c, t) && c > 0
    ensures q <= s.peers.Keys && 2 * |q| > |s.peers.Keys|
    ensures forall v :: v in q ==> Same(h.canon, s.peers[v].log, c)
  {
    hide ReignsInv, KeptInv, InheritedInv;
    var e :| e in h.decisions && e.index >= c && e.term <= t;
    assert DecisionOk(e, h, s.peers.Keys);
    q :| q <= s.peers.Keys && 2 * |q| > |s.peers.Keys| && AllAcked(h, q, e.term, e.index);
    forall v | v in q ensures Same(h.canon, s.peers[v].log, c) {
      assert AckOf(h, v, e.term) >= e.index;
      VoterHolds(s, h, e, v);
    }
  }

  lemma VoterHolds(c: Spec.Cluster, h: History, e: Decision, v: Id)
    requires ReignsInv(h, c.peers.Keys) && InheritedInv(h) && KeptInv(c, h)
    requires DecisionOk(e, h, c.peers.Keys) && v in c.peers && AckOf(h, v, e.term) >= e.index
    ensures Same(h.canon, c.peers[v].log, e.index)
  {
    hide ReignsInv, InheritedInv;
    assert Kept(v, e.term, e.index - 1, c, h);
    NotLost(h, c.peers.Keys, e.term, e.index, c.peers[v].term);
    SameThrough(h.canon, h.reigns[e.term].log, c.peers[v].log, e.index);
  }

  lemma MembersAre(s: System, d: Pasts)
    requires NodesOk(s, d)
    ensures Abs(s, d).peers.Keys == s.nodes.Keys == d.Keys
    ensures forall v :: v in s.nodes ==> Abs(s, d).peers[v].log == d[v].dropped + s.nodes[v].log
  {
  }

  lemma NotLost(h: History, members: set<Id>, t: nat, i: nat, upTo: nat)
    requires ReignsInv(h, members) && InheritedInv(h) && Chosen(h, members, t, i) && t in h.reigns
    ensures !Lost(h.reigns, t, i, upTo)
  {
    hide Chosen, ReignsInv, InheritedInv;
    forall u | u in h.reigns && t < u <= upTo ensures Same(h.reigns[t].log, h.reigns[u].base, i) {
      LeaderCompleteness(h, members, t, i, u);
    }
  }

  /** The commands handed to any two state machines: one sequence is a prefix of the other. */
  lemma DeliveriesAgree(states: seq<System>, actions: seq<Action>, i: nat, j: nat, x: Id, y: Id)
    requires Run(states, actions) && i <= j < |states| && x in states[i].nodes && y in states[j].nodes
    ensures x in states[i].delivered && y in states[j].delivered
    ensures var a, b := states[i].delivered[x], states[j].delivered[y]; Same(a, b, Min(|a|, |b|))
  {
    hide Good, Rooted;
    var h, h' := HistoriesAt(states, actions, i, j);
    KnownAt(states[i], PastAt(states, actions, i), h, x);
    KnownAt(states[j], PastAt(states, actions, j), h', y);
  }

  /** No committed entry is ever lost: it stays in the log of the node that saw it committed. */
  lemma CommittedStays(states: seq<System>, actions: seq<Action>, i: nat, j: nat, x: Id)
    requires Run(states, actions) && i <= j < |states| && x in states[i].nodes && x in states[j].nodes
    ensures Same(LogAt(states, actions, i, x), LogAt(states, actions, j, x), states[i].nodes[x].commit)
  {
    hide Good;
    StateMachineSafety(states, actions, i, j, x, x);
    CommitNeverFalls(states, actions, i, j, x);
  }
}
