/**
 What the proofs remember about a run and no step ever reads: who led each term and with which
 log, the logs candidates ran with, every vote, how far each node has acknowledged each leader,
 and the log the cluster has agreed on.
 */
module RaftHistory {
  import opened RaftTypes
  import opened RaftSpec

  /** base is the leader's log when it was elected, log what it has grown to. */
  datatype Reign = Reign(leader: Id, voters: set<Id>, base: seq<Entry>, log: seq<Entry>)
  datatype Bid = Bid(term: nat, candidate: Id)
  datatype Ballot = Ballot(term: nat, voter: Id, candidate: Id)
  datatype Receipt = Receipt(node: Id, term: nat)
  datatype Decision = Decision(term: nat, index: nat)

  datatype History = History(
    reigns: map<nat, Reign>,
    bids: map<Bid, seq<Entry>>,
    ballots: set<Ballot>,
    acks: map<Receipt, nat>,
    decisions: set<Decision>,
    canon: seq<Entry>)

  const NoHistory := History(map[], map[], {}, map[], {}, [])

  ghost function AckOf(h: History, v: Id, t: nat): nat {
    if Receipt(v, t) in h.acks then h.acks[Receipt(v, t)] else 0
  }

  // ---- Logs are prefixes of what the leaders of their terms wrote -------------------------

  ghost predicate RootedAt(log: seq<Entry>, k: nat, r: map<nat, Reign>)
    requires k < |log|
  {
    log[k].index == k + 1 && log[k].term in r && Same(log, r[log[k].term].log, k + 1)
  }

  ghost predicate Rooted(log: seq<Entry>, r: map<nat, Reign>) {
    forall k :: 0 <= k < |log| ==> RootedAt(log, k, r)
  }

  ghost predicate TermsBelow(log: seq<Entry>, t: nat) {
    forall k :: 0 <= k < |log| ==> log[k].term < t
  }

  ghost predicate ReignOk(t: nat, h: History, members: set<Id>)
    requires t in h.reigns
  {
    var r := h.reigns[t];
    && 1 <= t && r.leader in members && r.voters <= members && 2 * |r.voters| > |members|
    && Same(r.base, r.log, |r.base|) && TermsBelow(r.base, t) && Rooted(r.base, h.reigns)
    && (forall k :: |r.base| <= k < |r.log| ==> r.log[k].term == t && r.log[k].index == k + 1)
    && (forall v :: v in r.voters ==> Ballot(t, v, r.leader) in h.ballots)
    && Bid(t, r.leader) in h.bids && h.bids[Bid(t, r.leader)] == r.base
  }

  ghost predicate BidOk(b: Bid, h: History)
    requires b in h.bids
  {
    1 <= b.term && Rooted(h.bids[b], h.reigns) && TermsBelow(h.bids[b], b.term)
  }

  // ---- What a node's own state says ---------------------------------------------------------

  ghost predicate RoleOk(x: Id, n: Peer, h: History) {
    && (n.role == Candidate ==>
          Bid(n.term, x) in h.bids && h.bids[Bid(n.term, x)] == n.log
          && (n.term in h.reigns ==> h.reigns[n.term].leader != x))
    && (n.role == Candidate ==> Ballot(n.term, x, x) in h.ballots)
    && (n.role == Leader ==>
          n.term in h.reigns && h.reigns[n.term].leader == x && h.reigns[n.term].log == n.log
          && AckOf(h, x, n.term) == |n.log|
          && forall p :: p != x ==> Lookup(n.matched, p) <= AckOf(h, p, n.term))
  }

  /** Some decision taken in a term up to t covers the first c entries of the agreed log. */
  ghost predicate Settled(h: History, c: nat, t: nat) {
    c <= |h.canon| && (c == 0 || exists d :: d in h.decisions && d.index >= c && d.term <= t)
  }

  ghost predicate PeerOk(x: Id, n: Peer, h: History) {
    && Rooted(n.log, h.reigns) && TermsBelow(n.log, n.term + 1)
    && RoleOk(x, n, h)
    && n.commit <= n.peak && Settled(h, n.peak, n.term) && Same(n.log, h.canon, n.peak)
    && |n.applied| <= n.peak && Same(n.applied, h.canon, |n.applied|)
  }

  // ---- What a message says ------------------------------------------------------------------

  ghost predicate AppendOk(req: AppendRequest, h: History) {
    && req.term in h.reigns
    && var r := h.reigns[req.term];
    && req.leader == r.leader
    && req.prevIndex + |req.entries| <= |r.log|
    && (forall k :: 0 <= k < |req.entries| ==> req.entries[k] == r.log[req.prevIndex + k])
    && req.prevTerm == PrevTerm(r.log, req.prevIndex)
    && Settled(h, req.leaderCommit, req.term) && Same(r.log, h.canon, req.leaderCommit)
  }

  ghost predicate MsgOk(m: Msg, h: History) {
    match m
    case VoteAsk(to, vote) =>
      && to != vote.candidate && Bid(vote.term, vote.candidate) in h.bids
      && vote.lastIndex == |h.bids[Bid(vote.term, vote.candidate)]|
      && vote.lastTerm == LastTerm(h.bids[Bid(vote.term, vote.candidate)])
    case VoteReply(from, vote, term, granted) =>
      granted ==> Ballot(vote.term, from, vote.candidate) in h.ballots
    case AppendAsk(to, append) =>
      AppendOk(append, h) && to != append.leader
    case AppendReply(from, append, term, success) =>
      success ==> AckOf(h, from, append.term) >= append.prevIndex + |append.entries| && from != append.leader
  }

  // ---- Elections ----------------------------------------------------------------------------

  ghost predicate BallotOk(b: Ballot, s: Cluster, h: History) {
    && b.voter in s.peers && Bid(b.term, b.candidate) in h.bids
    && s.peers[b.voter].term >= b.term
    && (s.peers[b.voter].term == b.term ==> s.peers[b.voter].vote == b.candidate)
  }

  ghost predicate OneVotePerTerm(h: History) {
    forall a, b :: a in h.ballots && b in h.ballots && a.term == b.term && a.voter == b.voter ==> a == b
  }

  ghost predicate BidTermOk(b: Bid, s: Cluster) {
    b.candidate in s.peers && s.peers[b.candidate].term >= b.term
  }

  ghost predicate ThroneOk(t: nat, s: Cluster, h: History)
    requires t in h.reigns
  {
    var x := h.reigns[t].leader;
    x in s.peers && s.peers[x].term >= t && (s.peers[x].term == t ==> s.peers[x].role == Leader)
  }

  // ---- Acknowledged entries -----------------------------------------------------------------

  /** A leader of a term after t and up to `upTo` was elected without the first i entries of t's log. */
  ghost predicate Lost(r: map<nat, Reign>, t: nat, i: nat, upTo: nat)
    requires t in r
  {
    exists u :: u in r && t < u <= upTo && !Same(r[t].log, r[u].base, i)
  }

  ghost predicate AckOk(v: Id, t: nat, s: Cluster, h: History) {
    AckOf(h, v, t) > 0 ==>
      t in h.reigns && AckOf(h, v, t) <= |h.reigns[t].log| && v in s.peers && s.peers[v].term >= t
  }

  /** What v acknowledged to the leader of t is still in its log, or a later leader lost it. */
  ghost predicate Kept(v: Id, t: nat, k: nat, s: Cluster, h: History) {
    v in s.peers && t in h.reigns
    && (Same(h.reigns[t].log, s.peers[v].log, k + 1) || Lost(h.reigns, t, k + 1, s.peers[v].term))
  }

  /** A voter's acknowledged entries are in the log it voted for, or a leader in between lost them. */
  ghost predicate Endorsed(b: Ballot, t: nat, k: nat, h: History)
  {
    t in h.reigns && Bid(b.term, b.candidate) in h.bids
    && (Same(h.reigns[t].log, h.bids[Bid(b.term, b.candidate)], k + 1) || Lost(h.reigns, t, k + 1, b.term))
  }

  /** The same for the votes that made a leader. */
  ghost predicate Inherited(u: nat, v: Id, t: nat, k: nat, h: History)
    requires u in h.reigns && t < u
  {
    t in h.reigns
    && (Same(h.reigns[t].log, h.reigns[u].base, k + 1) || Lost(h.reigns, t, k + 1, u - 1))
  }

  ghost predicate OwnTerm(h: History, t: nat, k: nat) {
    t in h.reigns && k < |h.reigns[t].log| && h.reigns[t].log[k].term == t
  }

  // ---- Decisions ----------------------------------------------------------------------------

  /** A majority has acknowledged the first i entries of t's log, the last of them written in t. */
  ghost predicate Chosen(h: History, members: set<Id>, t: nat, i: nat) {
    && 1 <= i && OwnTerm(h, t, i - 1)
    && exists q: set<Id> :: q <= members && 2 * |q| > |members| && AllAcked(h, q, t, i)
  }

  ghost predicate AllAcked(h: History, q: set<Id>, t: nat, i: nat) {
    forall v :: v in q ==> AckOf(h, v, t) >= i
  }

  ghost predicate DecisionOk(d: Decision, h: History, members: set<Id>) {
    Chosen(h, members, d.term, d.index) && Same(h.canon, h.reigns[d.term].log, d.index)
  }

  // ---- The invariant ------------------------------------------------------------------------

  ghost predicate BidsInv(s: Cluster, h: History) {
    "" !in s.peers && forall b :: b in h.bids ==> BidOk(b, h) && BidTermOk(b, s)
  }

  ghost predicate BallotsInv(s: Cluster, h: History) {
    OneVotePerTerm(h) && forall b :: b in h.ballots ==> BallotOk(b, s, h)
  }

  ghost predicate ReignsInv(h: History, members: set<Id>) {
    forall t :: t in h.reigns ==> ReignOk(t, h, members)
  }

  ghost predicate ThronesInv(s: Cluster, h: History) {
    forall t :: t in h.reigns ==> ThroneOk(t, s, h)
  }

  ghost predicate AcksInv(s: Cluster, h: History) {
    forall v, t :: AckOk(v, t, s, h)
  }

  ghost predicate KeptInv(s: Cluster, h: History) {
    forall v, t, k :: 0 <= k < AckOf(h, v, t) ==> Kept(v, t, k, s, h)
  }

  ghost predicate EndorsedInv(h: History) {
    forall b, t: nat, k: nat ::
      b in h.ballots && t < b.term && k < AckOf(h, b.voter, t) && OwnTerm(h, t, k) ==> Endorsed(b, t, k, h)
  }

  ghost predicate InheritedInv(h: History) {
    forall u, v, t: nat, k: nat ::
      u in h.reigns && v in h.reigns[u].voters && t < u && k < AckOf(h, v, t) && OwnTerm(h, t, k)
      ==> Inherited(u, v, t, k, h)
  }

  ghost predicate DecisionsInv(h: History, members: set<Id>) {
    && (forall d :: d in h.decisions ==> DecisionOk(d, h, members))
    && (h.canon == [] || exists d :: d in h.decisions && d.index == |h.canon|)
  }

  ghost predicate PeersInv(s: Cluster, h: History) {
    forall x :: x in s.peers ==> PeerOk(x, s.peers[x], h)
  }

  ghost predicate NetInv(net: set<Msg>, h: History) {
    forall m :: m in net ==> MsgOk(m, h)
  }

  ghost predicate Inv(s: Cluster, h: History) {
    && BidsInv(s, h) && BallotsInv(s, h)
    && ReignsInv(h, s.peers.Keys) && ThronesInv(s, h)
    && AcksInv(s, h) && KeptInv(s, h) && EndorsedInv(h) && InheritedInv(h)
    && DecisionsInv(h, s.peers.Keys)
    && PeersInv(s, h) && NetInv(s.net, h)
  }

  // ---- Consequences -------------------------------------------------------------------------

  /** A prefix that a majority acknowledged is in the log of every later leader from the start. */
  lemma {:induction false} LeaderCompleteness(h: History, members: set<Id>, t: nat, i: nat, u: nat)
    requires ReignsInv(h, members) && InheritedInv(h)
    requires Chosen(h, members, t, i) && u in h.reigns && t < u
    ensures Same(h.reigns[t].log, h.reigns[u].base, i)
    decreases u
  {
    var q: set<Id> :| q <= members && 2 * |q| > |members| && AllAcked(h, q, t, i);
    assert ReignOk(u, h, members);
    var v := MajoritiesMeet(members, q, h.reigns[u].voters);
    assert AckOf(h, v, t) >= i;
    assert Inherited(u, v, t, i - 1, h);
    if !Same(h.reigns[t].log, h.reigns[u].base, i) {
      var w :| w in h.reigns && t < w <= u - 1 && !Same(h.reigns[t].log, h.reigns[w].base, i);
      LeaderCompleteness(h, members, t, i, w);
      assert false;
    }
  }

  /** A decision of term t is at the front of the log of every leader from t on. */
  lemma DecisionInReign(h: History, members: set<Id>, d: Decision, u: nat)
    requires ReignsInv(h, members) && InheritedInv(h)
    requires DecisionOk(d, h, members) && u in h.reigns && d.term <= u
    ensures Same(h.canon, h.reigns[u].log, d.index)
  {
    if d.term < u {
      LeaderCompleteness(h, members, d.term, d.index, u);
      assert ReignOk(u, h, members);
      SameThrough(h.canon, h.reigns[d.term].log, h.reigns[u].base, d.index);
      SameThrough(h.canon, h.reigns[u].base, h.reigns[u].log, d.index);
    }
  }

  /** Whatever was settled by term t is at the front of the log of every leader from t on. */
  lemma SettledInReign(h: History, members: set<Id>, c: nat, t: nat, u: nat)
    requires ReignsInv(h, members) && InheritedInv(h) && DecisionsInv(h, members)
    requires Settled(h, c, t) && u in h.reigns && t <= u
    ensures Same(h.canon, h.reigns[u].log, c)
  {
    if c > 0 {
      var d :| d in h.decisions && d.index >= c && d.term <= t;
      DecisionInReign(h, members, d, u);
    }
  }

  lemma SameThrough<T>(a: seq<T>, b: seq<T>, c: seq<T>, n: nat)
    requires Same(a, b, n) && n <= |c| && forall k :: 0 <= k < n ==> b[k] == c[k]
    ensures Same(a, c, n)
  {
  }

  /** Log matching: two logs that hold an entry of one index and term agree up to it. */
  lemma LogMatching(a: seq<Entry>, b: seq<Entry>, r: map<nat, Reign>, i: nat)
    requires Rooted(a, r) && Rooted(b, r)
    requires i < |a| && i < |b| && a[i].term == b[i].term
    ensures Same(a, b, i + 1)
  {
    assert RootedAt(a, i, r) && RootedAt(b, i, r);
  }
}
