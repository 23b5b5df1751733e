/**
 The protocol as its steps, on nodes that keep their whole log. Each step says what a node may do,
 not how: the handlers of RaftNode are shown to take only these steps (RaftRefinement).
 */
module RaftSpec {
  import opened RaftTypes

  /**
   peak is the largest value commit ever had. A request that ends below the commit index it announces
   would make commit fall; the protocol allows it, and the code's leaders do not send it.
   */
  datatype Peer = Peer(
    role: Role, term: nat, vote: Id, log: seq<Entry>, commit: nat, peak: nat,
    matched: map<Id, nat>, applied: seq<Entry>)

  datatype Cluster = Cluster(peers: map<Id, Peer>, net: set<Msg>)

  datatype Event =
    | Campaign(x: Id)
    | Vote(x: Id, ask: VoteRequest)
    | StepDown(x: Id, higher: nat)
    | Elect(x: Id, voters: set<Id>, cleared: map<Id, nat>)
    | Propose(x: Id, command: string)
    | Ship(x: Id, to: Id, prev: nat, last: nat)
    | Absorb(x: Id, req: AppendRequest, kept: nat, taken: nat, done: bool, log: seq<Entry>, replyTerm: nat)
    | Refuse(x: Id, req: AppendRequest, replyTerm: nat)
    | Decline(x: Id, reply: Msg)
    | Ack(x: Id, from: Id, req: AppendRequest)
    | Commit(x: Id, upTo: nat)
    | Deliver(x: Id)

  /** A fresh cluster: empty logs, no messages, and no node named by the empty string. */
  ghost predicate Init(s: Cluster) {
    && s.net == {}
    && "" !in s.peers
    && forall x :: x in s.peers ==> s.peers[x] == Peer(Follower, 0, "", [], 0, 0, map[], [])
  }

  /** The candidate's log ends in a later term, or in the same term and is no shorter. */
  predicate UpToDate(log: seq<Entry>, lastIndex: nat, lastTerm: nat) {
    if lastTerm != LastTerm(log) then lastTerm > LastTerm(log) else lastIndex >= |log|
  }

  function VoteOf(n: Peer, ask: VoteRequest): Id {
    if ask.term > n.term then "" else n.vote
  }

  predicate Grants(n: Peer, ask: VoteRequest) {
    (VoteOf(n, ask) == "" || VoteOf(n, ask) == ask.candidate) && UpToDate(n.log, ask.lastIndex, ask.lastTerm)
  }

  function AfterVote(n: Peer, ask: VoteRequest): Peer {
    n.(term := ask.term,
       role := if ask.term > n.term then Follower else n.role,
       vote := if Grants(n, ask) then ask.candidate else VoteOf(n, ask))
  }

  /** The follower that has taken note of a leader's request, before its entries. */
  function AfterHearing(n: Peer, req: AppendRequest): Peer {
    n.(role := Follower, term := req.term, vote := if req.term > n.term then "" else n.vote)
  }

  ghost predicate Matches(log: seq<Entry>, req: AppendRequest) {
    req.prevIndex > 0 ==> req.prevIndex <= |log| && log[req.prevIndex - 1].term == req.prevTerm
  }

  /**
   The log after the entries of a request: the first `kept` of them carry the terms already
   held, and unless the log stays as it is, everything beyond them makes way for the entries
   from `kept` up to `taken`.
   */
  ghost predicate Absorbs(log: seq<Entry>, req: AppendRequest, kept: nat, taken: nat, log': seq<Entry>) {
    && kept <= taken <= |req.entries|
    && req.prevIndex + kept <= |log|
    && (forall k :: 0 <= k < kept ==> req.entries[k].term == log[req.prevIndex + k].term)
    && (|| (kept == taken && log' == log)
        || ((req.prevIndex + kept == |log|
             || (kept < |req.entries| && log[req.prevIndex + kept].term != req.entries[kept].term))
            && log' == log[..req.prevIndex + kept] + req.entries[kept..taken]))
  }

  function CommitAfter(commit: nat, req: AppendRequest, done: bool): nat {
    if done && req.leaderCommit > commit
    then Min(req.leaderCommit, req.prevIndex + |req.entries|)
    else commit
  }

  function WithCommit(n: Peer, commit: nat): Peer {
    n.(commit := commit, peak := Max(n.peak, commit))
  }

  function AfterAbsorbing(n: Peer, req: AppendRequest, log': seq<Entry>, done: bool): Peer {
    WithCommit(AfterHearing(n, req).(log := log'), CommitAfter(n.commit, req, done))
  }

  /** A node counts itself and the peers whose log it knows to reach i. */
  ghost predicate Majority(n: Peer, x: Id, members: set<Id>, i: nat) {
    2 * |{x} + (set p | p in members && p != x && Lookup(n.matched, p) >= i)| > |members|
  }

  ghost predicate Voted(net: set<Msg>, x: Id, term: nat, v: Id) {
    exists req :: VoteReply(v, req, term, true) in net && req.candidate == x && req.term == term
  }

  function PrevTerm(log: seq<Entry>, prev: nat): nat
    requires prev <= |log|
  {
    if prev == 0 then 0 else log[prev - 1].term
  }

  ghost function Shipped(n: Peer, x: Id, prev: nat, last: nat): AppendRequest
    requires prev <= last <= |n.log|
  {
    AppendRequest(n.term, x, prev, PrevTerm(n.log, prev), n.log[prev..last], n.commit)
  }

  ghost function Asks(s: Cluster, x: Id, n: Peer): set<Msg> {
    set p | p in s.peers && p != x :: VoteAsk(p, VoteRequest(n.term, x, |n.log|, LastTerm(n.log)))
  }

  ghost predicate Step(s: Cluster, e: Event, s': Cluster) {
    match e
    case Campaign(x) =>
      && x in s.peers
      && var n := s.peers[x].(role := Candidate, term := s.peers[x].term + 1, vote := x);
      s' == Cluster(s.peers[x := n], s.net + Asks(s, x, n))
    case Vote(x, ask) =>
      && x in s.peers && VoteAsk(x, ask) in s.net && ask.term >= s.peers[x].term
      && s' == Cluster(s.peers[x := AfterVote(s.peers[x], ask)],
                       s.net + {VoteReply(x, ask, ask.term, Grants(s.peers[x], ask))})
    case StepDown(x, higher) =>
      && x in s.peers && higher > s.peers[x].term
      && s' == s.(peers := s.peers[x := s.peers[x].(term := higher, role := Follower, vote := "")])
    case Elect(x, voters, cleared) =>
      && x in s.peers && s.peers[x].role == Candidate
      && voters <= s.peers.Keys - {x} && 2 * |voters + {x}| > |s.peers.Keys|
      && (forall v :: v in voters ==> Voted(s.net, x, s.peers[x].term, v))
      && (forall p :: Lookup(cleared, p) == 0)
      && s' == s.(peers := s.peers[x := s.peers[x].(role := Leader, matched := cleared)])
    case Propose(x, command) =>
      && x in s.peers && s.peers[x].role == Leader
      && var n := s.peers[x];
      s' == s.(peers := s.peers[x := n.(log := n.log + [Entry(|n.log| + 1, n.term, command)])])
    case Ship(x, to, prev, last) =>
      && x in s.peers && s.peers[x].role == Leader && to in s.peers && to != x
      && prev <= last <= |s.peers[x].log|
      && s' == s.(net := s.net + {AppendAsk(to, Shipped(s.peers[x], x, prev, last))})
    case Absorb(x, req, kept, taken, done, log', replyTerm) =>
      && x in s.peers && AppendAsk(x, req) in s.net && req.term >= s.peers[x].term
      && var n := s.peers[x];
      && Matches(n.log, req)
      && Absorbs(n.log, req, kept, taken, log')
      && (done ==> taken == |req.entries|)
      && s' == Cluster(s.peers[x := AfterAbsorbing(n, req, log', done)], s.net + {AppendReply(x, req, replyTerm, done)})
    case Refuse(x, req, replyTerm) =>
      && x in s.peers && AppendAsk(x, req) in s.net && req.term >= s.peers[x].term
      && s' == Cluster(s.peers[x := AfterHearing(s.peers[x], req)],
                       s.net + {AppendReply(x, req, replyTerm, false)})
    case Decline(x, reply) =>
      && x in s.peers
      && (reply.VoteReply? ==> !reply.granted) && (reply.AppendReply? ==> !reply.success)
      && (reply.VoteReply? || reply.AppendReply?)
      && s' == s.(net := s.net + {reply})
    case Ack(x, from, req) =>
      && x in s.peers && (exists t :: AppendReply(from, req, t, true) in s.net)
      && s.peers[x].role == Leader && s.peers[x].term == req.term
      && s' == s.(peers := s.peers[x := s.peers[x].(
                    matched := s.peers[x].matched[from := req.prevIndex + |req.entries|])])
    case Commit(x, upTo) =>
      && x in s.peers && s.peers[x].role == Leader
      && var n := s.peers[x];
      && n.commit < upTo <= |n.log| && n.log[upTo - 1].term == n.term
      && Majority(n, x, s.peers.Keys, upTo)
      && s' == s.(peers := s.peers[x := WithCommit(n, upTo)])
    case Deliver(x) =>
      && x in s.peers
      && var n := s.peers[x];
      && |n.applied| < n.commit <= |n.log|
      && s' == s.(peers := s.peers[x := n.(applied := n.applied + [n.log[|n.applied|]])])
  }
}
