/**
 The cluster the source runs: its nodes, the messages ever sent, the compactions under way and
 what each node has handed to its state machine. Any enabled action may happen next.
 */
module RaftSystem {
  import opened RaftTypes
  import opened RaftNode

  /** A compaction whose first critical section has passed its checks. */
  datatype Ticket = Ticket(node: Id, index: nat, term: nat)

  datatype System = System(
    nodes: map<Id, Node>, net: set<Msg>, tickets: set<Ticket>, delivered: map<Id, seq<Entry>>)

  datatype Action =
    | Timeout(x: Id)
    | HandleVote(x: Id, ask: VoteRequest)
    | SeeVoteReply(x: Id, term: nat)
    | WinElection(x: Id, voters: set<Id>)
    | Submit(x: Id, command: string)
    | Recheck(x: Id)
    | SendAppend(x: Id, to: Id)
    | HandleAppend(x: Id, req: AppendRequest, ops: nat)
    | SeeAppendReply(x: Id, from: Id, req: AppendRequest, term: nat, success: bool)
    | Apply(x: Id)
    | CheckCompaction(x: Id, index: nat)
    | DropCompacted(x: Id, index: nat, term: nat)

  /** A node's peers are the other members, each listed once. */
  ghost predicate Configured(n: Node, x: Id, members: set<Id>) {
    && n.id == x
    && (set p | p in n.peers) == members - {x}
    && forall i, j :: 0 <= i < j < |n.peers| ==> n.peers[i] != n.peers[j]
  }

  ghost predicate Fresh(n: Node) {
    n == Node(n.id, n.peers, Follower, 0, "", "", [], 0, 0, 0, 0, 0, map[], map[])
  }

  ghost predicate Init(s: System) {
    && "" !in s.nodes && s.net == {} && s.tickets == {} && s.delivered.Keys == s.nodes.Keys
    && forall x :: x in s.nodes ==>
         Configured(s.nodes[x], x, s.nodes.Keys) && Fresh(s.nodes[x]) && s.delivered[x] == []
  }

  ghost function Set(s: System, x: Id, n: Node): System {
    s.(nodes := s.nodes[x := n])
  }

  ghost predicate Granted(net: set<Msg>, x: Id, term: nat, v: Id) {
    exists req :: VoteReply(v, req, term, true) in net && req.candidate == x && req.term == term
  }

  ghost predicate Next(s: System, a: Action, s': System) {
    a.x in s.nodes && a.x in s.delivered
    && var n := s.nodes[a.x];
    match a
    case Timeout(x) =>
      var n' := StartElection(n);
      s' == Set(s, x, n').(net := s.net + set p | p in n.peers :: VoteAsk(p, Ballot(n')))
    case HandleVote(x, ask) =>
      && VoteAsk(x, ask) in s.net
      && var r := OnVoteRequest(n, ask);
      s' == Set(s, x, r.node).(net := s.net + {VoteReply(x, ask, r.term, r.granted)})
    case SeeVoteReply(x, term) =>
      && (exists v, req, granted :: VoteReply(v, req, term, granted) in s.net && req.candidate == x)
      && s' == Set(s, x, SeeTerm(n, term))
    case WinElection(x, voters) =>
      && n.role == Candidate && voters <= (set p | p in n.peers) && 1 + |voters| >= VotesNeeded(n)
      && (forall v :: v in voters ==> Granted(s.net, x, n.term, v))
      && s' == Set(s, x, BecomeLeader(n))
    case Submit(x, command) =>
      n.role == Leader && s' == Set(s, x, Publish(n, command))
    case Recheck(x) =>
      n.role == Leader && s' == Set(s, x, UpdateCommit(n))
    case SendAppend(x, to) =>
      && to in n.peers && NextAppend(n, to).Some?
      && s' == s.(net := s.net + {AppendAsk(to, NextAppend(n, to).value)})
    case HandleAppend(x, req, ops) =>
      && AppendAsk(x, req) in s.net
      && var r := OnAppendRequest(n, req, ops);
      s' == Set(s, x, r.node).(net := s.net + {AppendReply(x, req, r.term, r.success)})
    case SeeAppendReply(x, from, req, term, success) =>
      && from in n.peers && AppendReply(from, req, term, success) in s.net && req.leader == x
      && s' == Set(s, x, OnAppendReply(n, from, req, term, success))
    case Apply(x) =>
      var (n', out) := ApplyNext(n);
      s' == Set(s, x, n').(delivered := if out.Some? then s.delivered[x := s.delivered[x] + [out.value]]
          else s.delivered)
    case CheckCompaction(x, index) =>
      && index <= n.lastApplied && CompactCheck(n, index).Some?
      && s' == s.(tickets := s.tickets + {Ticket(x, index, CompactCheck(n, index).value)})
    case DropCompacted(x, index, term) =>
      && Ticket(x, index, term) in s.tickets
      && s' == Set(s, x, CompactDrop(n, index, term))
  }

  /** A run: states and the actions between them. */
  ghost predicate Run(states: seq<System>, actions: seq<Action>) {
    && |states| == |actions| + 1 && Init(states[0])
    && forall i :: 0 <= i < |actions| ==> Next(states[i], actions[i], states[i + 1])
  }
}
