/**
 How a node learns of a later term and what it does then, and when a follower keeps a candidate from
 standing (internal/zero/raft/rpc_handlers.go, replication.go, election.go).
 */
module RaftTerms {
  import opened Options
  import opened RaftTypes
  import opened RaftNode
  import opened RaftSystem
  import RaftCompaction
  import RaftRefinement
  import RaftSafety
  import Spec = RaftSpec

  // ---- One exchange ------------------------------------------------------------------------------

  /** The node after it has seen a later term. */
  ghost function Deposed(n: Node, term: nat): Node {
    n.(term := term, role := Follower, votedFor := "")
  }

  /**
   A leader or candidate whose request is refused for its term learns the refuser's term from the answer,
   gives up its role and its vote, and nothing else of it changes.
   */
  lemma RefusalDeposes(n: Node, lead: Node, req: AppendRequest, ask: VoteRequest, ops: nat)
    ensures lead.term <= req.term < n.term ==>
              var r := OnAppendRequest(n, req, ops);
              r.node == n && !r.success && OnAppendReply(lead, n.id, req, r.term, r.success) == Deposed(lead, n.term)
    ensures lead.term <= ask.term < n.term ==>
              var r := OnVoteRequest(n, ask);
              r.node == n && !r.granted && SeeTerm(lead, r.term) == Deposed(lead, n.term)
  {
    hide AbsorbEntries, UpdateCommit;
  }

  /** The answer carries the term before the request, or after it when the request succeeds. */
  lemma AnswerTerms(n: Node, req: AppendRequest, ask: VoteRequest, ops: nat)
    ensures var r := OnAppendRequest(n, req, ops);
            r.node.term == Max(n.term, req.term) && r.term == if r.success then r.node.term else n.term
    ensures var r := OnVoteRequest(n, ask); r.node.term == r.term == Max(n.term, ask.term)
  {
    hide AbsorbEntries;
  }

  // ---- Runs --------------------------------------------------------------------------------------

  lemma StepTerms(s: System, a: Action, s': System, x: Id)
    requires Next(s, a, s') && x in s.nodes
    ensures x in s'.nodes && s.nodes[x].term <= s'.nodes[x].term
    ensures x != a.x ==> s'.nodes[x] == s.nodes[x]
  {
    hide OnVoteRequest, OnAppendRequest, ScanCommit, NextAppend;
    if a.HandleAppend? {
      AnswerTerms(s.nodes[a.x], a.req, VoteRequest(0, "", 0, 0), a.ops);
    } else if a.HandleVote? {
      AnswerTerms(s.nodes[a.x], AppendRequest(0, "", 0, 0, [], 0), a.ask, 0);
    }
  }

  /** In every run the term of a node never falls. */
  lemma {:induction false} TermNeverFalls(states: seq<System>, actions: seq<Action>, i: nat, j: nat, x: Id)
    requires Run(states, actions) && i <= j < |states| && x in states[i].nodes
    ensures x in states[j].nodes && states[i].nodes[x].term <= states[j].nodes[x].term
    decreases j - i
  {
    hide Next, Init;
    if i < j {
      TermNeverFalls(states, actions, i, j - 1, x);
      assert Next(states[j - 1], actions[j - 1], states[j]);
      StepTerms(states[j - 1], actions[j - 1], states[j], x);
    }
  }

  /** The step in which the node that sent a reply handled the request that it answers. */
  ghost predicate AnsweredBy(m: Msg, a: Action) {
    match m
    case VoteReply(from, ask, _, _) => a == HandleVote(from, ask)
    case AppendReply(from, req, _, _) => a.HandleAppend? && a.x == from && a.req == req
    case _ => false
  }

  ghost predicate AcceptedReply(m: Msg) {
    (m.VoteReply? && m.granted) || (m.AppendReply? && m.success)
  }

  ghost function AskedTerm(m: Msg): nat
    requires m.VoteReply? || m.AppendReply?
  {
    if m.VoteReply? then m.vote.term else m.append.term
  }

  lemma NewReply(s: System, a: Action, s': System, m: Msg)
    requires Next(s, a, s') && (m.VoteReply? || m.AppendReply?) && m in s'.net && m !in s.net
    ensures AnsweredBy(m, a) && m.from in s.nodes && m.from in s'.nodes
    ensures s.nodes[m.from].term <= m.term <= s'.nodes[m.from].term == Max(s.nodes[m.from].term, AskedTerm(m))
    ensures AskedTerm(m) < s.nodes[m.from].term ==> !AcceptedReply(m)
  {
    hide OnVoteRequest, OnAppendRequest, OnAppendReply, UpdateCommit, CompactDrop, NextAppend;
    var n := s.nodes[a.x];
    if a.HandleAppend? {
      AnswerTerms(n, a.req, VoteRequest(0, "", 0, 0), a.ops);
      RefusalDeposes(n, n.(term := 0), a.req, VoteRequest(0, "", 0, 0), a.ops);
    } else if a.HandleVote? {
      AnswerTerms(n, AppendRequest(0, "", 0, 0, [], 0), a.ask, 0);
      RefusalDeposes(n, n.(term := 0), AppendRequest(0, "", 0, 0, [], 0), a.ask, 0);
    }
  }

  /**
   Every reply in the net was sent by a node when it handled the request, and carries a term that node had
   then. One of a node that was in a later term than the request carries that term, and is a refusal.
   */
  lemma {:induction false} RepliesCarryTerms(states: seq<System>, actions: seq<Action>, i: nat, m: Msg) returns (k: nat)
    requires Run(states, actions) && i < |states| && m in states[i].net && (m.VoteReply? || m.AppendReply?)
    ensures k < i && AnsweredBy(m, actions[k]) && m.from in states[k].nodes && m.from in states[k + 1].nodes
    ensures var had, has := states[k].nodes[m.from].term, states[k + 1].nodes[m.from].term;
            && had <= m.term <= has == Max(had, AskedTerm(m))
            && (AskedTerm(m) < had ==> m.term == had && !AcceptedReply(m))
    decreases i
  {
    hide Next;
    if i == 0 {
      assert false;
    } else {
      assert Next(states[i - 1], actions[i - 1], states[i]);
      if m in states[i - 1].net {
        k := RepliesCarryTerms(states, actions, i - 1, m);
      } else {
        NewReply(states[i - 1], actions[i - 1], states[i], m);
        k := i - 1;
      }
    }
  }

  /**
   Whatever reply a node sees, its term is then the later of its own and the reply's. If it rose, the node
   is a follower without a vote and is otherwise as it was; if not, role, vote and log stay, and anything
   moves only in the leader of that term, by an answer to the request that it would send next.
   */
  lemma SeenReply(states: seq<System>, actions: seq<Action>, i: nat)
    requires Run(states, actions) && i < |actions| && (actions[i].SeeAppendReply? || actions[i].SeeVoteReply?)
    ensures var a := actions[i];
            && a.x in states[i].nodes && a.x in states[i + 1].nodes
            && var n, n' := states[i].nodes[a.x], states[i + 1].nodes[a.x];
               && n'.term == Max(n.term, a.term)
               && (a.term > n.term ==> n' == Deposed(n, a.term))
               && (a.term <= n.term ==> n' == n.(nextIndex := n'.nextIndex, matchIndex := n'.matchIndex,
                                                 commit := n'.commit))
               && (a.SeeVoteReply? && a.term <= n.term ==> n' == n)
               && (a.SeeAppendReply? && a.term <= n.term && n' != n ==>
                     n.role == Leader && n.term == a.req.term && Lookup(n.nextIndex, a.from) == a.req.prevIndex + 1)
  {
    assert Next(states[i], actions[i], states[i + 1]);
    hide ScanCommit;
  }

  /**
   A leader that sees the answer of a node which refused its request for its term leads that term no
   longer, nor any before the refuser's, for the rest of the run.
   */
  lemma RefusedLeaderYields(states: seq<System>, actions: seq<Action>, i: nat, l: nat) returns (k: nat)
    requires Run(states, actions) && i < l < |states| && actions[i].SeeAppendReply?
    ensures var a := actions[i];
            && k < i && a.from in states[k].nodes && a.x in states[l].nodes
            && AnsweredBy(AppendReply(a.from, a.req, a.term, a.success), actions[k])
            && (a.req.term < states[k].nodes[a.from].term ==>
                  a.req.term < states[k].nodes[a.from].term <= states[l].nodes[a.x].term)
  {
    hide Next, Init;
    var a := actions[i];
    SeesSent(states, actions, i);
    k := RepliesCarryTerms(states, actions, i, AppendReply(a.from, a.req, a.term, a.success));
    SeenReply(states, actions, i);
    TermNeverFalls(states, actions, i + 1, l, a.x);
  }

  lemma SeesSent(states: seq<System>, actions: seq<Action>, i: nat)
    requires Run(states, actions) && i < |actions| && actions[i].SeeAppendReply?
    ensures var a := actions[i]; AppendReply(a.from, a.req, a.term, a.success) in states[i].net
  {
    assert Next(states[i], actions[i], states[i + 1]);
    hide OnAppendReply;
  }

  // ---- Votes and pre-votes ------------------------------------------------------------------------

  /**
   A vote is granted exactly for a term that is not past, to a candidate that the node has not passed over
   in that term, with a log at least as up to date as the node's whole log.
   */
  lemma VoteIff(n: Node, d: seq<Entry>, req: VoteRequest)
    requires RaftCompaction.Linked(n, d)
    ensures OnVoteRequest(n, req).granted <==>
            && req.term >= n.term && (req.term > n.term || n.votedFor in {"", req.candidate})
            && Spec.UpToDate(d + n.log, req.lastIndex, req.lastTerm)
  {
    RaftCompaction.LogView(n, d);
  }

  /**
   A pre-vote is granted exactly for a term that is not past, when no leader was heard of within the
   election timeout, to a candidate whose log is at least as up to date as the node's whole log.
   */
  lemma PreVoteIff(n: Node, d: seq<Entry>, req: VoteRequest, recent: bool)
    requires RaftCompaction.Linked(n, d)
    ensures GrantsPreVote(n, req, recent) <==>
            && req.term >= n.term && (n.leaderId == "" || !recent)
            && Spec.UpToDate(d + n.log, req.lastIndex, req.lastTerm)
  {
    RaftCompaction.LogView(n, d);
  }

  /** A follower that has just taken a leader's request helps no one to stand against it, whatever is asked. */
  lemma HeardLeaderShields(n: Node, req: AppendRequest, ops: nat, ask: VoteRequest)
    requires req.term >= n.term && req.leader != ""
    ensures OnAppendRequest(n, req, ops).node.leaderId == req.leader
    ensures !GrantsPreVote(OnAppendRequest(n, req, ops).node, ask, true)
  {
    hide AbsorbEntries;
  }

  lemma OwnId(states: seq<System>, actions: seq<Action>, i: nat, x: Id)
    requires Run(states, actions) && i < |states| && x in states[i].nodes
    ensures states[i].nodes[x].id == x
  {
    hide Next, RaftRefinement.Good;
    var h := RaftSafety.HistoryAt(states, actions, i);
    RaftRefinement.KnownPeer(states[i], RaftSafety.PastAt(states, actions, i), h, x);
  }

  /** A request in the net was sent by a node that led its term then. */
  lemma {:induction false} RequestFromLeader(states: seq<System>, actions: seq<Action>, i: nat, to: Id,
        req: AppendRequest)
    returns (k: nat)
    requires Run(states, actions) && i < |states| && AppendAsk(to, req) in states[i].net
    ensures k < i && req.leader in states[k].nodes && states[k].nodes[req.leader].role == Leader
            && states[k].nodes[req.leader].term == req.term
    decreases i
  {
    hide Next;
    if i == 0 {
      assert false;
    } else if AppendAsk(to, req) in states[i - 1].net {
      k := RequestFromLeader(states, actions, i - 1, to, req);
    } else {
      k := i - 1;
      assert Next(states[k], actions[k], states[i]);
      RaftSafety.NewRequest(states[k], actions[k], states[i], to, req);
      OwnId(states, actions, k, actions[k].x);
    }
  }

  lemma LeaderNamed(s: System, a: Action, s': System, x: Id)
    requires Next(s, a, s') && x in s.nodes && x in s'.nodes && s'.nodes[x].leaderId != s.nodes[x].leaderId
    ensures || (a.WinElection? && a.x == x && s'.nodes[x].leaderId == s.nodes[x].id && s'.nodes[x].role == Leader)
            || (&& a.HandleAppend? && a.x == x && AppendAsk(x, a.req) in s.net
                && s'.nodes[x].leaderId == a.req.leader && s'.nodes[x].term == a.req.term)
  {
    hide AbsorbEntries, ScanCommit, NextAppend;
  }

  lemma LeadsByItself(s: System, a: Action, s': System, x: Id)
    requires Next(s, a, s') && x in s.nodes && x in s'.nodes && s'.nodes[x].role == Leader
    ensures s'.nodes[x].id == s.nodes[x].id
    ensures s'.nodes[x].leaderId == s.nodes[x].id
            || (s.nodes[x].role == Leader && s'.nodes[x].leaderId == s.nodes[x].leaderId)
  {
    hide AbsorbEntries, ScanCommit, NextAppend;
  }

  /** In every run a leader takes itself for the leader. */
  lemma {:induction false} LeaderKnowsItself(states: seq<System>, actions: seq<Action>, i: nat, x: Id)
    requires Run(states, actions) && i < |states| && x in states[i].nodes && states[i].nodes[x].role == Leader
    ensures states[i].nodes[x].leaderId == x
    decreases i
  {
    hide Next;
    if i > 0 {
      var s, a, s' := states[i - 1], actions[i - 1], states[i];
      assert Next(s, a, s');
      RaftSafety.SameNodes(s, a, s');
      LeadsByItself(s, a, s', x);
      OwnId(states, actions, i - 1, x);
      if s.nodes[x].role == Leader { LeaderKnowsItself(states, actions, i - 1, x); }
    }
  }

  /** Whom a node takes for the leader has led a term, and no later one than the node is in. */
  lemma {:induction false} KnownLeaderLed(states: seq<System>, actions: seq<Action>, i: nat, x: Id) returns (k: nat)
    requires Run(states, actions) && i < |states| && x in states[i].nodes && states[i].nodes[x].leaderId != ""
    ensures var y := states[i].nodes[x].leaderId;
            && k <= i && y in states[k].nodes && states[k].nodes[y].role == Leader
            && states[k].nodes[y].term <= states[i].nodes[x].term
    decreases i
  {
    hide Next;
    if i == 0 {
      assert false;
    } else {
      var s, a, s' := states[i - 1], actions[i - 1], states[i];
      assert Next(s, a, s');
      RaftSafety.SameNodes(s, a, s');
      StepTerms(s, a, s', x);
      if s'.nodes[x].leaderId == s.nodes[x].leaderId {
        k := KnownLeaderLed(states, actions, i - 1, x);
      } else {
        LeaderNamed(s, a, s', x);
        OwnId(states, actions, i - 1, x);
        if a.WinElection? {
          k := i;
        } else {
          k := RequestFromLeader(states, actions, i - 1, x, a.req);
        }
      }
    }
  }

  /**
   While a majority has recently heard of a leader, no candidate outside that majority is granted enough
   pre-votes to stand.
   */
  lemma HealthyLeaderStays(nodes: map<Id, Node>, recent: map<Id, bool>, loyal: set<Id>, asks: map<Id, VoteRequest>,
        granters: set<Id>, x: Id)
    requires x in nodes && Configured(nodes[x], x, nodes.Keys) && x !in loyal && granters <= nodes.Keys - {x}
    requires nodes.Keys <= recent.Keys && nodes.Keys <= asks.Keys
    requires loyal <= nodes.Keys && 2 * |loyal| > |nodes.Keys|
    requires forall y :: y in loyal ==> recent[y] && nodes[y].leaderId != ""
    requires forall y :: y in granters ==> GrantsPreVote(nodes[y], asks[y], recent[y])
    ensures 1 + |granters| < VotesNeeded(nodes[x])
  {
    hide IsLogUpToDate;
    if 1 + |granters| >= VotesNeeded(nodes[x]) {
      RaftRefinement.PeersCount(nodes[x], x, nodes.Keys);
      assert |granters + {x}| == 1 + |granters|;
      var y := MajoritiesMeet(nodes.Keys, loyal, granters + {x});
      assert false;
    }
  }
}
