/** Ways to continue a run of the cluster: an election, a submission, a follower brought up to date. */
module RaftTrails {
  import opened Options
  import opened RaftTypes
  import opened RaftNode
  import opened RaftSystem
  import opened RaftRefinement
  import opened LogFilter

  datatype Trail = Trail(states: seq<System>, actions: seq<Action>)

  ghost predicate Walked(t: Trail) {
    Run(t.states, t.actions)
  }

  ghost function End(t: Trail): System
    requires Walked(t)
  {
    t.states[|t.states| - 1]
  }

  /** No submission has come to its second half. */
  ghost predicate NoScanYet(t: Trail) {
    forall a :: a in t.actions ==> !a.Recheck?
  }

  /** u goes on where t ends. */
  ghost predicate Continues(t: Trail, u: Trail) {
    && Walked(t) && Walked(u) && t.states <= u.states && t.actions <= u.actions && (NoScanYet(t) ==> NoScanYet(u))
    && End(t).net <= End(u).net && End(t).nodes.Keys == End(u).nodes.Keys
  }

  /** From t to u only these nodes take steps, and nothing is submitted, taken from a leader or compacted. */
  ghost predicate Calm(t: Trail, u: Trail, q: set<Id>) {
    forall k :: |t.actions| <= k < |u.actions| ==> u.actions[k].x in q && CalmAction(u.actions[k])
  }

  predicate CalmAction(a: Action) {
    !a.Submit? && !a.HandleAppend? && !a.DropCompacted?
  }

  lemma CalmTwice(t: Trail, w: Trail, u: Trail, q: set<Id>, r: set<Id>, all: set<Id>)
    requires w.actions <= u.actions && Calm(t, w, q) && Calm(w, u, r) && q <= all && r <= all
    ensures Calm(t, u, all)
  {
    hide CalmAction;
    assert forall k :: |t.actions| <= k < |w.actions| ==> u.actions[k] == w.actions[k];
  }

  lemma CalmWider(t: Trail, u: Trail, q: set<Id>, all: set<Id>)
    requires Calm(t, u, q) && q <= all
    ensures Calm(t, u, all)
  {
  }

  lemma CalmStep(t: Trail, u: Trail, a: Action)
    requires u.actions == t.actions + [a] && CalmAction(a)
    ensures Calm(t, u, {a.x})
  {
  }

  lemma Begin(s: System) returns (t: Trail)
    requires Init(s)
    ensures t == Trail([s], []) && Walked(t) && End(t) == s
  {
    t := Trail([s], []);
  }

  lemma Take(t: Trail, a: Action, s': System) returns (u: Trail)
    requires Walked(t) && Next(End(t), a, s') && !a.Recheck?
    ensures Continues(t, u) && End(u) == s' && u.actions == t.actions + [a] && u.states == t.states + [s']
  {
    hide Next, Init;
    u := Trail(t.states + [s'], t.actions + [a]);
    forall i | 0 <= i < |u.actions| ensures Next(u.states[i], u.actions[i], u.states[i + 1]) {
      if i < |t.actions| { assert Next(t.states[i], t.actions[i], t.states[i + 1]); }
    }
    StepsGrow(End(t), a, s');
  }

  lemma StepsGrow(s: System, a: Action, s': System)
    requires Next(s, a, s')
    ensures s.net <= s'.net && s'.nodes.Keys == s.nodes.Keys
  {
    hide OnVoteRequest, OnAppendRequest, OnAppendReply, UpdateCommit, CompactDrop, NextAppend;
  }

  // ---- Elections -------------------------------------------------------------------------------

  function Standing(n: Node, term: nat): Node {
    n.(term := term, role := Candidate, votedFor := n.id)
  }

  lemma {:induction false} Stand(t: Trail, x: Id, term: nat) returns (u: Trail)
    requires Walked(t) && x in End(t).nodes && x in End(t).delivered && End(t).nodes[x].term < term
    ensures Continues(t, u) && End(u) == Set(End(t), x, Standing(End(t).nodes[x], term)).(net := End(u).net)
    ensures forall p :: p in End(t).nodes[x].peers ==> VoteAsk(p, Ballot(End(u).nodes[x])) in End(u).net
    ensures Calm(t, u, {x})
    decreases term - End(t).nodes[x].term
  {
    hide Calm;
    var n, w := End(t).nodes[x], t;
    if n.term + 1 < term {
      w := Stand(t, x, term - 1);
      n := End(w).nodes[x];
    }
    var n' := StartElection(n);
    var s' := Set(End(w), x, n').(net := End(w).net + set p | p in n.peers :: VoteAsk(p, Ballot(n')));
    u := Take(w, Timeout(x), s');
    CalmStep(w, u, Timeout(x));
    if w != t { CalmTwice(t, w, u, {x}, {x}, {x}); }
  }

  function Voter(n: Node, term: nat, x: Id): Node {
    n.(term := term, role := Follower, votedFor := x)
  }

  lemma Grant(t: Trail, x: Id, v: Id) returns (u: Trail)
    requires Walked(t) && x in End(t).nodes && v in End(t).nodes && v in End(t).delivered
    requires var ask := Ballot(End(t).nodes[x]);
             && ask.candidate == x && VoteAsk(v, ask) in End(t).net && End(t).nodes[v].term < ask.term
             && IsLogUpToDate(End(t).nodes[v], ask.lastIndex, ask.lastTerm)
    ensures Continues(t, u)
    ensures End(u) == Set(End(t), v, Voter(End(t).nodes[v], End(t).nodes[x].term, x)).(net := End(u).net)
    ensures Granted(End(u).net, x, End(t).nodes[x].term, v) && Calm(t, u, {v})
  {
    var ask := Ballot(End(t).nodes[x]);
    var r := OnVoteRequest(End(t).nodes[v], ask);
    var s' := Set(End(t), v, r.node).(net := End(t).net + {VoteReply(v, ask, r.term, r.granted)});
    u := Take(t, HandleVote(v, ask), s');
    assert VoteReply(v, ask, ask.term, true) in End(u).net;
  }

  /** The nodes after x has won the given term with the votes of these voters. */
  ghost function Elected(nodes: map<Id, Node>, x: Id, term: nat, voters: set<Id>): map<Id, Node>
    requires x in nodes
  {
    map y | y in nodes ::
      if y == x then BecomeLeader(Standing(nodes[x], term))
      else if y in voters then Voter(nodes[y], term, x)
      else nodes[y]
  }

  /** x can ask v for its vote in this term and get it. */
  ghost predicate Votes(nodes: map<Id, Node>, x: Id, term: nat, v: Id)
    requires x in nodes
  {
    && v in nodes && v != x && v in nodes[x].peers && nodes[v].term < term
    && IsLogUpToDate(nodes[v], LastIndexTerm(nodes[x]).0, LastIndexTerm(nodes[x]).1)
  }

  ghost function Polled(nodes: map<Id, Node>, x: Id, term: nat, voters: set<Id>): map<Id, Node>
    requires x in nodes
  {
    map y | y in nodes ::
      if y == x then Standing(nodes[x], term) else if y in voters then Voter(nodes[y], term, x) else nodes[y]
  }

  lemma PolledOne(nodes: map<Id, Node>, x: Id, term: nat, voters: set<Id>, v: Id)
    requires x in nodes && v in voters && Votes(nodes, x, term, v)
    ensures var before := Polled(nodes, x, term, voters - {v});
            && x in before && v in before && before[x] == Standing(nodes[x], term) && before[v] == nodes[v]
            && Polled(nodes, x, term, voters) == before[v := Voter(nodes[v], term, x)]
            && before.Keys == nodes.Keys
  {
    hide IsLogUpToDate;
  }

  lemma VotesMean(nodes: map<Id, Node>, x: Id, term: nat, v: Id)
    requires x in nodes && Votes(nodes, x, term, v)
    ensures v in nodes && v in nodes[x].peers && nodes[v].term < term
    ensures var ask := Ballot(Standing(nodes[x], term));
            ask.term == term && ask.candidate == nodes[x].id && IsLogUpToDate(nodes[v], ask.lastIndex, ask.lastTerm)
  {
    hide IsLogUpToDate;
  }

  lemma {:induction false} Poll(t: Trail, x: Id, term: nat, voters: set<Id>) returns (u: Trail)
    requires Walked(t) && x in End(t).nodes && End(t).nodes.Keys == End(t).delivered.Keys
    requires End(t).nodes[x].id == x && End(t).nodes[x].term < term
    requires forall v :: v in voters ==> Votes(End(t).nodes, x, term, v)
    ensures Continues(t, u) && End(u) == End(t).(nodes := Polled(End(t).nodes, x, term, voters), net := End(u).net)
    ensures x in End(u).nodes
    ensures forall p :: p in End(t).nodes[x].peers ==> VoteAsk(p, Ballot(End(u).nodes[x])) in End(u).net
    ensures Calm(t, u, voters + {x}) && forall v :: v in voters ==> Granted(End(u).net, x, term, v)
    decreases |voters|
  {
    hide Run, IsLogUpToDate, Calm, Votes, Polled, Ballot, Granted, NoScanYet;
    var nodes := End(t).nodes;
    if voters == {} {
      u := Stand(t, x, term);
      PolledNone(nodes, x, term);
      CalmWider(t, u, {x}, voters + {x});
    } else {
      var v :| v in voters;
      var w := Poll(t, x, term, voters - {v});
      PolledOne(nodes, x, term, voters, v);
      VotesMean(nodes, x, term, v);
      u := Grant(w, x, v);
      GrantsLast(End(w).net, End(u).net, x, term);
      CalmTwice(t, w, u, voters - {v} + {x}, {v}, voters + {x});
    }
  }

  lemma PolledNone(nodes: map<Id, Node>, x: Id, term: nat)
    requires x in nodes
    ensures Polled(nodes, x, term, {}) == nodes[x := Standing(nodes[x], term)]
  {
  }

  lemma GrantsLast(net: set<Msg>, net': set<Msg>, x: Id, term: nat)
    requires net <= net'
    ensures forall v :: Granted(net, x, term, v) ==> Granted(net', x, term, v)
  {
  }

  /** The members that voted are peers of x, and winning turns the polled nodes into the elected ones. */
  lemma PolledWins(nodes: map<Id, Node>, x: Id, term: nat, voters: set<Id>)
    requires x in nodes && forall v :: v in voters ==> Votes(nodes, x, term, v)
    ensures var polled := Polled(nodes, x, term, voters);
            && x in polled && polled[x] == Standing(nodes[x], term)
            && voters <= (set p | p in nodes[x].peers)
            && Elected(nodes, x, term, voters) == polled[x := BecomeLeader(polled[x])]
  {
    hide IsLogUpToDate, BecomeLeader;
  }

  /** From any moment of any run, a node that enough others would vote for can become leader of a later term. */
  lemma Elect(t: Trail, x: Id, term: nat, voters: set<Id>) returns (u: Trail)
    requires Walked(t) && x in End(t).nodes && End(t).nodes.Keys == End(t).delivered.Keys
    requires End(t).nodes[x].id == x && End(t).nodes[x].term < term && 1 + |voters| >= VotesNeeded(End(t).nodes[x])
    requires forall v :: v in voters ==> Votes(End(t).nodes, x, term, v)
    ensures Continues(t, u) && End(u) == End(t).(nodes := Elected(End(t).nodes, x, term, voters), net := End(u).net)
    ensures Calm(t, u, voters + {x})
  {
    hide Run, IsLogUpToDate, SetAll, Calm, Votes, Polled, Elected, Ballot, Granted, BecomeLeader, NoScanYet;
    var w := Poll(t, x, term, voters);
    PolledWins(End(t).nodes, x, term, voters);
    var s := End(w);
    u := Take(w, WinElection(x, voters), Set(s, x, BecomeLeader(s.nodes[x])));
    CalmStep(w, u, WinElection(x, voters));
    CalmTwice(t, w, u, voters + {x}, {x}, voters + {x});
  }

  lemma SubmitAt(t: Trail, x: Id, command: string) returns (u: Trail)
    requires Walked(t) && x in End(t).nodes && x in End(t).delivered && End(t).nodes[x].role == Leader
    ensures Continues(t, u) && End(u) == Set(End(t), x, Publish(End(t).nodes[x], command))
    ensures u.actions == t.actions + [Submit(x, command)]
  {
    u := Take(t, Submit(x, command), Set(End(t), x, Publish(End(t).nodes[x], command)));
  }

  // ---- Replication ------------------------------------------------------------------------------

  /** A leader sends, the follower handles with so many writes to spare, the leader sees the reply. */
  lemma Exchange(t: Trail, x: Id, y: Id, ops: nat) returns (u: Trail)
    requires Walked(t) && x in End(t).nodes && y in End(t).nodes && End(t).nodes.Keys == End(t).delivered.Keys && x != y
    requires End(t).nodes[x].id == x && y in End(t).nodes[x].peers && NextAppend(End(t).nodes[x], y).Some?
    ensures Continues(t, u)
    ensures var nx, ny := End(t).nodes[x], End(t).nodes[y];
            var req := NextAppend(nx, y).value;
            var r := OnAppendRequest(ny, req, ops);
            && End(u) == End(t).(net := End(u).net,
                                 nodes := End(t).nodes[y := r.node][x := OnAppendReply(nx, y, req, r.term, r.success)])
            && u.actions == t.actions
               + [SendAppend(x, y), HandleAppend(y, req, ops), SeeAppendReply(x, y, req, r.term, r.success)]
            && u.states[|t.states|].nodes == End(t).nodes
  {
    hide Run, OnAppendRequest, OnAppendReply;
    var nx, ny := End(t).nodes[x], End(t).nodes[y];
    var req := NextAppend(nx, y).value;
    var t1 := Take(t, SendAppend(x, y), End(t).(net := End(t).net + {AppendAsk(y, req)}));
    var r := OnAppendRequest(ny, req, ops);
    hide NextAppend;
    var t2 := Take(t1, HandleAppend(y, req, ops),
        Set(End(t1), y, r.node).(net := End(t1).net + {AppendReply(y, req, r.term, r.success)}));
    u := Take(t2, SeeAppendReply(x, y, req, r.term, r.success),
        Set(End(t2), x, OnAppendReply(nx, y, req, r.term, r.success)));
    assert t1.states <= u.states && t1.states[|t.states|] == u.states[|t.states|];
  }

  /** The follower that holds the leader's log, and the leader that knows it. */
  function Followed(ny: Node, nx: Node): Node {
    ny.(term := nx.term, votedFor := if nx.term > ny.term then "" else ny.votedFor, role := Follower,
        leaderId := nx.id, log := nx.log)
  }

  function Acked(nx: Node, y: Id): Node {
    UpdateCommit(nx.(nextIndex := nx.nextIndex[y := |nx.log| + 1], matchIndex := nx.matchIndex[y := |nx.log|]))
  }

  predicate Uncompacted(n: Node) {
    n.offset == 0 && n.snapIndex == 0 && n.snapTerm == 0
  }

  predicate CanFollow(nx: Node, ny: Node, y: Id) {
    && Uncompacted(nx) && Uncompacted(ny) && nx.role == Leader && ny.term <= nx.term && nx.commit <= ny.commit
    && 1 <= Lookup(nx.nextIndex, y) <= |nx.log| + 1
  }

  /** Nothing the two logs hold at one index has the same term. */
  predicate Apart(a: seq<Entry>, b: seq<Entry>) {
    forall i :: 0 <= i < |a| && i < |b| ==> a[i].term != b[i].term
  }

  lemma {:induction false} AbsorbAll(log: seq<Entry>, entries: seq<Entry>, ops: nat)
    requires ops >= |entries|
    ensures AbsorbEntries(log, 0, |log| + 1, entries, ops) == Absorbed(log + entries, true)
    decreases |entries|
  {
    if entries != [] {
      AbsorbAll(log + [entries[0]], entries[1..], ops - 1);
      assert log + [entries[0]] + entries[1..] == log + entries;
    } else {
      assert log + entries == log;
    }
  }

  lemma AbsorbOver(log: seq<Entry>, entries: seq<Entry>, ops: nat)
    requires Apart(log, entries) && (entries != [] || log == []) && ops >= |entries| + 1
    ensures AbsorbEntries(log, 0, 1, entries, ops) == Absorbed(entries, true)
  {
    if log == [] {
      AbsorbAll(log, entries, ops);
      assert [] + entries == entries;
    } else {
      assert TruncateSliceAfter(log, 0, 0) + [entries[0]] == [entries[0]];
      AbsorbAll([entries[0]], entries[1..], ops - 2);
      assert [entries[0]] + entries[1..] == entries;
    }
  }

  function PrevTermOf(log: seq<Entry>, prev: nat): nat {
    if 0 < prev <= |log| then log[prev - 1].term else 0
  }

  lemma RequestIs(nx: Node, y: Id)
    requires Uncompacted(nx) && nx.role == Leader && 1 <= Lookup(nx.nextIndex, y) <= |nx.log| + 1
    ensures var prev := Lookup(nx.nextIndex, y) - 1;
            NextAppend(nx, y) ==
            Some(AppendRequest(nx.term, nx.id, prev, PrevTermOf(nx.log, prev), nx.log[prev..], nx.commit))
  {
    var prev := Lookup(nx.nextIndex, y) - 1;
    assert prev == |nx.log| ==> nx.log[prev..] == [];
    assert prev > 0 ==> TermAt(nx, prev) == Some(nx.log[prev - 1].term);
  }

  lemma AbsorbedIs(ny: Node, nx: Node, prev: nat, ops: nat)
    requires ops >= |nx.log| + 1 && prev <= |nx.log|
    requires || (prev == 0 && Apart(ny.log, nx.log) && (nx.log != [] || ny.log == []))
             || (prev == |ny.log| && ny.log <= nx.log)
    ensures AbsorbEntries(ny.log, 0, prev + 1, nx.log[prev..], ops) == Absorbed(nx.log, true)
  {
    if prev == |ny.log| && ny.log <= nx.log {
      AbsorbAll(ny.log, nx.log[prev..], ops);
      assert ny.log + nx.log[prev..] == nx.log;
    } else {
      AbsorbOver(ny.log, nx.log, ops);
      assert nx.log[0..] == nx.log;
    }
  }

  /** A follower whose log ends where the leader's next request to it starts takes the rest. */
  lemma Accepts(nx: Node, ny: Node, y: Id, ops: nat)
    requires CanFollow(nx, ny, y) && ops >= |nx.log| + 1
    requires var prev := Lookup(nx.nextIndex, y) - 1;
             || (prev == 0 && Apart(ny.log, nx.log) && (nx.log != [] || ny.log == []))
             || (prev == |ny.log| && ny.log <= nx.log)
    ensures NextAppend(nx, y).Some?
    ensures var req := NextAppend(nx, y).value;
            var r := OnAppendRequest(ny, req, ops);
            r.node == Followed(ny, nx) && OnAppendReply(nx, y, req, r.term, r.success) == Acked(nx, y)
  {
    hide UpdateCommit, AbsorbEntries, NextAppend, Apart;
    var prev := Lookup(nx.nextIndex, y) - 1;
    RequestIs(nx, y);
    AbsorbedIs(ny, nx, prev, ops);
    assert prev > 0 ==> TermAt(Hear(ny, NextAppend(nx, y).value), prev) == Some(PrevTermOf(nx.log, prev));
  }

  /** A request that starts behind an entry which the follower does not have is refused. */
  lemma Refuses(nx: Node, ny: Node, y: Id, ops: nat)
    requires CanFollow(nx, ny, y) && Apart(ny.log, nx.log) && Lookup(nx.nextIndex, y) > 1
    ensures NextAppend(nx, y).Some?
    ensures var req := NextAppend(nx, y).value;
            var r := OnAppendRequest(ny, req, ops);
            && r.node == Followed(ny, nx).(log := ny.log)
            && OnAppendReply(nx, y, req, r.term, r.success) ==
               nx.(nextIndex := nx.nextIndex[y := Lookup(nx.nextIndex, y) - 1])
  {
    RequestIs(nx, y);
    hide AbsorbEntries, UpdateCommit, NextAppend;
  }

  lemma Continue(t: Trail, x: Id, y: Id) returns (u: Trail)
    requires Walked(t) && x in End(t).nodes && y in End(t).nodes && End(t).nodes.Keys == End(t).delivered.Keys && x != y
    requires End(t).nodes[x].id == x && y in End(t).nodes[x].peers && CanFollow(End(t).nodes[x], End(t).nodes[y], y)
    requires Lookup(End(t).nodes[x].nextIndex, y) == |End(t).nodes[y].log| + 1
             && End(t).nodes[y].log <= End(t).nodes[x].log
    ensures Continues(t, u)
    ensures var nx, ny := End(t).nodes[x], End(t).nodes[y];
            End(u) == End(t).(net := End(u).net, nodes := End(t).nodes[y := Followed(ny, nx)][x := Acked(nx, y)])
  {
    hide Run, NextAppend, OnAppendRequest, OnAppendReply, Acked, Followed;
    var nx := End(t).nodes[x];
    Accepts(nx, End(t).nodes[y], y, |nx.log| + 1);
    u := Exchange(t, x, y, |nx.log| + 1);
  }

  /** Requests further and further back, until one starts at the beginning. */
  lemma {:induction false} Overwrite(t: Trail, x: Id, y: Id) returns (u: Trail)
    requires Walked(t) && x in End(t).nodes && y in End(t).nodes && End(t).nodes.Keys == End(t).delivered.Keys && x != y
    requires End(t).nodes[x].id == x && y in End(t).nodes[x].peers && CanFollow(End(t).nodes[x], End(t).nodes[y], y)
    requires Apart(End(t).nodes[y].log, End(t).nodes[x].log) && End(t).nodes[x].log != []
    ensures Continues(t, u)
    ensures var nx, ny := End(t).nodes[x], End(t).nodes[y];
            End(u) == End(t).(net := End(u).net, nodes := End(t).nodes[y := Followed(ny, nx)][x := Acked(nx, y)])
    decreases Lookup(End(t).nodes[x].nextIndex, y)
  {
    hide Run, NextAppend, OnAppendRequest, OnAppendReply, UpdateCommit;
    var nx, ny := End(t).nodes[x], End(t).nodes[y];
    if Lookup(nx.nextIndex, y) == 1 {
      Accepts(nx, ny, y, |nx.log| + 1);
      u := Exchange(t, x, y, |nx.log| + 1);
    } else {
      Refuses(nx, ny, y, 0);
      var w := Exchange(t, x, y, 0);
      var k := Lookup(nx.nextIndex, y);
      assert nx.nextIndex[y := k - 1][y := |nx.log| + 1] == nx.nextIndex[y := |nx.log| + 1];
      u := Overwrite(w, x, y);
      assert End(u).nodes == End(t).nodes[y := Followed(ny, nx)][x := Acked(nx, y)];
    }
  }

  // ---- A cluster at rest -------------------------------------------------------------------------

  ghost function Listing(ids: set<Id>): (r: seq<Id>)
    ensures (set p | p in r) == ids && forall i, j :: 0 <= i < j < |r| ==> r[i] != r[j]
  {
    if ids == {} then []
    else
      var x :| x in ids;
      var rest := Listing(ids - {x});
      assert x !in rest by { assert x !in (set p | p in rest); }
      assert (set p | p in rest + [x]) == (set p | p in rest) + {x};
      rest + [x]
  }

  ghost function Newborn(x: Id, ids: set<Id>): Node {
    Node(x, Listing(ids - {x}), Follower, 0, "", "", [], 0, 0, 0, 0, 0, map[], map[])
  }

  ghost function Opening(ids: set<Id>): System {
    System(map x | x in ids :: Newborn(x, ids), {}, {}, map x | x in ids :: [])
  }

  lemma OpeningIsInit(ids: set<Id>)
    requires "" !in ids
    ensures Init(Opening(ids)) && AllPlain(Opening(ids), ids)
  {
    hide Listing;
    var s := Opening(ids);
    forall x | x in ids ensures Configured(s.nodes[x], x, ids) && Fresh(s.nodes[x]) && s.delivered[x] == [] {
      assert s.nodes[x] == Newborn(x, ids);
    }
  }

  lemma Rest(ids: set<Id>) returns (t: Trail)
    requires "" !in ids
    ensures Walked(t) && AllPlain(End(t), ids) && t.actions == []
    ensures forall y :: y in ids ==> End(t).nodes[y].term == 0 && End(t).nodes[y].log == []
  {
    OpeningIsInit(ids);
    t := Begin(Opening(ids));
    assert forall y :: y in ids ==> End(t).nodes[y] == Newborn(y, ids);
  }

  /** A member with nothing compacted and nothing committed. */
  ghost predicate Plain(n: Node, x: Id, ids: set<Id>) {
    n.id == x && n.peers == Listing(ids - {x}) && Uncompacted(n) && n.commit == 0 && InOrder(n.log, 0)
  }

  ghost predicate AllPlain(s: System, ids: set<Id>) {
    && s.nodes.Keys == s.delivered.Keys == ids
    && forall x :: x in ids ==> Plain(s.nodes[x], x, ids)
  }

  lemma PeersOf(n: Node, x: Id, ids: set<Id>)
    requires Plain(n, x, ids) && x in ids
    ensures |n.peers| == |ids| - 1 && forall y :: y in n.peers <==> y in ids && y != x
  {
    hide Listing;
    assert Configured(n, x, ids);
    ConfiguredPeers(n, x, ids);
    PeersCount(n, x, ids);
  }

  /** The members whose logs a leader knows to reach i, itself included. */
  ghost function Reaching(n: Node, i: nat, ids: set<Id>): set<Id> {
    set p | p in ids && (p == n.id || Lookup(n.matchIndex, p) >= i)
  }

  lemma Counted(n: Node, i: nat, x: Id, ids: set<Id>)
    requires n.id == x && n.peers == Listing(ids - {x}) && x in ids
    ensures CountMatches(n, i, n.peers) == |Reaching(n, i, ids)| && |n.peers| + 1 == |ids|
  {
    hide Listing;
    assert Configured(n, x, ids);
    ConfiguredPeers(n, x, ids);
    PeersCount(n, x, ids);
    CountIsSize(n, i, n.peers);
    assert Reaching(n, i, ids) == Agreeing(n.matchIndex, i, n.peers) + {x};
  }

  /** The commit scan over an uncompacted log, by the members that each index has reached. */
  lemma Scanned(n: Node, x: Id, ids: set<Id>)
    requires n.id == x && n.peers == Listing(ids - {x}) && x in ids && Uncompacted(n)
    ensures var c := UpdateCommit(n).commit;
            && (|| c == n.commit
                || (n.commit < c <= |n.log| && n.log[c - 1].term == n.term && 2 * |Reaching(n, c, ids)| > |ids|))
            && forall i :: c < i <= |n.log| && n.log[i - 1].term == n.term ==> 2 * |Reaching(n, i, ids)| <= |ids|
  {
    hide Listing, CountMatches, Reaching;
    ScanIsLargest(n, |n.log|);
    forall i | 0 < i <= |n.log|
      ensures Committable(n, i) <==> n.log[i - 1].term == n.term && 2 * |Reaching(n, i, ids)| > |ids|
    {
      Counted(n, i, x, ids);
    }
  }

  // ---- The same steps, told by what they leave of a plain cluster ----------------------------------

  /** v would vote for x in this term. */
  ghost predicate Backs(s: System, v: Id, x: Id, term: nat) {
    && v in s.nodes && x in s.nodes && v != x && s.nodes[v].term < term
    && var (a, b) := (LastTerm(s.nodes[v].log), LastTerm(s.nodes[x].log));
       a < b || (a == b && |s.nodes[v].log| <= |s.nodes[x].log|)
  }

  lemma Wins(t: Trail, ids: set<Id>, x: Id, term: nat, v: Id, w: Id) returns (u: Trail)
    requires Walked(t) && AllPlain(End(t), ids) && x in ids && End(t).nodes[x].term < term
    requires Backs(End(t), v, x, term) && Backs(End(t), w, x, term) && 2 * (1 + |{v, w}|) > |ids|
    ensures Continues(t, u) && AllPlain(End(u), ids) && Calm(t, u, {v, w} + {x})
    ensures var n, n' := End(t).nodes[x], End(u).nodes[x];
            && n'.term == term && n'.role == Leader && n'.log == n.log
            && forall p :: p in ids && p != x ==>
                 Lookup(n'.nextIndex, p) == |n.log| + 1 && Lookup(n'.matchIndex, p) == 0
    ensures End(u).nodes[v] == Voter(End(t).nodes[v], term, x) && End(u).nodes[w] == Voter(End(t).nodes[w], term, x)
    ensures forall y :: y in ids && y != x && y != v && y != w ==> End(u).nodes[y] == End(t).nodes[y]
  {
    hide Run, Listing, SetAll, LastIndexTerm, Calm, Votes, NoScanYet, BecomeLeader, Standing, Lookup, InOrder;
    var n := End(t).nodes[x];
    assert Plain(n, x, ids);
    PeersOf(n, x, ids);
    BacksVotes(End(t), ids, v, x, term);
    BacksVotes(End(t), ids, w, x, term);
    u := Elect(t, x, term, {v, w});
    Reset(n, term, ids, x);
    ElectedPlain(End(t), ids, x, term, {v, w}, End(u));
  }

  lemma ElectedPlain(s: System, ids: set<Id>, x: Id, term: nat, voters: set<Id>, s': System)
    requires AllPlain(s, ids) && x in ids && s'.nodes == Elected(s.nodes, x, term, voters)
             && s'.delivered == s.delivered
    ensures AllPlain(s', ids)
  {
    hide Listing, SetAll;
    forall y | y in ids ensures Plain(s'.nodes[y], y, ids) { assert Plain(s.nodes[y], y, ids); }
  }

  lemma BacksVotes(s: System, ids: set<Id>, v: Id, x: Id, term: nat)
    requires AllPlain(s, ids) && Backs(s, v, x, term)
    ensures Votes(s.nodes, x, term, v)
  {
    hide Listing;
    assert Plain(s.nodes[x], x, ids) && Plain(s.nodes[v], v, ids);
    PeersOf(s.nodes[x], x, ids);
    LastOf(s.nodes[x]);
    LastOf(s.nodes[v]);
  }

  lemma LastOf(n: Node)
    requires Uncompacted(n) && InOrder(n.log, 0)
    ensures LastIndexTerm(n) == (|n.log|, LastTerm(n.log))
  {
  }

  lemma Reset(n: Node, term: nat, ids: set<Id>, x: Id)
    requires Plain(n, x, ids) && x in ids
    ensures var n' := BecomeLeader(Standing(n, term));
            && n'.term == term && n'.role == Leader && n'.log == n.log
            && forall p :: p in ids && p != x ==>
                 Lookup(n'.nextIndex, p) == |n.log| + 1 && Lookup(n'.matchIndex, p) == 0
  {
    hide Listing, SetAll;
    PeersOf(n, x, ids);
    forall p | p in ids && p != x
      ensures Lookup(SetAll(n.nextIndex, n.peers, |n.log| + 1), p) == |n.log| + 1
              && Lookup(SetAll(n.matchIndex, n.peers, 0), p) == 0
    {
      SetAllReads(n.nextIndex, n.peers, |n.log| + 1, p);
      SetAllReads(n.matchIndex, n.peers, 0, p);
    }
  }

  lemma Writes(t: Trail, ids: set<Id>, x: Id, command: string) returns (u: Trail)
    requires Walked(t) && AllPlain(End(t), ids) && x in ids && End(t).nodes[x].role == Leader
    ensures Continues(t, u) && AllPlain(End(u), ids) && u.actions == t.actions + [Submit(x, command)]
    ensures var n := End(t).nodes[x];
            End(u).nodes == End(t).nodes[x := n.(log := n.log + [Entry(|n.log| + 1, n.term, command)])]
  {
    hide Run, Listing;
    assert Plain(End(t).nodes[x], x, ids);
    u := SubmitAt(t, x, command);
    forall y | y in ids ensures Plain(End(u).nodes[y], y, ids) { assert Plain(End(t).nodes[y], y, ids); }
  }

  /** y comes to hold the log of the leader x, which learns so and commits what it then can. */
  lemma Copies(t: Trail, ids: set<Id>, x: Id, y: Id) returns (u: Trail)
    requires Walked(t) && AllPlain(End(t), ids) && x in ids && y in ids && x != y
    requires var nx, ny := End(t).nodes[x], End(t).nodes[y];
             && nx.role == Leader && ny.term <= nx.term && 1 <= Lookup(nx.nextIndex, y) <= |nx.log| + 1 && nx.log != []
             && (Apart(ny.log, nx.log) || (Lookup(nx.nextIndex, y) == |ny.log| + 1 && ny.log <= nx.log))
    ensures Continues(t, u) && End(u).nodes.Keys == End(u).delivered.Keys == ids
    ensures var nx, ny := End(t).nodes[x], End(t).nodes[y];
            End(u).nodes == End(t).nodes[y := Followed(ny, nx)][x := Acked(nx, y)]
    ensures Acked(End(t).nodes[x], y).commit == 0 ==> AllPlain(End(u), ids)
  {
    hide Run, Listing, Acked, Followed;
    var nx, ny := End(t).nodes[x], End(t).nodes[y];
    assert Plain(nx, x, ids) && Plain(ny, y, ids);
    PeersOf(nx, x, ids);
    if Apart(ny.log, nx.log) { u := Overwrite(t, x, y); } else { u := Continue(t, x, y); }
    if Acked(nx, y).commit == 0 { StillPlain(End(t), ids, x, y, End(u)); }
  }

  lemma StillPlain(s: System, ids: set<Id>, x: Id, y: Id, s': System)
    requires AllPlain(s, ids) && x in ids && y in ids && x != y && Acked(s.nodes[x], y).commit == 0
    requires s'.nodes == s.nodes[y := Followed(s.nodes[y], s.nodes[x])][x := Acked(s.nodes[x], y)]
    requires s'.delivered.Keys == ids
    ensures AllPlain(s', ids)
  {
    hide Listing, UpdateCommit, Acked;
    AckedPlain(s.nodes[x], y);
    forall z | z in ids ensures Plain(s'.nodes[z], z, ids) {
      assert Plain(s.nodes[z], z, ids) && Plain(s.nodes[x], x, ids);
    }
  }

  lemma AckedPlain(n: Node, y: Id)
    ensures Acked(n, y) == n.(commit := Acked(n, y).commit, nextIndex := n.nextIndex[y := |n.log| + 1],
                              matchIndex := n.matchIndex[y := |n.log|])
  {
    hide ScanCommit;
  }

  // ---- The entries of the runs: two of term 1, and one of term 2 in the place of the first --------------

  function P(): Entry { Entry(1, 1, "p") }
  function Q(): Entry { Entry(2, 1, "q") }
  function R(): Entry { Entry(1, 2, "r") }

  // ---- Three members --------------------------------------------------------------------------------

  datatype Three = Three(x: Id, a: Id, d: Id) {
    ghost predicate Distinct() {
      x != a && x != d && a != d && "" !in All()
    }

    ghost function All(): set<Id> {
      {x, a, d}
    }
  }

  /** The last action, and the first that touches a log, is the submission of x. */
  ghost predicate OneSubmit(t: Trail, x: Id) {
    && |t.actions| > 0 && t.actions[|t.actions| - 1] == Submit(x, "p")
    && forall k :: 0 <= k < |t.actions| - 1 ==> !t.actions[k].Submit? && !t.actions[k].HandleAppend?
  }

  /** x leads term 1 and publishes an entry that it has not persisted yet. */
  lemma FirstTerm(f: Three) returns (t: Trail)
    requires f.Distinct()
    ensures Walked(t) && AllPlain(End(t), f.All()) && OneSubmit(t, f.x) && NoScanYet(t)
    ensures var n := End(t).nodes[f.x];
            && n.term == 1 && n.role == Leader && n.log == [Entry(1, 1, "p")]
            && Lookup(n.nextIndex, f.a) == 1 && Lookup(n.matchIndex, f.a) == 0 && Lookup(n.nextIndex, f.d) == 1
    ensures End(t).nodes[f.a].term == 1 && End(t).nodes[f.a].log == [] && End(t).nodes[f.d].term == 0
            && End(t).nodes[f.d].log == []
  {
    hide Run, Listing, Plain, Calm, OneSubmit, AllPlain, LastTerm, Lookup;
    var rest := Rest(f.All());
    RestBacks(rest, f);
    assert |{f.a, f.a}| == 1;
    var w := Wins(rest, f.All(), f.x, 1, f.a, f.a);
    t := Writes(w, f.All(), f.x, "p");
    FirstSubmit(rest, w, t, {f.a, f.a} + {f.x}, f.x);
  }

  /** In a cluster at rest, a would vote for x. */
  lemma RestBacks(t: Trail, f: Three)
    requires f.Distinct() && Walked(t) && AllPlain(End(t), f.All())
    requires forall y :: y in f.All() ==> End(t).nodes[y].term == 0 && End(t).nodes[y].log == []
    ensures f.x in End(t).nodes && f.a in End(t).nodes && f.d in End(t).nodes
    ensures Backs(End(t), f.a, f.x, 1) && End(t).nodes[f.x].term < 1
  {
    hide Run, Listing;
  }

  /** The action changes the log of x. */
  predicate Touches(a: Action, x: Id) {
    a.x == x && (a.Submit? || a.HandleAppend?)
  }

  /** The submission of x at k is all that touches its log. */
  ghost predicate TouchesOnly(t: Trail, x: Id, k: nat) {
    && k < |t.actions| && t.actions[k] == Submit(x, "p")
    && forall j :: 0 <= j < |t.actions| && j != k ==> !Touches(t.actions[j], x)
  }

  ghost predicate FirstTouch(t: Trail, x: Id) {
    exists k :: TouchesOnly(t, x, k)
  }

  lemma FirstSubmit(rest: Trail, w: Trail, t: Trail, q: set<Id>, x: Id)
    requires rest.actions == [] && Calm(rest, w, q) && t.actions == w.actions + [Submit(x, "p")]
    ensures OneSubmit(t, x)
  {
  }

  /** One acknowledgement is enough for x to commit its entry. */
  lemma OneAckCommits(n: Node, y: Id, z: Id, f: Three)
    requires f.Distinct() && {y, z} <= f.All() && y != z && Plain(n, y, f.All())
    requires |n.log| == 1 && n.log[0].term == n.term && Lookup(n.matchIndex, z) == 1
    ensures UpdateCommit(n).commit == 1
  {
    hide Listing, UpdateCommit;
    assert {y, z} <= Reaching(n, 1, f.All());
    SubsetSize({y, z}, Reaching(n, 1, f.All()));
    assert |f.All()| == 3;
    Scanned(n, y, f.All());
  }

  lemma PlainAt(t: Trail, f: Three, y: Id)
    requires Walked(t) && AllPlain(End(t), f.All()) && y in f.All()
    ensures y in End(t).nodes && Plain(End(t).nodes[y], y, f.All())
  {
  }

  /** x has its first entry acknowledged by a and commits it. */
  lemma FirstCommit(f: Three) returns (t: Trail)
    requires f.Distinct()
    ensures Walked(t) && Submit(f.x, "p") in t.actions && NoScanYet(t)
    ensures End(t).nodes.Keys == End(t).delivered.Keys == f.All()
    ensures var n := End(t).nodes[f.x];
            && n.id == f.x && n.peers == Listing(f.All() - {f.x}) && Uncompacted(n)
            && n.term == 1 && n.role == Leader && n.log == [Entry(1, 1, "p")] && n.commit == 1
            && Lookup(n.nextIndex, f.a) == 2 && Lookup(n.nextIndex, f.d) == 1
    ensures var n := End(t).nodes[f.a]; Uncompacted(n) && n.term == 1 && n.log == [Entry(1, 1, "p")] && n.commit == 0
    ensures Plain(End(t).nodes[f.d], f.d, f.All()) && End(t).nodes[f.d].term == 0 && End(t).nodes[f.d].log == []
  {
    hide Run, Listing, AllPlain, UpdateCommit;
    t := FirstTerm(f);
    PlainAt(t, f, f.x);
    PlainAt(t, f, f.a);
    PlainAt(t, f, f.d);
    var n := End(t).nodes[f.x];
    AckedPlain(n, f.a);
    OneAckCommits(n.(nextIndex := n.nextIndex[f.a := 2], matchIndex := n.matchIndex[f.a := 1]), f.x, f.a, f);
    t := Copies(t, f.All(), f.x, f.a);
  }
}
