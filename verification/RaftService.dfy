/**
 The cluster keeps serving: from any moment of any run, any majority can by itself elect a leader and have
 a new command committed and delivered by all its members.
 */
module RaftService {
  import opened Options
  import opened RaftTypes
  import opened RaftNode
  import opened RaftSystem
  import opened RaftTrails
  import opened RaftCatchUp
  import opened RaftProgress
  import RaftCompaction
  import RaftFindings
  import RaftRefinement
  import Spec = RaftSpec

  // ---- A leader brings several followers up to date --------------------------------------------------------

  /** y holds all of x's log and x knows; y has committed at least up to c. */
  ghost predicate Holds(t: Trail, x: Id, y: Id, c: nat) {
    && CanSend(t, x, y) && Same(WholeAt(t, x), WholeAt(t, y), |WholeAt(t, x)|)
    && Lookup(End(t).nodes[x].matchIndex, y) == |WholeAt(t, x)|
    && Lookup(End(t).nodes[x].nextIndex, y) == |WholeAt(t, x)| + 1 && c <= End(t).nodes[y].commit
  }

  ghost predicate Ready(t: Trail, x: Id, y: Id) {
    CanSend(t, x, y) && CanTakeUp(t, x, y)
  }

  /** Of the leader nothing but what it knows of these peers, and perhaps its commit index, has moved. */
  ghost predicate LeadsOn(n: Node, n': Node, q: set<Id>) {
    && n' == n.(nextIndex := n'.nextIndex, matchIndex := n'.matchIndex, commit := n'.commit)
    && n.commit <= n'.commit
    && forall p :: p !in q ==>
         Lookup(n'.nextIndex, p) == Lookup(n.nextIndex, p) && Lookup(n'.matchIndex, p) == Lookup(n.matchIndex, p)
  }

  /** The step from t to w leaves z alone, and of the leader what concerns z. */
  ghost predicate Apart(t: Trail, w: Trail, x: Id, z: Id) {
    && Walked(t) && Walked(w) && x in End(t).nodes && x in End(w).nodes && z in End(t).nodes && z in End(w).nodes
    && End(w).nodes[z] == End(t).nodes[z] && WholeAt(w, z) == WholeAt(t, z) && WholeAt(w, x) == WholeAt(t, x)
    && var n, n' := End(t).nodes[x], End(w).nodes[x];
       && n'.role == n.role && n'.term == n.term && n'.snapIndex == n.snapIndex
       && Lookup(n'.nextIndex, z) == Lookup(n.nextIndex, z) && Lookup(n'.matchIndex, z) == Lookup(n.matchIndex, z)
  }

  lemma ApartKeeps(t: Trail, w: Trail, x: Id, z: Id, c: nat)
    requires Apart(t, w, x, z)
    ensures Ready(t, x, z) ==> Ready(w, x, z)
    ensures Holds(t, x, z, c) ==> Holds(w, x, z, c)
  {
    hide Run, WholeAt, Same;
    if Ready(t, x, z) {
      var p :| End(t).nodes[x].snapIndex <= p < Lookup(End(t).nodes[x].nextIndex, z)
               && Meets(WholeAt(t, x), End(t).nodes[z], WholeAt(t, z), p);
      assert Meets(WholeAt(w, x), End(w).nodes[z], WholeAt(w, z), p);
    }
  }

  lemma LeftApart(t: Trail, w: Trail, q: set<Id>, x: Id, peers: set<Id>, z: Id)
    requires Reaches(t, w, q) && Untouched(End(t), End(w), q) && z !in q && z in End(t).nodes && x in End(t).nodes
    requires x in End(w).nodes && LeadsOn(End(t).nodes[x], End(w).nodes[x], peers) && z !in peers
    ensures Apart(t, w, x, z)
  {
    hide Run, DroppedAt, WholeAt;
    ReachesHere(t, {});
    WholeIs(t, t, {}, x);
    WholeIs(t, t, {}, z);
    WholeIs(t, w, q, x);
    WholeIs(t, w, q, z);
  }

  lemma LeadsOnTwice(n: Node, m: Node, n': Node, q: set<Id>, r: set<Id>, all: set<Id>)
    requires LeadsOn(n, m, q) && LeadsOn(m, n', r) && q <= all && r <= all
    ensures LeadsOn(n, n', all)
  {
  }

  /** One follower, with what the leader had committed before. */
  lemma SpreadsToOne(t: Trail, x: Id, y: Id) returns (u: Trail)
    requires Ready(t, x, y)
    ensures Reaches(t, u, {x, y}) && Untouched(End(t), End(u), {x, y})
    ensures x in End(u).nodes && LeadsOn(End(t).nodes[x], End(u).nodes[x], {y})
    ensures WholeAt(u, x) == WholeAt(t, x) && Holds(u, x, y, End(t).nodes[x].commit)
  {
    hide Run, WholeAt, Same, CanTakeUp;
    u := CatchesUpIff(t, x, y);
  }

  lemma {:induction false} SpreadsTo(t: Trail, x: Id, q: set<Id>) returns (u: Trail)
    requires Walked(t) && x in End(t).nodes && x !in q && forall y :: y in q ==> Ready(t, x, y)
    ensures Reaches(t, u, q + {x}) && Untouched(End(t), End(u), q + {x})
    ensures x in End(u).nodes && LeadsOn(End(t).nodes[x], End(u).nodes[x], q)
    ensures WholeAt(u, x) == WholeAt(t, x) && forall y :: y in q ==> Holds(u, x, y, End(t).nodes[x].commit)
    decreases |q|
  {
    hide Run, WholeAt, Same, CanTakeUp, Ready, Holds, LeadsOn, Untouched, Apart;
    if q == {} {
      u := t;
      StaysPut(t, x, q + {x});
    } else {
      var y :| y in q;
      var c := End(t).nodes[x].commit;
      var w := SpreadsToOne(t, x, y);
      forall z | z in q - {y} ensures Ready(w, x, z) {
        ReadyMeans(t, x, z);
        LeftApart(t, w, {x, y}, x, {y}, z);
        ApartKeeps(t, w, x, z, c);
      }
      u := SpreadsTo(w, x, q - {y});
      ReachesTwice(t, w, u, {x, y}, q - {y} + {x}, q + {x});
      UntouchedTwice(End(t), End(w), End(u), {x, y}, q - {y} + {x}, q + {x});
      LeadsOnTwice(End(t).nodes[x], End(w).nodes[x], End(u).nodes[x], {y}, q - {y}, q);
      forall z | z in q ensures Holds(u, x, z, c) {
        if z == y {
          HoldsMeans(w, x, y, c);
          LeftApart(w, u, q - {y} + {x}, x, q - {y}, y);
          ApartKeeps(w, u, x, y, c);
        } else {
          HoldsLess(t, w, u, x, z, {y});
        }
      }
    }
  }

  lemma StaysPut(t: Trail, x: Id, q: set<Id>)
    requires Walked(t) && x in End(t).nodes
    ensures Reaches(t, t, q) && Untouched(End(t), End(t), q) && LeadsOn(End(t).nodes[x], End(t).nodes[x], {})
  {
    ReachesHere(t, q);
  }

  lemma ReadyMeans(t: Trail, x: Id, z: Id)
    requires Ready(t, x, z)
    ensures Walked(t) && x in End(t).nodes && z in End(t).nodes && z != x
  {
  }

  lemma HoldsMeans(t: Trail, x: Id, z: Id, c: nat)
    requires Holds(t, x, z, c)
    ensures Walked(t) && x in End(t).nodes && z in End(t).nodes && z != x
  {
  }

  lemma HoldsLess(t: Trail, w: Trail, u: Trail, x: Id, z: Id, q: set<Id>)
    requires Walked(t) && Walked(w) && x in End(t).nodes && x in End(w).nodes
    requires LeadsOn(End(t).nodes[x], End(w).nodes[x], q) && Holds(u, x, z, End(w).nodes[x].commit)
    ensures Holds(u, x, z, End(t).nodes[x].commit)
  {
  }

  // ---- An election ------------------------------------------------------------------------------------------

  /** q is a majority, and the log of its member x is up to date for each of them. */
  ghost predicate CanWin(t: Trail, q: set<Id>, x: Id) {
    && Walked(t) && q <= End(t).nodes.Keys && 2 * |q| > |End(t).nodes.Keys| && x in q
    && forall y :: y in q ==> Spec.UpToDate(WholeAt(t, y), |WholeAt(t, x)|, LastTerm(WholeAt(t, x)))
  }

  lemma {:induction false} LaterTerm(nodes: map<Id, Node>, q: set<Id>) returns (term: nat)
    requires q <= nodes.Keys
    ensures forall y :: y in q ==> nodes[y].term < term
  {
    if q == {} {
      term := 0;
    } else {
      var y :| y in q;
      var least := LaterTerm(nodes, q - {y});
      term := Max(least, nodes[y].term + 1);
    }
  }

  lemma WouldVote(t: Trail, q: set<Id>, x: Id, y: Id, term: nat)
    requires CanWin(t, q, x) && y in q && y != x && End(t).nodes[y].term < term
    ensures Votes(End(t).nodes, x, term, y)
  {
    hide Run, DroppedAt, WholeAt, RaftCompaction.Linked, LastIndexTerm;
    NodeAt(t, x);
    NodeAt(t, y);
    RaftRefinement.ConfiguredPeers(End(t).nodes[x], x, End(t).nodes.Keys);
    RaftCompaction.LogView(End(t).nodes[x], DroppedAt(t, x));
    RaftCompaction.LogView(End(t).nodes[y], DroppedAt(t, y));
  }

  /** x leads, nothing of the logs has changed, and x takes every peer to hold all of its log. */
  ghost predicate Crowned(t: Trail, u: Trail, q: set<Id>, x: Id) {
    && Walked(t) && Walked(u) && x in End(t).nodes && End(u).nodes.Keys == End(t).nodes.Keys
    && End(u).nodes[x].role == Leader
    && (forall z :: z in End(t).nodes ==>
          && WholeAt(u, z) == WholeAt(t, z) && End(u).nodes[z].snapIndex == End(t).nodes[z].snapIndex
          && End(u).nodes[z].log == End(t).nodes[z].log)
    && forall y :: y in q && y != x ==>
         CanSend(u, x, y) && Lookup(End(u).nodes[x].nextIndex, y) == |WholeAt(t, x)| + 1
  }

  lemma ElectedNode(n: Node, term: nat, x: Id, members: set<Id>, y: Id)
    requires Configured(n, x, members) && y in members && y != x
    ensures var n' := BecomeLeader(Standing(n, term));
            && n'.role == Leader && n'.term == term && n'.log == n.log && n'.snapIndex == n.snapIndex
            && Lookup(n'.nextIndex, y) == LogLen(n) + 1
  {
    RaftRefinement.ConfiguredPeers(n, x, members);
    RaftRefinement.SetAllReads(n.nextIndex, n.peers, LogLen(n) + 1, y);
  }

  lemma CalmReaches(t: Trail, u: Trail, q: set<Id>)
    requires Continues(t, u) && Calm(t, u, q)
    ensures Reaches(t, u, q)
  {
    hide Run;
  }

  lemma Crown(t: Trail, q: set<Id>, x: Id) returns (u: Trail)
    requires CanWin(t, q, x)
    ensures Reaches(t, u, q) && End(u).delivered == End(t).delivered && Crowned(t, u, q, x)
  {
    hide Run, DroppedAt, WholeAt, RaftCompaction.Linked, Votes, BecomeLeader, Elected, Configured, Spec.UpToDate;
    var nodes, voters := End(t).nodes, q - {x};
    NodeAt(t, x);
    var term := LaterTerm(nodes, q);
    forall y | y in voters ensures Votes(nodes, x, term, y) { WouldVote(t, q, x, y, term); }
    assert 1 + |voters| >= VotesNeeded(nodes[x]) by {
      RaftRefinement.PeersCount(nodes[x], x, nodes.Keys);
    }
    u := Elect(t, x, term, voters);
    assert voters + {x} == q;
    CalmReaches(t, u, q);
    CrownedBy(t, u, q, x, term);
  }

  lemma CrownedBy(t: Trail, u: Trail, q: set<Id>, x: Id, term: nat)
    requires CanWin(t, q, x) && Reaches(t, u, q) && End(u).nodes == Elected(End(t).nodes, x, term, q - {x})
    ensures Crowned(t, u, q, x)
  {
    hide Run, DroppedAt, WholeAt, RaftCompaction.Linked, BecomeLeader, Configured, Spec.UpToDate;
    var nodes := End(t).nodes;
    ReachesHere(t, {});
    forall z | z in nodes
      ensures WholeAt(u, z) == WholeAt(t, z) && End(u).nodes[z].snapIndex == nodes[z].snapIndex
      ensures End(u).nodes[z].log == nodes[z].log
    {
      LeaderKeepsLog(nodes[x], term);
      WholeIs(t, t, {}, z);
      WholeIs(t, u, q, z);
    }
    NodeAt(t, x);
    LeaderKeepsLog(nodes[x], term);
    forall y | y in q && y != x
      ensures CanSend(u, x, y) && Lookup(End(u).nodes[x].nextIndex, y) == |WholeAt(t, x)| + 1
    {
      ElectedNode(nodes[x], term, x, nodes.Keys, y);
    }
  }

  lemma LeaderKeepsLog(n: Node, term: nat)
    ensures var n' := BecomeLeader(Standing(n, term));
            n'.role == Leader && n'.term == term && n'.log == n.log && n'.snapIndex == n.snapIndex
  {
  }

  // ---- A command ----------------------------------------------------------------------------------------------

  /** Every member of q holds what x has compacted, so x need not send it a snapshot. */
  ghost predicate NoneBehind(t: Trail, q: set<Id>, x: Id) {
    && Walked(t) && q <= End(t).nodes.Keys && x in q
    && forall y :: y in q ==> Same(WholeAt(t, x), WholeAt(t, y), End(t).nodes[x].snapIndex)
  }

  /** x leads and ends its log with this entry of its own term; its followers in q can be reached. */
  ghost predicate Proposed(u: Trail, q: set<Id>, x: Id, e: Entry) {
    && Walked(u) && q <= End(u).nodes.Keys && x in q && End(u).nodes[x].role == Leader
    && e.term == End(u).nodes[x].term
    && WholeAt(u, x) != [] && WholeAt(u, x)[|WholeAt(u, x)| - 1] == e
  }

  lemma Propose(t: Trail, w: Trail, q: set<Id>, x: Id, command: string) returns (u: Trail, e: Entry)
    requires Crowned(t, w, q, x) && NoneBehind(t, q, x)
    ensures e.command == command && Reaches(w, u, {x}) && Proposed(u, q, x, e)
    ensures |WholeAt(u, x)| == |WholeAt(t, x)| + 1 && End(u).nodes.Keys == End(t).nodes.Keys
    ensures forall y :: y in q && y != x ==> Ready(u, x, y)
  {
    hide Run, DroppedAt, WholeAt, RaftCompaction.Linked, Continues, Configured, Ready;
    var n := End(w).nodes[x];
    NodeAt(w, x);
    e := Published(n, command);
    u := Step(w, Submit(x, command), Set(End(w), x, Publish(n, command)));
    ReachesHere(w, {});
    WholeIs(w, w, {}, x);
    WholeIs(w, u, {x}, x);
    assert WholeAt(u, x) == WholeAt(w, x) + [e];
    forall y | y in q && y != x ensures Ready(u, x, y) {
      WholeIs(w, w, {}, y);
      WholeIs(w, u, {x}, y);
      ReadyFor(t, w, u, q, x, y, e);
    }
  }

  lemma ReadyFor(t: Trail, w: Trail, u: Trail, q: set<Id>, x: Id, y: Id, e: Entry)
    requires Crowned(t, w, q, x) && NoneBehind(t, q, x) && y in q && y != x && CanSend(u, x, y)
    requires WholeAt(u, x) == WholeAt(t, x) + [e] && WholeAt(u, y) == WholeAt(t, y)
    requires End(u).nodes[y] == End(w).nodes[y]
    requires End(u).nodes[x].snapIndex == End(t).nodes[x].snapIndex
    requires Lookup(End(u).nodes[x].nextIndex, y) == |WholeAt(t, x)| + 1
    ensures Ready(u, x, y)
  {
    hide Run, DroppedAt, WholeAt, RaftCompaction.Linked, RaftFindings.Matching;
    var nx, ny := End(u).nodes[x], End(u).nodes[y];
    var p := Max(nx.snapIndex, ny.snapIndex);
    NodeAt(u, x);
    NodeAt(u, y);
    PairedAt(u, x, y);
    NodeAt(t, x);
    NodeAt(t, y);
    assert p <= |WholeAt(t, x)| by { CrownedHeld(t, w, u, q, x, y); }
    assert Meets(WholeAt(u, x), ny, WholeAt(u, y), p);
  }

  /** What y has compacted, x held when it was elected. */
  lemma CrownedHeld(t: Trail, w: Trail, u: Trail, q: set<Id>, x: Id, y: Id)
    requires Crowned(t, w, q, x) && y in q && y != x && y in End(t).nodes && CanSend(u, x, y)
    requires End(u).nodes[y] == End(w).nodes[y]
    ensures End(u).nodes[y].snapIndex <= |WholeAt(t, x)|
  {
    hide Run, DroppedAt, WholeAt, RaftCompaction.Linked, RaftFindings.Matching;
    NodeAt(w, x);
    NodeAt(w, y);
    PairedAt(w, x, y);
  }

  // ---- The commit ------------------------------------------------------------------------------------------------

  lemma Counted(n: Node, x: Id, members: set<Id>, q: set<Id>, i: nat)
    requires Configured(n, x, members) && x in q && q <= members && 2 * |q| > |members|
    requires forall y :: y in q && y != x ==> Lookup(n.matchIndex, y) >= i
    ensures CountMatches(n, i, n.peers) > (|n.peers| + 1) / 2
  {
    hide CountMatches;
    RaftRefinement.PeersCount(n, x, members);
    RaftRefinement.ConfiguredPeers(n, x, members);
    RaftRefinement.CountIsSize(n, i, n.peers);
    SubsetSize(q - {x}, RaftRefinement.Agreeing(n.matchIndex, i, n.peers));
  }

  lemma ScanReaches(n: Node, d: seq<Entry>, x: Id, members: set<Id>, q: set<Id>)
    requires Configured(n, x, members) && x in q && q <= members && 2 * |q| > |members|
    requires RaftCompaction.Linked(n, d) && n.commit <= LogLen(n) && d + n.log != []
    requires (d + n.log)[|d + n.log| - 1].term == n.term
    requires forall y :: y in q && y != x ==> Lookup(n.matchIndex, y) == LogLen(n)
    ensures UpdateCommit(n).commit == LogLen(n) == |d + n.log|
  {
    hide CountMatches;
    Counted(n, x, members, q, LogLen(n));
    RaftCompaction.LogView(n, d);
    ScanIsLargest(n, LogLen(n));
    assert TermAt(n, LogLen(n)) == Some(n.term);
  }

  /** Once every member of a majority holds the leader's log, the leader commits all of it. */
  lemma Commits(t: Trail, q: set<Id>, x: Id, e: Entry) returns (u: Trail)
    requires Proposed(t, q, x, e) && 2 * |q| > |End(t).nodes.Keys|
    requires forall y :: y in q && y != x ==> Holds(t, x, y, 0)
    ensures Reaches(t, u, {x}) && Proposed(u, q, x, e) && End(u).nodes.Keys == End(t).nodes.Keys
    ensures WholeAt(u, x) == WholeAt(t, x) && End(u).nodes[x].commit == |WholeAt(u, x)|
    ensures forall y :: y in q && y != x ==> Ready(u, x, y)
  {
    hide Run, DroppedAt, WholeAt, RaftCompaction.Linked, Configured, ScanCommit, Ready, Same;
    var n := End(t).nodes[x];
    NodeAt(t, x);
    ScanReaches(n, DroppedAt(t, x), x, End(t).nodes.Keys, q);
    u := Step(t, Recheck(x), Set(End(t), x, UpdateCommit(n)));
    ReachesHere(t, {});
    WholeIs(t, t, {}, x);
    WholeIs(t, u, {x}, x);
    forall y | y in q && y != x ensures Ready(u, x, y) {
      WholeIs(t, t, {}, y);
      WholeIs(t, u, {x}, y);
      HolderReady(u, x, y);
    }
  }

  lemma HolderReady(u: Trail, x: Id, y: Id)
    requires Holds(u, x, y, 0)
    ensures Ready(u, x, y)
  {
    hide Run, DroppedAt, WholeAt, RaftCompaction.Linked, RaftFindings.Matching;
    NodeAt(u, x);
    NodeAt(u, y);
    PairedAt(u, x, y);
    assert Meets(WholeAt(u, x), End(u).nodes[y], WholeAt(u, y), |WholeAt(u, x)|);
  }

  // ---- The delivery --------------------------------------------------------------------------------------------

  /** z has handed over all that it had committed at t. */
  ghost predicate Delivered(t: Trail, u: Trail, z: Id) {
    && Walked(t) && Walked(u) && z in End(t).nodes && z in End(u).delivered
    && End(t).nodes[z].commit <= |WholeAt(t, z)|
    && End(u).delivered[z] == WholeAt(t, z)[..End(t).nodes[z].commit]
  }

  /** Of z nothing but the applied index has moved. */
  ghost predicate Settled(t: Trail, u: Trail, z: Id) {
    && Walked(t) && Walked(u) && z in End(t).nodes && z in End(u).nodes
    && WholeAt(u, z) == WholeAt(t, z) && End(u).nodes[z].commit == End(t).nodes[z].commit
  }

  lemma DeliveredMore(t: Trail, w: Trail, u: Trail, y: Id, z: Id)
    requires Settled(t, w, y) && Delivered(w, u, y) && Walked(u)
    requires z != y ==> Delivered(t, w, z) && End(u).delivered == End(w).delivered[y := End(u).delivered[y]]
    ensures Delivered(t, u, z)
  {
    hide Run, WholeAt;
  }

  lemma SettledMore(t: Trail, w: Trail, u: Trail, y: Id, z: Id)
    requires Settled(t, w, z) && Reaches(w, u, {y}) && z in End(u).nodes
    requires End(u).nodes[z].log == End(w).nodes[z].log && End(u).nodes[z].commit == End(w).nodes[z].commit
    ensures Settled(t, u, z)
  {
    hide Run, WholeAt, DroppedAt;
    ReachesHere(w, {});
    WholeIs(w, w, {}, z);
    WholeIs(w, u, {y}, z);
  }

  lemma {:induction false} DeliversAll(t: Trail, q: set<Id>) returns (u: Trail)
    requires Walked(t) && q <= End(t).nodes.Keys
    ensures Reaches(t, u, q) && forall z :: z in q ==> Delivered(t, u, z)
    ensures forall z :: z in End(t).nodes ==> Settled(t, u, z)
    decreases |q|
  {
    hide Run, DroppedAt, WholeAt, Delivered;
    if q == {} {
      u := t;
      ReachesHere(t, q);
    } else {
      var y :| y in q;
      var w := DeliversAll(t, q - {y});
      assert Settled(t, w, y);
      u := Delivers(w, y);
      DeliveredNow(w, u, y);
      ReachesTwice(t, w, u, q - {y}, {y}, q);
      forall z | z in q ensures Delivered(t, u, z) { DeliveredMore(t, w, u, y, z); }
      forall z | z in End(t).nodes ensures Settled(t, u, z) {
        assert Settled(t, w, z);
        SettledMore(t, w, u, y, z);
      }
    }
  }

  lemma DeliveredNow(t: Trail, u: Trail, y: Id)
    requires Walked(t) && Walked(u) && y in End(t).nodes && y in End(u).delivered
    requires End(t).nodes[y].commit <= |WholeAt(t, y)|
    requires End(u).delivered[y] == WholeAt(t, y)[..End(t).nodes[y].commit]
    ensures Delivered(t, u, y)
  {
  }

  /** The whole of q has delivered this entry at this place. */
  ghost predicate Served(u: Trail, q: set<Id>, e: Entry, i: nat) {
    && Walked(u)
    && forall y :: y in q ==> y in End(u).delivered && i < |End(u).delivered[y]| && End(u).delivered[y][i] == e
  }

  lemma ServedBy(t: Trail, u: Trail, q: set<Id>, x: Id, e: Entry)
    requires Proposed(t, q, x, e) && End(t).nodes[x].commit == |WholeAt(t, x)|
    requires forall y :: y in q && y != x ==> Holds(t, x, y, |WholeAt(t, x)|)
    requires Walked(u) && forall y :: y in q ==> Delivered(t, u, y)
    ensures Served(u, q, e, |WholeAt(t, x)| - 1)
  {
    hide Run, DroppedAt, WholeAt;
    var i := |WholeAt(t, x)| - 1;
    forall y | y in q ensures y in End(u).delivered && i < |End(u).delivered[y]| && End(u).delivered[y][i] == e {
      assert Delivered(t, u, y);
      if y != x { assert Holds(t, x, y, |WholeAt(t, x)|); }
    }
  }

  lemma StillProposed(t: Trail, u: Trail, q: set<Id>, x: Id, e: Entry, peers: set<Id>)
    requires Proposed(t, q, x, e) && Walked(u) && End(u).nodes.Keys == End(t).nodes.Keys
    requires LeadsOn(End(t).nodes[x], End(u).nodes[x], peers) && WholeAt(u, x) == WholeAt(t, x)
    ensures Proposed(u, q, x, e)
  {
    hide Run, WholeAt;
  }

  /** The election, the submission and the first round of replication. */
  lemma FirstRound(t: Trail, q: set<Id>, x: Id, command: string) returns (u: Trail, e: Entry)
    requires CanWin(t, q, x) && NoneBehind(t, q, x)
    ensures Reaches(t, u, q) && e.command == command && Proposed(u, q, x, e)
    ensures |WholeAt(u, x)| == |WholeAt(t, x)| + 1 && End(u).nodes.Keys == End(t).nodes.Keys
    ensures forall y :: y in q && y != x ==> Holds(u, x, y, 0)
  {
    hide Run, DroppedAt, WholeAt, Ready, Holds, LeadsOn, Same, Crowned, NoneBehind, Spec.UpToDate;
    var t1 := Crown(t, q, x);
    var t2;
    t2, e := Propose(t, t1, q, x, command);
    ReachesTwice(t, t1, t2, q, {x}, q);
    u := SpreadsTo(t2, x, q - {x});
    ReachesTwice(t, t2, u, q, q - {x} + {x}, q);
    StillProposed(t2, u, q, x, e, q - {x});
    forall y | y in q && y != x ensures Holds(u, x, y, 0) { HoldsAny(u, x, y, End(t2).nodes[x].commit); }
  }

  /** The commit, and the round that tells the followers of it. */
  lemma SecondRound(t: Trail, q: set<Id>, x: Id, e: Entry) returns (u: Trail)
    requires Proposed(t, q, x, e) && 2 * |q| > |End(t).nodes.Keys|
    requires forall y :: y in q && y != x ==> Holds(t, x, y, 0)
    ensures Reaches(t, u, q) && Proposed(u, q, x, e) && WholeAt(u, x) == WholeAt(t, x)
    ensures End(u).nodes[x].commit == |WholeAt(u, x)|
    ensures forall y :: y in q && y != x ==> Holds(u, x, y, |WholeAt(u, x)|)
  {
    hide Run, DroppedAt, WholeAt, Ready, Holds, LeadsOn, Same;
    var w := Commits(t, q, x, e);
    u := SpreadsTo(w, x, q - {x});
    ReachesTwice(t, w, u, {x}, q - {x} + {x}, q);
    StillProposed(w, u, q, x, e, q - {x});
    AllCommitted(w, u, x, q - {x});
  }

  /**
   From any moment of any run, a member of a majority whose log is up to date for that majority, and behind
   whose snapshot none of it lags, can be elected by it and have a new command committed and delivered by
   all of it, with no step of any other member.
   */
  lemma MajorityServes(t: Trail, q: set<Id>, x: Id, command: string) returns (u: Trail, e: Entry)
    requires CanWin(t, q, x) && NoneBehind(t, q, x)
    ensures Reaches(t, u, q) && e.command == command && Served(u, q, e, |WholeAt(t, x)|)
  {
    hide Run, DroppedAt, WholeAt, Holds, NoneBehind, Delivered, Spec.UpToDate;
    var w, v;
    w, e := FirstRound(t, q, x, command);
    v := SecondRound(w, q, x, e);
    ReachesTwice(t, w, v, q, q, q);
    u := DeliversAll(v, q);
    ReachesTwice(t, v, u, q, q, q);
    ServedBy(v, u, q, x, e);
  }

  lemma HoldsAny(t: Trail, x: Id, y: Id, c: nat)
    requires Holds(t, x, y, c)
    ensures Holds(t, x, y, 0)
  {
  }

  lemma AllCommitted(t: Trail, u: Trail, x: Id, q: set<Id>)
    requires Walked(t) && Walked(u) && x in End(t).nodes && x in End(u).nodes
    requires LeadsOn(End(t).nodes[x], End(u).nodes[x], q) && WholeAt(u, x) == WholeAt(t, x)
    requires End(t).nodes[x].commit == |WholeAt(t, x)|
    ensures End(u).nodes[x].commit == |WholeAt(u, x)|
  {
    hide Run, DroppedAt, WholeAt;
    NodeAt(u, x);
  }

  // ---- Any majority ------------------------------------------------------------------------------------------------

  lemma {:induction false} MostUpToDate(logs: map<Id, seq<Entry>>, q: set<Id>) returns (x: Id)
    requires q != {} && q <= logs.Keys
    ensures x in q && forall y :: y in q ==> Spec.UpToDate(logs[y], |logs[x]|, LastTerm(logs[x]))
    decreases |q|
  {
    x :| x in q;
    if q != {x} {
      assert q - {x} != {};
      var z := MostUpToDate(logs, q - {x});
      if !Spec.UpToDate(logs[z], |logs[x]|, LastTerm(logs[x])) { x := z; }
    }
  }

  /**
   From any moment of any run, any majority whose members all hold what any of them has compacted can by
   itself have a new command committed and delivered by all its members.
   */
  lemma AnyMajorityServes(t: Trail, q: set<Id>, command: string) returns (u: Trail, e: Entry, i: nat)
    requires Walked(t) && q <= End(t).nodes.Keys && 2 * |q| > |End(t).nodes.Keys|
    requires forall x :: x in q ==> NoneBehind(t, q, x)
    ensures Reaches(t, u, q) && e.command == command && Served(u, q, e, i)
  {
    hide Run, DroppedAt, WholeAt, NoneBehind, Reaches, Served, Spec.UpToDate;
    var logs := map y | y in q :: WholeAt(t, y);
    var x := MostUpToDate(logs, q);
    u, e := MajorityServes(t, q, x, command);
    i := |WholeAt(t, x)|;
  }
}
