/**
 What the cluster can still do from any moment of any run: bring a follower up to date, deliver what is
 committed, and, with any majority, elect a leader and have a command committed and delivered.
 */
module RaftProgress {
  import opened Options
  import opened RaftTypes
  import opened RaftNode
  import opened RaftSystem
  import opened RaftTrails
  import opened RaftSafety
  import opened RaftCatchUp
  import RaftCompaction
  import RaftFindings
  import RaftRefinement

  // ---- Continuing a run ------------------------------------------------------------------------------

  /** u goes on where t ends by steps of members of q, none of which compacts its log. */
  ghost predicate Reaches(t: Trail, u: Trail, q: set<Id>) {
    && Walked(t) && Walked(u) && t.states <= u.states && t.actions <= u.actions
    && forall k :: |t.actions| <= k < |u.actions| ==> u.actions[k].x in q && !u.actions[k].DropCompacted?
  }

  lemma ReachesTwice(t: Trail, w: Trail, u: Trail, q: set<Id>, r: set<Id>, all: set<Id>)
    requires Reaches(t, w, q) && Reaches(w, u, r) && q <= all && r <= all
    ensures Reaches(t, u, all)
  {
    hide Run;
    assert forall k :: |t.actions| <= k < |w.actions| ==> u.actions[k] == w.actions[k];
  }

  lemma ReachesHere(t: Trail, q: set<Id>)
    requires Walked(t)
    ensures Reaches(t, t, q)
  {
  }

  lemma Step(t: Trail, a: Action, s': System) returns (u: Trail)
    requires Walked(t) && Next(End(t), a, s') && !a.DropCompacted?
    ensures Reaches(t, u, {a.x}) && End(u) == s' && u.actions == t.actions + [a]
  {
    hide Next, Init;
    u := Trail(t.states + [s'], t.actions + [a]);
    forall i | 0 <= i < |u.actions| ensures Next(u.states[i], u.actions[i], u.states[i + 1]) {
      if i < |t.actions| { assert Next(t.states[i], t.actions[i], t.states[i + 1]); }
    }
  }

  /** The whole log of a node where the run ends. */
  ghost function WholeAt(t: Trail, z: Id): seq<Entry>
    requires Walked(t) && z in End(t).nodes
  {
    LogAt(t.states, t.actions, |t.actions|, z)
  }

  ghost function DroppedAt(t: Trail, z: Id): seq<Entry>
    requires Walked(t)
  {
    var d := PastAt(t.states, t.actions, |t.actions|);
    if z in d then d[z].dropped else []
  }

  lemma {:induction false} PastPrefix(t: Trail, u: Trail, i: nat)
    requires Walked(t) && Walked(u) && t.states <= u.states && t.actions <= u.actions && i <= |t.actions|
    ensures PastAt(u.states, u.actions, i) == PastAt(t.states, t.actions, i)
  {
    hide Next, Init, RaftRefinement.PastsAfter;
    if i > 0 {
      PastPrefix(t, u, i - 1);
      assert u.actions[i - 1] == t.actions[i - 1] && u.states[i - 1] == t.states[i - 1] && u.states[i] == t.states[i];
    }
  }

  lemma {:induction false} DroppedStays(t: Trail, u: Trail, q: set<Id>, i: nat, z: Id)
    requires Reaches(t, u, q) && |t.actions| <= i <= |u.actions|
    ensures var d := PastAt(u.states, u.actions, i); (if z in d then d[z].dropped else []) == DroppedAt(t, z)
  {
    hide Run;
    if i == |t.actions| {
      PastPrefix(t, u, i);
    } else {
      DroppedStays(t, u, q, i - 1, z);
    }
  }

  lemma WholeIs(t: Trail, u: Trail, q: set<Id>, z: Id)
    requires Reaches(t, u, q) && z in End(u).nodes
    ensures DroppedAt(u, z) == DroppedAt(t, z) && WholeAt(u, z) == DroppedAt(t, z) + End(u).nodes[z].log
  {
    hide Next, Init, PastAt;
    DroppedStays(t, u, q, |u.actions|, z);
  }

  // ---- What holds of one node, and of a leader and a follower -------------------------------------------

  lemma NodeAt(t: Trail, x: Id)
    requires Walked(t) && x in End(t).nodes
    ensures var n, d := End(t).nodes[x], DroppedAt(t, x);
            && RaftCompaction.Linked(n, d) && WholeAt(t, x) == d + n.log && n.id == x
            && x in End(t).delivered && n.lastApplied == |End(t).delivered[x]|
            && n.snapIndex == n.offset <= n.lastApplied <= n.commit <= LogLen(n) == |WholeAt(t, x)|
            && Same(End(t).delivered[x], WholeAt(t, x), n.lastApplied)
    ensures End(t).nodes.Keys == End(t).delivered.Keys && Configured(End(t).nodes[x], x, End(t).nodes.Keys)
  {
    hide Next, Init, RaftRefinement.Good, PastAt, RaftCompaction.Linked;
    var i := |t.actions|;
    var h := HistoryAt(t.states, t.actions, i);
    KnownAt(t.states[i], PastAt(t.states, t.actions, i), h, x);
    RaftRefinement.KnownPeer(t.states[i], PastAt(t.states, t.actions, i), h, x);
    RaftRefinement.GoodKeys(t.states[i], PastAt(t.states, t.actions, i), h);
    SnapBelowCommit(t.states, t.actions, i, x);
    LinkedLength(End(t).nodes[x], DroppedAt(t, x));
  }

  lemma LinkedLength(n: Node, d: seq<Entry>)
    requires RaftCompaction.Linked(n, d)
    ensures LogLen(n) == |d + n.log|
  {
  }

  /** x leads, and y is another member that is in no later term. */
  ghost predicate CanSend(t: Trail, x: Id, y: Id) {
    && Walked(t) && x in End(t).nodes && y in End(t).nodes && x != y
    && End(t).nodes[x].role == Leader && End(t).nodes[y].term <= End(t).nodes[x].term
  }

  lemma MatchingAt(t: Trail, x: Id, y: Id)
    requires Walked(t) && x in End(t).nodes && y in End(t).nodes
    ensures RaftFindings.Matching(WholeAt(t, x), WholeAt(t, y))
  {
    hide Next, Init, PastAt, LogAt;
    var i, a, b := |t.actions|, WholeAt(t, x), WholeAt(t, y);
    forall k | 0 <= k < |a| && k < |b| && a[k].term == b[k].term ensures RaftFindings.AgreeThrough(a, b, k) {
      LogMatchingInRuns(t.states, t.actions, i, i, x, y, k);
    }
  }

  lemma PairedAt(t: Trail, x: Id, y: Id)
    requires CanSend(t, x, y)
    ensures y in End(t).nodes[x].peers
    ensures Paired(End(t).nodes[x], DroppedAt(t, x), End(t).nodes[y], DroppedAt(t, y), y)
  {
    hide Next, Init, PastAt, RaftCompaction.Linked, RaftFindings.Matching, WholeAt, DroppedAt;
    NodeAt(t, x);
    NodeAt(t, y);
    MatchingAt(t, x, y);
    RaftRefinement.ConfiguredPeers(End(t).nodes[x], x, End(t).nodes.Keys);
    NextIsPositive(t.states, t.actions, |t.actions|, x, y);
    CompleteAt(t, x, y);
  }

  /** What y has committed, x holds. */
  lemma CompleteAt(t: Trail, x: Id, y: Id)
    requires CanSend(t, x, y)
    ensures Same(WholeAt(t, x), WholeAt(t, y), End(t).nodes[y].commit)
  {
    hide Next, Init, PastAt;
    LeadersAreComplete(t.states, t.actions, |t.actions|, |t.actions|, y, x);
  }

  // ---- A follower is brought up to date ----------------------------------------------------------------

  ghost predicate Untouched(s: System, s': System, q: set<Id>) {
    && s'.nodes.Keys == s.nodes.Keys && s'.delivered == s.delivered
    && forall z :: z in s.nodes && z !in q ==> s'.nodes[z] == s.nodes[z]
  }

  /** The leader after requests to y: only what it knows of y, and perhaps its commit index, has moved. */
  ghost predicate StillLeads(n: Node, n': Node, y: Id) {
    && n' == n.(nextIndex := n'.nextIndex, matchIndex := n'.matchIndex, commit := n'.commit)
    && n.commit <= n'.commit
    && forall p :: p != y ==>
         Lookup(n'.nextIndex, p) == Lookup(n.nextIndex, p) && Lookup(n'.matchIndex, p) == Lookup(n.matchIndex, p)
  }

  /** The node after requests of the leader: nothing but term, vote, role, leader, log and commit has moved. */
  ghost predicate StillMember(n: Node, n': Node, lead: Node) {
    && n' == n.(term := n'.term, votedFor := n'.votedFor, role := n'.role, leaderId := n'.leaderId, log := n'.log,
                commit := n'.commit)
    && n'.term <= lead.term
  }

  /** y holds all of x's log, follows x, and has committed what either had; and x knows. */
  ghost predicate UpToSpeed(t: Trail, u: Trail, x: Id, y: Id)
    requires CanSend(t, x, y) && CanSend(u, x, y)
  {
    var nx, ny, nx', ny' := End(t).nodes[x], End(t).nodes[y], End(u).nodes[x], End(u).nodes[y];
    && Same(WholeAt(u, x), WholeAt(u, y), |WholeAt(u, x)|)
    && ny'.term == nx'.term && ny'.role == Follower && ny'.leaderId == x && ny'.commit == Max(ny.commit, nx.commit)
    && Lookup(nx'.matchIndex, y) == |WholeAt(u, x)| && Lookup(nx'.nextIndex, y) == |WholeAt(u, x)| + 1
  }

  /** Some request that x can still send from memory starts where y can go on. */
  ghost predicate CanTakeUp(t: Trail, x: Id, y: Id)
    requires CanSend(t, x, y)
  {
    var nx, ny := End(t).nodes[x], End(t).nodes[y];
    exists p :: nx.snapIndex <= p < Lookup(nx.nextIndex, y) && Meets(WholeAt(t, x), ny, WholeAt(t, y), p)
  }

  lemma ExchangeReaches(t: Trail, u: Trail, a: Action, b: Action, c: Action)
    requires Continues(t, u) && u.actions == t.actions + [a, b, c]
    requires !a.DropCompacted? && !b.DropCompacted? && !c.DropCompacted?
    ensures Reaches(t, u, {a.x, b.x, c.x})
  {
    hide Run;
  }

  lemma Acknowledged(n: Node, y: Id, last: nat)
    ensures var n' := UpdateCommit(n.(nextIndex := n.nextIndex[y := last + 1], matchIndex := n.matchIndex[y := last]));
            StillLeads(n, n', y) && Lookup(n'.matchIndex, y) == last && Lookup(n'.nextIndex, y) == last + 1
  {
    hide Committable;
    var m := n.(nextIndex := n.nextIndex[y := last + 1], matchIndex := n.matchIndex[y := last]);
    ScanIsLargest(m, LogLen(m));
  }

  lemma SteppedBack(n: Node, y: Id, next: nat)
    ensures StillLeads(n, n.(nextIndex := n.nextIndex[y := next]), y)
  {
  }

  /** An exchange that leaves the two nodes as ExchangeIff says. */
  lemma Exchanged(t: Trail, x: Id, y: Id) returns (u: Trail, m: Node)
    requires CanSend(t, x, y) && End(t).nodes[x].snapIndex < Lookup(End(t).nodes[x].nextIndex, y)
    ensures Reaches(t, u, {x, y}) && Untouched(End(t), End(u), {x, y}) && m == End(u).nodes[y]
    ensures x in End(u).nodes && y in End(u).nodes
    ensures var nx, ny, nx' := End(t).nodes[x], End(t).nodes[y], End(u).nodes[x];
            var lead, next := DroppedAt(t, x) + nx.log, Lookup(nx.nextIndex, y);
            && m == ny.(term := nx.term, votedFor := m.votedFor, role := Follower, leaderId := x, log := m.log,
                        commit := m.commit)
            && if Meets(lead, ny, DroppedAt(t, y) + ny.log, next - 1) then
                 && Same(lead, DroppedAt(t, y) + m.log, |lead|) && m.commit == Max(ny.commit, nx.commit)
                 && nx' == UpdateCommit(nx.(nextIndex := nx.nextIndex[y := |lead| + 1],
                                            matchIndex := nx.matchIndex[y := |lead|]))
               else
                 && m.log == ny.log && m.commit == ny.commit
                 && next > 1 && nx' == nx.(nextIndex := nx.nextIndex[y := next - 1])
  {
    hide Run, NextAppend, OnAppendRequest, OnAppendReply, UpdateCommit, Meets, PastAt, DroppedAt, WholeAt, Same,
         WritesNeeded, NoScanYet, RaftFindings.Matching;
    var nx, ny, dx, dy := End(t).nodes[x], End(t).nodes[y], DroppedAt(t, x), DroppedAt(t, y);
    NodeAt(t, x);
    NodeAt(t, y);
    PairedAt(t, x, y);
    var ops := WritesNeeded(ny.log, ny.offset, Lookup(nx.nextIndex, y), (dx + nx.log)[Lookup(nx.nextIndex, y) - 1..]);
    ExchangeIff(nx, dx, ny, dy, y, ops);
    RequestAt(nx, dx, y);
    u := Exchange(t, x, y, ops);
    m := End(u).nodes[y];
    var req := NextAppend(nx, y).value;
    var r := OnAppendRequest(ny, req, ops);
    ExchangeReaches(t, u, SendAppend(x, y), HandleAppend(y, req, ops), SeeAppendReply(x, y, req, r.term, r.success));
    assert {x, y, x} == {x, y};
  }

  /** One exchange, told by the whole logs. */
  lemma Attempt(t: Trail, x: Id, y: Id) returns (u: Trail)
    requires CanSend(t, x, y) && End(t).nodes[x].snapIndex < Lookup(End(t).nodes[x].nextIndex, y)
    ensures Reaches(t, u, {x, y}) && Untouched(End(t), End(u), {x, y}) && CanSend(u, x, y)
    ensures StillLeads(End(t).nodes[x], End(u).nodes[x], y)
    ensures StillMember(End(t).nodes[y], End(u).nodes[y], End(t).nodes[x])
    ensures WholeAt(u, x) == WholeAt(t, x)
    ensures var next := Lookup(End(t).nodes[x].nextIndex, y);
            if Meets(WholeAt(t, x), End(t).nodes[y], WholeAt(t, y), next - 1) then UpToSpeed(t, u, x, y)
            else
              && next > 1 && Lookup(End(u).nodes[x].nextIndex, y) == next - 1 && WholeAt(u, y) == WholeAt(t, y)
              && End(u).nodes[x].commit == End(t).nodes[x].commit && End(u).nodes[y].commit == End(t).nodes[y].commit
  {
    hide Run, UpdateCommit, Meets, PastAt, DroppedAt, WholeAt, Same;
    var nx, lead := End(t).nodes[x], WholeAt(t, x);
    ReachesHere(t, {});
    WholeIs(t, t, {}, x);
    WholeIs(t, t, {}, y);
    var m;
    u, m := Exchanged(t, x, y);
    WholeIs(t, u, {x, y}, x);
    WholeIs(t, u, {x, y}, y);
    Acknowledged(nx, y, |lead|);
    SteppedBack(nx, y, Lookup(nx.nextIndex, y) - 1);
  }

  lemma StillLeadsTwice(n: Node, m: Node, n': Node, y: Id)
    requires StillLeads(n, m, y) && StillLeads(m, n', y)
    ensures StillLeads(n, n', y)
  {
  }

  lemma UntouchedTwice(s: System, w: System, s': System, q: set<Id>, r: set<Id>, all: set<Id>)
    requires Untouched(s, w, q) && Untouched(w, s', r) && q <= all && r <= all
    ensures Untouched(s, s', all)
  {
  }

  /** Stepping back past an entry where y cannot go on leaves open whether it can further down. */
  lemma TakeUpBelow(t: Trail, w: Trail, x: Id, y: Id)
    requires CanSend(t, x, y) && CanSend(w, x, y)
    requires WholeAt(w, x) == WholeAt(t, x) && WholeAt(w, y) == WholeAt(t, y)
    requires End(w).nodes[x].snapIndex == End(t).nodes[x].snapIndex
             && End(w).nodes[y].snapIndex == End(t).nodes[y].snapIndex
    requires Lookup(End(t).nodes[x].nextIndex, y) == Lookup(End(w).nodes[x].nextIndex, y) + 1
    requires !Meets(WholeAt(t, x), End(t).nodes[y], WholeAt(t, y), Lookup(End(w).nodes[x].nextIndex, y))
    ensures CanTakeUp(t, x, y) <==> CanTakeUp(w, x, y)
  {
    hide WholeAt, Same, Run;
    if CanTakeUp(w, x, y) {
      var p :| End(w).nodes[x].snapIndex <= p < Lookup(End(w).nodes[x].nextIndex, y)
               && Meets(WholeAt(w, x), End(w).nodes[y], WholeAt(w, y), p);
      assert Meets(WholeAt(t, x), End(t).nodes[y], WholeAt(t, y), p);
    }
    if CanTakeUp(t, x, y) {
      var p :| End(t).nodes[x].snapIndex <= p < Lookup(End(t).nodes[x].nextIndex, y)
               && Meets(WholeAt(t, x), End(t).nodes[y], WholeAt(t, y), p);
      assert Meets(WholeAt(w, x), End(w).nodes[y], WholeAt(w, y), p);
    }
  }

  /**
   From any moment of any run a leader can go on sending to any member of no later term that can write.
   Exactly when some request it can send from memory starts where that member can go on, the member ends
   up with all of the leader's log and what either had committed, and the leader knows. Otherwise the
   leader comes to the point where it must send a snapshot, and the member's log is what it was.
   */
  lemma {:induction false} CatchesUpIff(t: Trail, x: Id, y: Id) returns (u: Trail)
    requires CanSend(t, x, y)
    ensures Reaches(t, u, {x, y}) && Untouched(End(t), End(u), {x, y}) && CanSend(u, x, y)
    ensures StillLeads(End(t).nodes[x], End(u).nodes[x], y)
    ensures StillMember(End(t).nodes[y], End(u).nodes[y], End(t).nodes[x])
    ensures WholeAt(u, x) == WholeAt(t, x)
    ensures if CanTakeUp(t, x, y) then UpToSpeed(t, u, x, y)
            else NeedsSnapshot(End(u).nodes[x], y) && WholeAt(u, y) == WholeAt(t, y)
    decreases Lookup(End(t).nodes[x].nextIndex, y)
  {
    hide Run, Meets, PastAt, DroppedAt, WholeAt, Same;
    var nx := End(t).nodes[x];
    var next := Lookup(nx.nextIndex, y);
    if next <= nx.snapIndex {
      PairedAt(t, x, y);
      u := t;
    } else {
      u := Attempt(t, x, y);
      if !Meets(WholeAt(t, x), End(t).nodes[y], WholeAt(t, y), next - 1) {
        var w := u;
        TakeUpBelow(t, w, x, y);
        u := CatchesUpIff(w, x, y);
        ReachesTwice(t, w, u, {x, y}, {x, y}, {x, y});
        StillLeadsTwice(nx, End(w).nodes[x], End(u).nodes[x], y);
      }
    }
  }

  // ---- What can be compacted ------------------------------------------------------------------------------

  /**
   At any moment of any run a compaction passes its check exactly for an index behind the snapshot and no
   later than the commit index, with the term of that entry in the whole log.
   */
  lemma CompactableIff(t: Trail, x: Id, index: nat)
    requires Walked(t) && x in End(t).nodes
    ensures var n, whole := End(t).nodes[x], WholeAt(t, x);
            && n.commit <= |whole|
            && CompactCheck(n, index) ==
               if n.snapIndex < index <= n.commit then Some(whole[index - 1].term) else None
  {
    hide Run, PastAt, DroppedAt, WholeAt;
    NodeAt(t, x);
    var n, d := End(t).nodes[x], DroppedAt(t, x);
    RaftCompaction.LogView(n, d);
    if n.snapIndex < index <= n.commit { assert TermAt(n, index) == Some((d + n.log)[index - 1].term); }
  }

  // ---- What is committed is delivered ---------------------------------------------------------------------

  /** From any moment of any run a node can hand the rest of what it has committed to its state machine. */
  lemma {:induction false} Delivers(t: Trail, x: Id) returns (u: Trail)
    requires Walked(t) && x in End(t).nodes
    ensures Reaches(t, u, {x}) && End(u).nodes.Keys == End(t).nodes.Keys
    ensures End(u).nodes == End(t).nodes[x := End(t).nodes[x].(lastApplied := End(t).nodes[x].commit)]
    ensures x in End(u).delivered && WholeAt(u, x) == WholeAt(t, x)
    ensures End(u).delivered == End(t).delivered[x := End(u).delivered[x]]
    ensures End(t).nodes[x].commit <= |WholeAt(t, x)|
            && End(u).delivered[x] == WholeAt(t, x)[..End(t).nodes[x].commit]
    decreases End(t).nodes[x].commit - End(t).nodes[x].lastApplied
  {
    hide Run, PastAt, DroppedAt, WholeAt, RaftCompaction.Linked;
    NodeAt(t, x);
    var n := End(t).nodes[x];
    if n.lastApplied == n.commit {
      u := t;
      ReachesHere(t, {x});
      assert End(t).nodes[x := n.(lastApplied := n.commit)] == End(t).nodes;
    } else {
      var (n', out) := ApplyNext(n);
      assert out.Some? by { RaftCompaction.LogView(n, DroppedAt(t, x)); }
      var w := Step(t, Apply(x),
          Set(End(t), x, n').(delivered := End(t).delivered[x := End(t).delivered[x] + [out.value]]));
      WholeIs(t, w, {x}, x);
      u := Delivers(w, x);
      ReachesTwice(t, w, u, {x}, {x}, {x});
    }
  }
}
