/**
 A submission whose entry could not be persisted is taken back if the top of the log still has its
 length and its index; the term is not compared (internal/zero/raft/lifecycle.go:114-128).
 */
module RaftRollback {
  import opened Options
  import opened RaftTypes
  import opened RaftNode
  import opened RaftSystem
  import opened RaftRefinement
  import opened RaftSafety
  import opened RaftTrails

  // ---- What it removes ---------------------------------------------------------------------------

  /**
   A submission of x and the rollback of it at any later moment of the run. It removes something exactly
   when the slice is as long and starts as it did right after publishing; what it removes is the
   published entry exactly when the term is the one it was published in, and another leader's entry
   otherwise; and that is an entry which x has committed exactly when the commit index is on it.
   */
  lemma RollbackRemovesIff(states: seq<System>, actions: seq<Action>, i: nat, j: nat, x: Id, command: string)
    requires Run(states, actions) && i < j < |states| && actions[i] == Submit(x, command)
    ensures x in states[i].nodes && x in states[j].nodes
    ensures var m, n := states[i].nodes[x], states[j].nodes[x];
            var e := Published(m, command);
            var r := Rollback(n, |m.log| + 1, e.index);
            && (r != n <==> |n.log| == |m.log| + 1 && n.offset == m.offset)
            && (r != n ==>
                  && r == n.(log := n.log[..|m.log|])
                  && (n.log[|m.log|] == e <==> n.log[|m.log|].term == m.term)
                  && (LogLen(r) < n.commit <==> n.commit == e.index))
  {
    hide Next, Good, LogAt;
    assert Next(states[i], actions[i], states[i + 1]);
    SubmitsAs(states[i], x, command, states[i + 1]);
    CommitNeverFalls(states, actions, i, j, x);
    var m, n := states[i].nodes[x], states[j].nodes[x];
    var e := Published(m, command);
    if n.log != [] { OffsetInvariant(states, actions, j, x, |n.log| - 1); }
    SnapBelowCommit(states, actions, j, x);
    if |n.log| == |m.log| + 1 && n.offset == m.offset && n.log[|m.log|].term == m.term {
      TopIsPublished(states, actions, i, j, x, command);
    }
  }

  lemma SubmitsAs(s: System, x: Id, command: string, s': System)
    requires Next(s, Submit(x, command), s')
    ensures x in s.nodes && x in s'.nodes && s'.nodes[x] == Publish(s.nodes[x], command)
  {
  }

  lemma TopIsPublished(states: seq<System>, actions: seq<Action>, i: nat, j: nat, x: Id, command: string)
    requires Run(states, actions) && i < j < |states| && actions[i] == Submit(x, command)
    requires x in states[i].nodes && x in states[i + 1].nodes && x in states[j].nodes
    requires var m, n := states[i].nodes[x], states[j].nodes[x];
             && states[i + 1].nodes[x] == Publish(m, command)
             && |n.log| == |m.log| + 1 && n.offset == m.offset && n.log[|m.log|].term == m.term
    ensures states[j].nodes[x].log[|states[i].nodes[x].log|] == Published(states[i].nodes[x], command)
  {
    hide Next, Init, Good, LogAt, PastAt;
    var m, n := states[i].nodes[x], states[j].nodes[x];
    WholeEnds(states, actions, i + 1, x);
    WholeEnds(states, actions, j, x);
    LogMatchingInRuns(states, actions, i + 1, j, x, x, m.offset + |m.log|);
  }

  /** The whole log of a node ends with the slice it holds, behind `offset` entries. */
  lemma WholeEnds(states: seq<System>, actions: seq<Action>, i: nat, x: Id)
    requires Run(states, actions) && i < |states| && x in states[i].nodes
    ensures var n, w := states[i].nodes[x], LogAt(states, actions, i, x);
            && |w| == n.offset + |n.log| && w[n.offset..] == n.log
            && forall k :: 0 <= k < |n.log| ==> w[n.offset + k] == n.log[k]
  {
    hide Next, Good;
    var h := HistoryAt(states, actions, i);
    KnownAt(states[i], PastAt(states, actions, i), h, x);
  }

  // ---- What breaks -------------------------------------------------------------------------------

  /**
   The leader takes its entry back and publishes another command. Some index and term then name two
   commands, its own and one that y holds, exactly when the entry had reached y and the commands differ.
   */
  lemma RollbackReusesIff(states: seq<System>, actions: seq<Action>, i: nat, j: nat, x: Id, y: Id, command: string,
        again: string)
    requires Run(states, actions) && i < j < |states| && actions[i] == Submit(x, command)
    requires x in states[i].nodes && x in states[j].nodes && y in states[j].nodes
    requires var m, n := states[i].nodes[x], states[j].nodes[x];
             n.term == m.term && |n.log| == |m.log| + 1 && n.offset == m.offset && n.log[|m.log|].term == m.term
    ensures var m, n := states[i].nodes[x], states[j].nodes[x];
            var e := Published(m, command);
            var n' := Publish(Rollback(n, |m.log| + 1, e.index), again);
            var f, w := n'.log[|m.log|], LogAt(states, actions, j, y);
            && f.index == e.index && f.term == e.term
            && ((|w| >= f.index && w[f.index - 1].term == f.term && w[f.index - 1] != f) <==>
                command != again && |w| >= e.index && w[e.index - 1].term == e.term)
  {
    hide Next, Good, LogAt;
    RollbackRemovesIff(states, actions, i, j, x, command);
    var m, n := states[i].nodes[x], states[j].nodes[x];
    var e, w := Published(m, command), LogAt(states, actions, j, y);
    WholeEnds(states, actions, j, x);
    if |w| >= e.index && w[e.index - 1].term == e.term {
      LogMatchingInRuns(states, actions, j, j, x, y, e.index - 1);
    }
  }

  // ---- Two runs in which it takes back what is committed -------------------------------------------

  /**
   The entry is replicated before it is persisted: a acknowledges it and x commits it. The rollback
   then takes a committed entry out of the log of x, and the next submission gets its index and term.
   */
  lemma RollbackLosesOwnCommitted(f: Three) returns (t: Trail)
    requires f.Distinct()
    ensures Walked(t) && f.x in End(t).nodes && f.a in End(t).nodes && Submit(f.x, "p") in t.actions && NoScanYet(t)
    ensures var n := End(t).nodes[f.x];
            var r := Rollback(n, 1, 1);
            && n.role == Leader && n.commit == 1 && r.log == []
            && Publish(r, "q").log == [Entry(1, 1, "q")] && End(t).nodes[f.a].log == [Entry(1, 1, "p")]
  {
    t := FirstCommit(f);
  }

  /**
   d is elected and has its entry acknowledged by x and committed. The rollback of the earlier
   submission finds the length and the index it looks for and takes that entry out of the log of x.
   */
  lemma RollbackLosesForeignCommitted(f: Three) returns (t: Trail)
    requires f.Distinct()
    ensures Walked(t) && f.x in End(t).nodes && f.d in End(t).nodes && Submit(f.x, "p") in t.actions && NoScanYet(t)
    ensures var n, m := End(t).nodes[f.x], End(t).nodes[f.d];
            && m.role == Leader && m.commit == 1 && EntryAt(m, 1) == EntryAt(n, 1) == Some(Entry(1, 2, "r"))
            && Rollback(n, 1, 1).log == []
  {
    hide Run, Listing, AllPlain, UpdateCommit;
    t := SecondTerm(f);
    PlainAt(t, f, f.x);
    PlainAt(t, f, f.d);
    var n := End(t).nodes[f.d];
    AckedPlain(n, f.x);
    OneAckCommits(n.(nextIndex := n.nextIndex[f.x := 2], matchIndex := n.matchIndex[f.x := 1]), f.d, f.x, f);
    t := Copies(t, f.All(), f.d, f.x);
  }

  lemma SecondTerm(f: Three) returns (t: Trail)
    requires f.Distinct()
    ensures Walked(t) && AllPlain(End(t), f.All()) && Submit(f.x, "p") in t.actions && NoScanYet(t)
            && FirstTouch(t, f.x)
    ensures f.x in End(t).nodes && f.d in End(t).nodes
    ensures var n, m := End(t).nodes[f.x], End(t).nodes[f.d];
            && n.term == 1 && n.log == [Entry(1, 1, "p")]
            && m.term == 2 && m.role == Leader && m.log == [Entry(1, 2, "r")] && Lookup(m.nextIndex, f.x) == 1
  {
    hide Run, Listing, AllPlain, Calm, OneSubmit, FirstTouch;
    var t0 := FirstTerm(f);
    PlainAt(t0, f, f.x);
    PlainAt(t0, f, f.a);
    PlainAt(t0, f, f.d);
    assert |{f.a, f.a}| == 1 && |f.All()| == 3;
    var w := Wins(t0, f.All(), f.d, 2, f.a, f.a);
    t := Writes(w, f.All(), f.d, "r");
    TouchedOnce(t0, w, t, {f.a, f.a} + {f.d}, f);
  }

  lemma TouchedOnce(t0: Trail, w: Trail, t: Trail, q: set<Id>, f: Three)
    requires f.Distinct() && OneSubmit(t0, f.x) && Continues(t0, w) && Calm(t0, w, q)
             && t.actions == w.actions + [Submit(f.d, "r")]
    ensures FirstTouch(t, f.x) && Submit(f.x, "p") in t.actions
  {
    hide Run;
    var k := |t0.actions| - 1;
    assert forall j :: 0 <= j < |t0.actions| ==> t.actions[j] == t0.actions[j];
    assert TouchesOnly(t, f.x, k);
  }
}
