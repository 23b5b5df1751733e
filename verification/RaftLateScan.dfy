/**
 The second half of Submit looks for a new commit index without asking whether the node still leads
 (internal/zero/raft/lifecycle.go:130-132): when that is safe, and a run in which it is not.
 */
module RaftLateScan {
  import opened Options
  import opened RaftTypes
  import opened RaftNode
  import opened RaftSystem
  import opened RaftHistory
  import opened RaftGrowth
  import opened RaftRefinement
  import opened RaftTrails
  import opened RaftPreservation
  import RaftCompaction
  import RaftSafety

  // ---- A run in which it breaks safety ------------------------------------------------------------

  /** Any five names. */
  datatype Five = Five(x: Id, a: Id, b: Id, c: Id, d: Id) {
    ghost predicate Distinct() {
      && x != a && x != b && x != c && x != d && a != b && a != c && a != d && b != c && b != d && c != d
      && "" !in All()
    }

    ghost function All(): set<Id> {
      {x, a, b, c, d}
    }
  }

  function S(): Entry { Entry(3, 3, "s") }
  function T(): Entry { Entry(2, 4, "t") }
  function U(): Entry { Entry(3, 5, "u") }

  datatype Card = Card(term: nat, log: seq<Entry>)

  ghost predicate Has(s: System, y: Id, card: Card) {
    y in s.nodes && s.nodes[y].term == card.term && s.nodes[y].log == card.log
  }

  ghost predicate At(t: Trail, f: Five) {
    f.Distinct() && Walked(t) && NoScanYet(t) && AllPlain(End(t), f.All())
  }

  /** Term and log of each of the five at the end of the trail. */
  ghost predicate Shows(t: Trail, f: Five, x: Card, a: Card, b: Card, c: Card, d: Card) {
    && At(t, f)
    && Has(End(t), f.x, x) && Has(End(t), f.a, a) && Has(End(t), f.b, b) && Has(End(t), f.c, c) && Has(End(t), f.d, d)
  }

  ghost predicate Leads(t: Trail, f: Five, y: Id, next: nat) {
    && At(t, f) && y in f.All() && End(t).nodes[y].role == Leader
    && forall p :: p in f.All() && p != y ==>
       Lookup(End(t).nodes[y].nextIndex, p) == next && Lookup(End(t).nodes[y].matchIndex, p) == 0
  }

  /** x leads term 1. */
  lemma Step1(f: Five) returns (t: Trail)
    requires f.Distinct()
    ensures Shows(t, f, Card(1, []), Card(1, []), Card(1, []), Card(0, []), Card(0, [])) && Leads(t, f, f.x, 1)
  {
    hide Run, Listing, Plain;
    t := Rest(f.All());
    t := Wins(t, f.All(), f.x, 1, f.a, f.b);
  }

  /** It writes two entries that nobody gets. */
  lemma Step2(t: Trail, f: Five) returns (u: Trail)
    requires Shows(t, f, Card(1, []), Card(1, []), Card(1, []), Card(0, []), Card(0, [])) && Leads(t, f, f.x, 1)
    ensures Shows(u, f, Card(1, [P(), Q()]), Card(1, []), Card(1, []), Card(0, []), Card(0, []))
  {
    hide Run, Listing, AllPlain;
    u := Writes(t, f.All(), f.x, "p");
    u := Writes(u, f.All(), f.x, "q");
  }

  /** d leads term 2 and writes one. */
  lemma Step3(t: Trail, f: Five) returns (u: Trail)
    requires Shows(t, f, Card(1, [P(), Q()]), Card(1, []), Card(1, []), Card(0, []), Card(0, []))
    ensures Shows(u, f, Card(1, [P(), Q()]), Card(1, []), Card(2, []), Card(2, []), Card(2, [R()]))
  {
    hide Run, Listing, AllPlain;
    u := Wins(t, f.All(), f.d, 2, f.b, f.c);
    u := Writes(u, f.All(), f.d, "r");
  }

  /** x leads term 3. */
  lemma Step4(t: Trail, f: Five) returns (u: Trail)
    requires Shows(t, f, Card(1, [P(), Q()]), Card(1, []), Card(2, []), Card(2, []), Card(2, [R()]))
    ensures Shows(u, f, Card(3, [P(), Q()]), Card(3, []), Card(3, []), Card(2, []), Card(2, [R()]))
    ensures Leads(u, f, f.x, 3)
  {
    hide Run, Listing, AllPlain;
    u := Wins(t, f.All(), f.x, 3, f.a, f.b);
  }

  /** What y knows of the logs of a, b, c and x. */
  ghost predicate Knows(t: Trail, f: Five, y: Id, a: nat, b: nat, c: nat, x: nat)
    requires Walked(t)
  {
    && y in End(t).nodes
    && var m := End(t).nodes[y].matchIndex;
       Lookup(m, f.a) == a && Lookup(m, f.b) == b && Lookup(m, f.c) == c && (y == f.x || Lookup(m, f.x) == x)
  }

  /** Nothing can be committed on entries of earlier terms, whoever holds them. */
  lemma NoneToCommit(n: Node, y: Id, f: Five)
    requires f.Distinct() && y in f.All() && Plain(n, y, f.All())
    requires forall i :: 0 < i <= |n.log| && n.log[i - 1].term == n.term ==> 2 * |Reaching(n, i, f.All())| <= 5
    ensures UpdateCommit(n).commit == 0
  {
    hide Listing, Reaching, UpdateCommit;
    Scanned(n, y, f.All());
    assert |f.All()| == 5;
  }

  /** It brings a up to date. */
  lemma Step5(t: Trail, f: Five) returns (u: Trail)
    requires Shows(t, f, Card(3, [P(), Q()]), Card(3, []), Card(3, []), Card(2, []), Card(2, [R()]))
             && Leads(t, f, f.x, 3)
    ensures Shows(u, f, Card(3, [P(), Q()]), Card(3, [P(), Q()]), Card(3, []), Card(2, []), Card(2, [R()]))
    ensures End(u).nodes[f.x].role == Leader && Knows(u, f, f.x, 2, 0, 0, 0)
            && Lookup(End(u).nodes[f.x].nextIndex, f.b) == 3
  {
    hide Run, Listing, AllPlain, UpdateCommit;
    PlainAt(t, f, f.x);
    var n := End(t).nodes[f.x];
    AckedPlain(n, f.a);
    NoneToCommit(n.(nextIndex := n.nextIndex[f.a := 3], matchIndex := n.matchIndex[f.a := 2]), f.x, f);
    u := Copies(t, f.All(), f.x, f.a);
  }

  lemma PlainAt(t: Trail, f: Five, y: Id)
    requires At(t, f) && y in f.All()
    ensures y in End(t).nodes && Plain(End(t).nodes[y], y, f.All())
  {
  }

  /** And b. */
  lemma Step6(t: Trail, f: Five) returns (u: Trail)
    requires Shows(t, f, Card(3, [P(), Q()]), Card(3, [P(), Q()]), Card(3, []), Card(2, []), Card(2, [R()]))
    requires End(t).nodes[f.x].role == Leader && Knows(t, f, f.x, 2, 0, 0, 0)
             && Lookup(End(t).nodes[f.x].nextIndex, f.b) == 3
    ensures Shows(u, f, Card(3, [P(), Q()]), Card(3, [P(), Q()]), Card(3, [P(), Q()]), Card(2, []), Card(2, [R()]))
    ensures End(u).nodes[f.x].role == Leader && Knows(u, f, f.x, 2, 2, 0, 0)
  {
    hide Run, Listing, AllPlain, UpdateCommit;
    PlainAt(t, f, f.x);
    var n := End(t).nodes[f.x];
    AckedPlain(n, f.b);
    NoneToCommit(n.(nextIndex := n.nextIndex[f.b := 3], matchIndex := n.matchIndex[f.b := 2]), f.x, f);
    u := Copies(t, f.All(), f.x, f.b);
  }

  /** It publishes a third entry, and the second half of that submission is still to come. */
  lemma Step7(t: Trail, f: Five) returns (u: Trail)
    requires Shows(t, f, Card(3, [P(), Q()]), Card(3, [P(), Q()]), Card(3, [P(), Q()]), Card(2, []), Card(2, [R()]))
    requires End(t).nodes[f.x].role == Leader && Knows(t, f, f.x, 2, 2, 0, 0)
    ensures Shows(u, f, Card(3, [P(), Q(), S()]), Card(3, [P(), Q()]), Card(3, [P(), Q()]), Card(2, []), Card(2, [R()]))
    ensures Knows(u, f, f.x, 2, 2, 0, 0) && Submit(f.x, "s") in u.actions
  {
    hide Run, Listing, AllPlain;
    u := Writes(t, f.All(), f.x, "s");
  }

  /** d leads term 4 with the votes of a and b. */
  lemma Step8(t: Trail, f: Five) returns (u: Trail)
    requires Shows(t, f, Card(3, [P(), Q(), S()]), Card(3, [P(), Q()]), Card(3, [P(), Q()]), Card(2, []),
             Card(2, [R()]))
    requires Knows(t, f, f.x, 2, 2, 0, 0)
    ensures Continues(t, u)
    ensures Shows(u, f, Card(3, [P(), Q(), S()]), Card(4, [P(), Q()]), Card(4, [P(), Q()]), Card(2, []), Card(4, [R()]))
    ensures Knows(u, f, f.x, 2, 2, 0, 0) && Leads(u, f, f.d, 2)
  {
    hide Run, Listing, AllPlain;
    u := Wins(t, f.All(), f.d, 4, f.a, f.b);
  }

  /** It writes an entry of its own. */
  lemma Step9(t: Trail, f: Five) returns (u: Trail)
    requires Shows(t, f, Card(3, [P(), Q(), S()]), Card(4, [P(), Q()]), Card(4, [P(), Q()]), Card(2, []),
             Card(4, [R()]))
    requires Knows(t, f, f.x, 2, 2, 0, 0) && Leads(t, f, f.d, 2)
    ensures Continues(t, u)
    ensures Shows(u, f, Card(3, [P(), Q(), S()]), Card(4, [P(), Q()]), Card(4, [P(), Q()]), Card(2, []),
            Card(4, [R(), T()]))
    ensures Knows(u, f, f.x, 2, 2, 0, 0) && Leads(u, f, f.d, 2)
  {
    hide Run, Listing, AllPlain;
    u := Writes(t, f.All(), f.d, "t");
  }

  /** x takes over the log of d. The acknowledgements of its own reign are still in its books. */
  lemma Step10(t: Trail, f: Five) returns (u: Trail)
    requires Shows(t, f, Card(3, [P(), Q(), S()]), Card(4, [P(), Q()]), Card(4, [P(), Q()]), Card(2, []),
             Card(4, [R(), T()]))
    requires Knows(t, f, f.x, 2, 2, 0, 0) && Leads(t, f, f.d, 2)
    ensures Continues(t, u)
    ensures Shows(u, f, Card(4, [R(), T()]), Card(4, [P(), Q()]), Card(4, [P(), Q()]), Card(2, []), Card(4, [R(), T()]))
    ensures Knows(u, f, f.x, 2, 2, 0, 0) && End(u).nodes[f.x].role == Follower
  {
    hide Run, Listing, AllPlain, UpdateCommit;
    PlainAt(t, f, f.d);
    var n := End(t).nodes[f.d];
    var n' := n.(nextIndex := n.nextIndex[f.x := 3], matchIndex := n.matchIndex[f.x := 2]);
    AckedPlain(n, f.x);
    assert Reaching(n', 2, f.All()) == {f.d, f.x};
    NoneToCommit(n', f.d, f);
    u := Copies(t, f.All(), f.d, f.x);
  }

  /** a leads term 5 with the votes of b and c, and writes an entry. */
  lemma Step11(t: Trail, f: Five) returns (u: Trail)
    requires Shows(t, f, Card(4, [R(), T()]), Card(4, [P(), Q()]), Card(4, [P(), Q()]), Card(2, []),
             Card(4, [R(), T()]))
    ensures Continues(t, u) && End(u).nodes[f.x] == End(t).nodes[f.x]
    ensures Shows(u, f, Card(4, [R(), T()]), Card(5, [P(), Q(), U()]), Card(5, [P(), Q()]), Card(5, []),
            Card(4, [R(), T()]))
    ensures Leads(u, f, f.a, 3)
  {
    hide Run, Listing, AllPlain;
    u := Wins(t, f.All(), f.a, 5, f.b, f.c);
    u := Writes(u, f.All(), f.a, "u");
  }

  /** It brings b up to date. */
  lemma Step12(t: Trail, f: Five) returns (u: Trail)
    requires Shows(t, f, Card(4, [R(), T()]), Card(5, [P(), Q(), U()]), Card(5, [P(), Q()]), Card(5, []),
             Card(4, [R(), T()]))
    requires Leads(t, f, f.a, 3)
    ensures Continues(t, u) && End(u).nodes[f.x] == End(t).nodes[f.x]
    ensures Shows(u, f, Card(4, [R(), T()]), Card(5, [P(), Q(), U()]), Card(5, [P(), Q(), U()]), Card(5, []),
            Card(4, [R(), T()]))
    ensures var n := End(u).nodes[f.a];
            n.role == Leader && Lookup(n.nextIndex, f.c) == 3 && Lookup(n.matchIndex, f.b) == 3
  {
    hide Run, Listing, AllPlain, UpdateCommit;
    PlainAt(t, f, f.a);
    var n := End(t).nodes[f.a];
    var n' := n.(nextIndex := n.nextIndex[f.b := 4], matchIndex := n.matchIndex[f.b := 3]);
    AckedPlain(n, f.b);
    assert Reaching(n', 3, f.All()) == {f.a, f.b};
    NoneToCommit(n', f.a, f);
    u := Copies(t, f.All(), f.a, f.b);
  }

  /** And c, and commits all three. */
  lemma Step13(t: Trail, f: Five) returns (u: Trail)
    requires Shows(t, f, Card(4, [R(), T()]), Card(5, [P(), Q(), U()]), Card(5, [P(), Q(), U()]), Card(5, []),
             Card(4, [R(), T()]))
    requires var n := End(t).nodes[f.a];
             n.role == Leader && Lookup(n.nextIndex, f.c) == 3 && Lookup(n.matchIndex, f.b) == 3
    ensures Continues(t, u) && f.x in End(u).nodes && f.a in End(u).nodes && End(u).nodes[f.x] == End(t).nodes[f.x]
    ensures End(u).nodes[f.a].commit == 3 && End(u).nodes[f.a].log == [P(), Q(), U()] && Uncompacted(End(u).nodes[f.a])
  {
    hide Run, Listing, AllPlain, UpdateCommit;
    PlainAt(t, f, f.a);
    var n := End(t).nodes[f.a];
    var n' := n.(nextIndex := n.nextIndex[f.c := 4], matchIndex := n.matchIndex[f.c := 3]);
    AckedPlain(n, f.c);
    assert {f.a, f.b, f.c} <= Reaching(n', 3, f.All());
    SubsetSize({f.a, f.b, f.c}, Reaching(n', 3, f.All()));
    assert |f.All()| == 5;
    Scanned(n', f.a, f.All());
    u := Copies(t, f.All(), f.a, f.c);
  }

  /** What the late scan of a deposed leader commits on the acknowledgements of its own reign. */
  lemma StaleScan(n: Node, f: Five)
    requires f.Distinct() && Plain(n, f.x, f.All()) && n.term == 4 && n.log == [R(), T()]
    requires Lookup(n.matchIndex, f.a) == 2 && Lookup(n.matchIndex, f.b) == 2
    ensures UpdateCommit(n).commit == 2
  {
    hide Listing, UpdateCommit;
    assert {f.x, f.a, f.b} <= Reaching(n, 2, f.All());
    SubsetSize({f.x, f.a, f.b}, Reaching(n, 2, f.All()));
    assert |f.All()| == 5;
    Scanned(n, f.x, f.All());
  }

  lemma ThirdTerm(f: Five) returns (t: Trail)
    requires f.Distinct()
    ensures Shows(t, f, Card(3, [P(), Q(), S()]), Card(3, [P(), Q()]), Card(3, [P(), Q()]), Card(2, []), Card(2, [R()]))
    ensures Knows(t, f, f.x, 2, 2, 0, 0) && Submit(f.x, "s") in t.actions
  {
    hide Shows, Leads, Knows;
    t := Step1(f);
    t := Step2(t, f);
    t := Step3(t, f);
    t := Step4(t, f);
    t := Step5(t, f);
    t := Step6(t, f);
    t := Step7(t, f);
  }

  lemma FourthTerm(t: Trail, f: Five) returns (u: Trail)
    requires Shows(t, f, Card(3, [P(), Q(), S()]), Card(3, [P(), Q()]), Card(3, [P(), Q()]), Card(2, []),
             Card(2, [R()]))
    requires Knows(t, f, f.x, 2, 2, 0, 0)
    ensures Shows(u, f, Card(4, [R(), T()]), Card(4, [P(), Q()]), Card(4, [P(), Q()]), Card(2, []), Card(4, [R(), T()]))
    ensures t.actions <= u.actions && End(u).nodes[f.x].role == Follower && UpdateCommit(End(u).nodes[f.x]).commit == 2
  {
    hide UpdateCommit, Plain, AllPlain, NoScanYet, Run;
    u := Step8(t, f);
    u := Step9(u, f);
    u := Step10(u, f);
    PlainAt(u, f, f.x);
    StaleScan(End(u).nodes[f.x], f);
  }

  /**
   In any cluster of five there is a run, with a submission of x in it whose second half is yet to
   come, at the end of which a has committed one entry at index 2 and the scan of x commits another.
   */
  lemma DeposedLeaderCommits(f: Five) returns (t: Trail)
    requires f.Distinct()
    ensures Walked(t) && f.x in End(t).nodes && f.a in End(t).nodes && Submit(f.x, "s") in t.actions && NoScanYet(t)
    ensures var nx, na := End(t).nodes[f.x], End(t).nodes[f.a];
            && nx.role == Follower && UpdateCommit(nx).commit == 2 && na.commit == 3
            && EntryAt(nx, 2) == Some(T()) && EntryAt(na, 2) == Some(Q())
  {
    hide UpdateCommit, AllPlain, NoScanYet, Run;
    t := ThirdTerm(f);
    t := FourthTerm(t, f);
    PlainAt(t, f, f.x);
    t := Step11(t, f);
    t := Step12(t, f);
    t := Step13(t, f);
  }

  // ---- When it is safe ---------------------------------------------------------------------------------

  /** A node that leads, and a node that finds nothing to commit, may scan at any time. */
  lemma ScanIsSafeFor(s: System, x: Id, d: Pasts, h: History) returns (h': History)
    requires Good(s, d, h) && x in s.nodes
    requires var n := s.nodes[x]; n.role == Leader || forall i :: n.commit < i <= LogLen(n) ==> !Committable(n, i)
    ensures var n' := UpdateCommit(s.nodes[x]); Good(Set(s, x, n'), After(d, x, n'), h') && Grows(h, h')
  {
    hide Good, Grows, Committable;
    var n := s.nodes[x];
    if n.role == Leader {
      h' := RecheckKeeps(s, x, d, h);
    } else {
      ScanIsLargest(n, LogLen(n));
      assert UpdateCommit(n) == n && Set(s, x, n) == s;
      AfterSame(s, d, h, x, n);
      h' := h;
      GrowsAlways(h);
    }
  }

  /**
   Any other scan keeps the invariant, whatever else may have happened, only if a majority holds all that
   it commits.
   */
  lemma ScanNeedsMajority(s: System, x: Id, d: Pasts, h: History) returns (q: set<Id>)
    requires x in s.nodes && x in d && UpdateCommit(s.nodes[x]).commit > s.nodes[x].commit
    requires var n' := UpdateCommit(s.nodes[x]); Good(Set(s, x, n'), After(d, x, n'), h)
    ensures q <= s.nodes.Keys && 2 * |q| > |s.nodes.Keys|
    ensures var n' := UpdateCommit(s.nodes[x]);
            forall v :: v in q ==> v in d && v in s.nodes && Same(d[x].dropped + n'.log,
                d[v].dropped + s.nodes[v].log, n'.commit)
  {
    hide Good, UpdateCommit, Settled, Rooted, RaftCompaction.Linked;
    var n' := UpdateCommit(s.nodes[x]);
    var s', d' := Set(s, x, n'), After(d, x, n');
    ScanKeepsLog(s.nodes[x]);
    RaftSafety.KnownAt(s', d', h, x);
    SettledLess(h, d'[x].peak, n'.commit, n'.term);
    q := RaftSafety.SettledOnMajority(s', d', h, n'.commit, n'.term);
    forall v | v in q ensures v in d && v in s.nodes
        && Same(d[x].dropped + n'.log, d[v].dropped + s.nodes[v].log, n'.commit) {
      SameThrough(d[x].dropped + n'.log, h.canon, d[v].dropped + s.nodes[v].log, n'.commit);
    }
  }

  /** A majority acknowledged this much of the log, and perhaps more, to one leader of a term up to this one. */
  ghost predicate Backed(h: History, members: set<Id>, log: seq<Entry>, c: nat, term: nat) {
    exists t: nat, i: nat :: Chosen(h, members, t, i) && t <= term && c <= i && Same(log, h.reigns[t].log, c)
  }

  /** The later history differs in what is decided and nothing else. */
  ghost predicate Decides(h: History, h': History) {
    Grows(h, h') && h' == h.(decisions := h'.decisions, canon := h'.canon)
  }

  lemma BackedKeeps(s: Spec.Cluster, x: Id, c: nat, s': Spec.Cluster, h: History) returns (h': History)
    requires RaftHistory.Inv(s, h) && RaisesCommit(s, x, c, s')
             && Backed(h, s.peers.Keys, s.peers[x].log, c, s.peers[x].term)
    ensures RaftHistory.Inv(s', h') && Decides(h, h')
  {
    hide KeptInv, EndorsedInv, AcksInv, ThronesInv, BidsInv, BallotsInv, NetInv, PeersInv, Rooted, ReignsInv,
         InheritedInv, DecisionsInv;
    var n, members := s.peers[x], s.peers.Keys;
    var t: nat, i: nat :| Chosen(h, members, t, i) && t <= n.term && c <= i && Same(n.log, h.reigns[t].log, c);
    var log := h.reigns[t].log;
    h' := h.(decisions := h.decisions + {Decision(t, i)},
               canon := if |h.canon| < i <= |log| then log[..i] else h.canon);
    hide Grows, Chosen;
    CommitExtends(t, log, i, h, h', members);
    SettledFor(h', i, c, t, n.term);
    SameThrough(n.log, log, h'.canon, c);
    CommitKeeps(s, x, c, s', h, h');
  }

  lemma SettledFor(h: History, c: nat, c': nat, t: nat, t': nat)
    requires Settled(h, c, t) && 0 < c' <= c && t <= t'
    ensures Settled(h, c', t')
  {
  }

  /** What is settled was acknowledged to one leader by a majority. */
  lemma SettledIsBacked(members: set<Id>, h: History, h': History, log: seq<Entry>, c: nat, term: nat)
    requires DecisionsInv(h', members) && Decides(h, h') && Settled(h', c, term) && c > 0 && Same(log, h'.canon, c)
    ensures Backed(h, members, log, c, term)
  {
    hide Grows;
    var e :| e in h'.decisions && e.index >= c && e.term <= term;
    assert DecisionOk(e, h', members);
    SameAcks(h, h', members, e.term, e.index);
    assert Same(log, h.reigns[e.term].log, c);
  }

  lemma SameAcks(h: History, h': History, members: set<Id>, t: nat, i: nat)
    requires h'.reigns == h.reigns && h'.acks == h.acks && Chosen(h', members, t, i)
    ensures Chosen(h, members, t, i)
  {
    var q :| q <= members && 2 * |q| > |members| && AllAcked(h', q, t, i);
    assert AllAcked(h, q, t, i);
  }

  /**
   A scan that moves the commit index, of a leader or not, keeps the invariant for some decisions exactly
   when a majority has acknowledged what it commits to one leader of the node's own term or an earlier one.
   */
  lemma ScanSafeIff(s: System, x: Id, d: Pasts, h: History)
    requires Good(s, d, h) && x in s.nodes && UpdateCommit(s.nodes[x]).commit > s.nodes[x].commit
    ensures x in d
    ensures var n, n' := s.nodes[x], UpdateCommit(s.nodes[x]);
            (exists h' :: Decides(h, h') && Good(Set(s, x, n'), After(d, x, n'), h')) <==>
            Backed(h, s.nodes.Keys, d[x].dropped + n.log, n'.commit, n.term)
  {
    hide Good, UpdateCommit, Decides, Backed;
    KnownKeys(s, d, h, x);
    var n' := UpdateCommit(s.nodes[x]);
    if Backed(h, s.nodes.Keys, d[x].dropped + s.nodes[x].log, n'.commit, s.nodes[x].term) {
      var h' := BackedScan(s, x, d, h);
    }
    if h' :| Decides(h, h') && Good(Set(s, x, n'), After(d, x, n'), h') {
      ScanBacked(s, x, d, h, h');
    }
  }

  lemma KnownKeys(s: System, d: Pasts, h: History, x: Id)
    requires Good(s, d, h) && x in s.nodes
    ensures x in d && x in s.delivered
  {
    hide RaftHistory.Inv, Abs;
  }

  lemma ScanBacked(s: System, x: Id, d: Pasts, h: History, h': History)
    requires x in s.nodes && x in d && UpdateCommit(s.nodes[x]).commit > s.nodes[x].commit && Decides(h, h')
    requires var n' := UpdateCommit(s.nodes[x]); Good(Set(s, x, n'), After(d, x, n'), h')
    ensures Backed(h, s.nodes.Keys, d[x].dropped + s.nodes[x].log, UpdateCommit(s.nodes[x]).commit, s.nodes[x].term)
  {
    hide Good, UpdateCommit, Settled, Rooted, RaftCompaction.Linked, Backed, Decides;
    var n' := UpdateCommit(s.nodes[x]);
    var s', d' := Set(s, x, n'), After(d, x, n');
    ScanKeepsAll(s.nodes[x]);
    RaftSafety.KnownAt(s', d', h', x);
    SettledLess(h', d'[x].peak, n'.commit, n'.term);
    DecisionsKnown(s', d', h');
    assert s'.nodes.Keys == s.nodes.Keys;
    SettledIsBacked(s.nodes.Keys, h, h', d[x].dropped + s.nodes[x].log, n'.commit, n'.term);
  }

  lemma DecisionsKnown(s: System, d: Pasts, h: History)
    requires Good(s, d, h)
    ensures DecisionsInv(h, Abs(s, d).peers.Keys) && Abs(s, d).peers.Keys == s.nodes.Keys
  {
    hide TicketsOk, ReignsInv, BidsInv, BallotsInv, ThronesInv, AcksInv, KeptInv, EndorsedInv, InheritedInv,
         DecisionsInv, NetInv, PeersInv;
  }

  lemma BackedScan(s: System, x: Id, d: Pasts, h: History) returns (h': History)
    requires Good(s, d, h) && x in s.nodes && x in d && UpdateCommit(s.nodes[x]).commit > s.nodes[x].commit
    requires Backed(h, s.nodes.Keys, d[x].dropped + s.nodes[x].log, UpdateCommit(s.nodes[x]).commit, s.nodes[x].term)
    ensures var n' := UpdateCommit(s.nodes[x]); Decides(h, h') && Good(Set(s, x, n'), After(d, x, n'), h')
  {
    hide UpdateCommit, Backed, Abs, NodesOk, Decides, RaisesCommit, RaftHistory.Inv;
    var n' := UpdateCommit(s.nodes[x]);
    var s', d' := Set(s, x, n'), After(d, x, n');
    ScanRaises(s, x, d, h);
    h' := BackedKeeps(Abs(s, d), x, n'.commit, Abs(s', d'), h);
    TicketsStay(s, x, n', h, h');
  }

  lemma TicketsStay(s: System, x: Id, n': Node, h: History, h': History)
    requires TicketsOk(s, h) && x in s.nodes && n'.lastApplied == s.nodes[x].lastApplied && Decides(h, h')
    ensures TicketsOk(Set(s, x, n'), h')
  {
    forall t | t in s.tickets ensures TicketOk(t, Set(s, x, n'), h') { assert TicketOk(t, s, h); }
  }

  /** To the protocol, the scan raises the commit index of x and does nothing else. */
  lemma ScanRaises(s: System, x: Id, d: Pasts, h: History)
    requires Good(s, d, h) && x in s.nodes && x in d && UpdateCommit(s.nodes[x]).commit > s.nodes[x].commit
    ensures var n' := UpdateCommit(s.nodes[x]);
            var s', d' := Set(s, x, n'), After(d, x, n');
            && NodesOk(s', d') && n'.lastApplied == s.nodes[x].lastApplied
            && x in Abs(s, d).peers && Abs(s, d).peers[x].log == d[x].dropped + s.nodes[x].log
            && Abs(s, d).peers[x].term == s.nodes[x].term && Abs(s, d).peers.Keys == s.nodes.Keys
            && RaisesCommit(Abs(s, d), x, n'.commit, Abs(s', d'))
  {
    hide RaftHistory.Inv, UpdateCommit, RaftCompaction.Linked, PeerOk, Good, NodesOk, NodeOk, Abs;
    var n, n' := s.nodes[x], UpdateCommit(s.nodes[x]);
    var s', d' := Set(s, x, n'), After(d, x, n');
    KnownPeer(s, d, h, x);
    NodesKnown(s, d, h);
    ScanKeepsAll(n);
    CommitNodeOk(x, n, n'.commit, d[x], s.delivered[x], s.nodes.Keys);
    AbsSet(s, d, s', d', x);
    NodesSet(s, d, s', d', x);
    WholeLength(n, d[x].dropped);
    AbsNets(s, d, s', d');
  }

  lemma AbsNets(s: System, d: Pasts, s': System, d': Pasts)
    requires s'.net == s.net
    ensures Abs(s', d').net == Abs(s, d).net
  {
  }

  lemma CommitNodeOk(x: Id, n: Node, c: nat, p: Past, applied: seq<Entry>, members: set<Id>)
    requires NodeOk(x, n, p, applied, members)
    ensures NodeOk(x, n.(commit := c), Note(p, n.(commit := c)), applied, members)
  {
  }

  lemma NodesKnown(s: System, d: Pasts, h: History)
    requires Good(s, d, h)
    ensures NodesOk(s, d) && s.nodes.Keys == s.delivered.Keys == d.Keys
  {
    hide NodeOk, TicketsOk, RaftHistory.Inv;
  }

  lemma WholeLength(n: Node, d: seq<Entry>)
    requires RaftCompaction.Linked(n, d)
    ensures LogLen(n) == |d + n.log|
  {
  }

  lemma ScanKeepsAll(n: Node)
    ensures UpdateCommit(n) == n.(commit := UpdateCommit(n).commit)
            && UpdateCommit(n).commit <= Max(n.commit, LogLen(n))
  {
    hide Committable;
    ScanIsLargest(n, LogLen(n));
  }

  lemma ScanKeepsLog(n: Node)
    ensures UpdateCommit(n).log == n.log
  {
  }

  lemma SettledLess(h: History, c: nat, c': nat, t: nat)
    requires Settled(h, c, t) && c' <= c
    ensures Settled(h, c', t)
  {
  }
}
