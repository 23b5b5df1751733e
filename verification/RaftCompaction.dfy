/**
 Compaction is invisible: a node that dropped a log prefix answers as the node that kept it.
 */
module RaftCompaction {
  import opened Options
  import opened RaftTypes
  import opened RaftNode
  import opened LogFilter

  /** The snapshot boundary is where the dropped prefix `d` ends. */
  ghost predicate Bounded(n: Node, d: seq<Entry>) {
    |d| == n.offset == n.snapIndex && n.snapTerm == LastTerm(d)
  }

  /** The stated offset invariant, with the dropped prefix `d` named. */
  ghost predicate Linked(n: Node, d: seq<Entry>) {
    && Bounded(n, d)
    && (forall k :: 0 <= k < |d| ==> d[k].index == k + 1)
    && (forall k :: 0 <= k < |n.log| ==> n.log[k].index == n.offset + k + 1)
  }

  /** The same node, had it never compacted. */
  ghost function Whole(n: Node, d: seq<Entry>): Node {
    n.(log := d + n.log, offset := 0, snapIndex := 0, snapTerm := 0)
  }

  lemma LogView(n: Node, d: seq<Entry>)
    requires Linked(n, d)
    ensures Linked(Whole(n, d), [])
    ensures LogLen(n) == LogLen(Whole(n, d)) == |d + n.log|
    ensures LastIndexTerm(n) == LastIndexTerm(Whole(n, d)) == (|d + n.log|, LastTerm(d + n.log))
    ensures forall i :: i == 0 || i >= n.snapIndex ==> TermAt(n, i) == TermAt(Whole(n, d), i)
    ensures forall i :: n.snapIndex < i ==> EntryAt(n, i) == EntryAt(Whole(n, d), i)
    ensures forall i :: 0 < i < n.snapIndex ==> TermAt(n, i) == None && TermAt(Whole(n, d), i) == Some(d[i - 1].term)
  {
  }

  /** Pre-votes and votes: the same answer, and the same node afterwards. */
  lemma VotesAlike(n: Node, d: seq<Entry>, req: VoteRequest, recent: bool)
    requires Linked(n, d)
    ensures GrantsPreVote(n, req, recent) == GrantsPreVote(Whole(n, d), req, recent)
    ensures var r, w := OnVoteRequest(n, req), OnVoteRequest(Whole(n, d), req);
            r.granted == w.granted && r.term == w.term && Whole(r.node, d) == w.node && Linked(r.node, d)
  {
    LogView(n, d);
  }

  /** A granted pre-vote is a promise: the real request in that later term would be granted. */
  lemma PreVotePromise(n: Node, req: VoteRequest, recent: bool)
    requires req.term > n.term
    ensures GrantsPreVote(n, req, recent) ==> OnVoteRequest(n, req).granted
  {
  }

  /** The commit scan of a leader whose snapshot lies below its commit index. */
  lemma {:induction false} ScansAlike(n: Node, d: seq<Entry>, upTo: nat)
    requires Linked(n, d) && n.commit >= n.snapIndex
    ensures ScanCommit(n, upTo) == ScanCommit(Whole(n, d), upTo)
    decreases upTo
  {
    if upTo > n.commit {
      LogView(n, d);
      CountsAlike(n, Whole(n, d), upTo, n.peers);
      ScansAlike(n, d, upTo - 1);
    }
  }

  lemma {:induction false} CountsAlike(n: Node, w: Node, i: nat, peers: seq<Id>)
    requires n.matchIndex == w.matchIndex
    ensures CountMatches(n, i, peers) == CountMatches(w, i, peers)
  {
    if peers != [] { CountsAlike(n, w, i, peers[..|peers| - 1]); }
  }

  /** Entries that a request repeats from the dropped prefix carry the terms they had. */
  ghost predicate Repeats(d: seq<Entry>, first: nat, entries: seq<Entry>) {
    forall k :: 0 <= k < |entries| && 1 <= first + k <= |d| ==> d[first + k - 1].term == entries[k].term
  }

  lemma {:induction false} AbsorbsAlike(log: seq<Entry>, d: seq<Entry>, first: nat, entries: seq<Entry>, ops: nat)
    requires 1 <= first <= |d| + |log| + 1 && Repeats(d, first, entries)
    ensures var r := AbsorbEntries(log, |d|, first, entries, ops);
            AbsorbEntries(d + log, 0, first, entries, ops) == Absorbed(d + r.log, r.ok)
    decreases |entries|
  {
    if entries != [] {
      var e, rest := entries[0], entries[1..];
      assert Repeats(d, first + 1, rest);
      if first <= |d| {
        assert (d + log)[first - 1].term == e.term;
        AbsorbsAlike(log, d, first + 1, rest, ops);
      } else if first <= |d| + |log| {
        if log[first - 1 - |d|].term == e.term {
          AbsorbsAlike(log, d, first + 1, rest, ops);
        } else {
          var cut := log[..first - 1 - |d|];
          assert TruncateSliceAfter(log, |d|, first - 1) == cut;
          assert TruncateSliceAfter(d + log, 0, first - 1) == d + cut;
          if ops >= 2 {
            assert d + cut + [e] == d + (cut + [e]);
            AbsorbsAlike(cut + [e], d, first + 1, rest, ops - 2);
          }
        }
      } else if ops > 0 {
        assert d + log + [e] == d + (log + [e]);
        AbsorbsAlike(log + [e], d, first + 1, rest, ops - 1);
      }
    }
  }

  /**
   AppendEntries: below the snapshot the compacted node refuses; from the snapshot on, or from
   the very start of the log, it does what the uncompacted node does.
   */
  lemma AppendsAlike(n: Node, d: seq<Entry>, req: AppendRequest, ops: nat)
    requires Linked(n, d) && Repeats(d, req.prevIndex + 1, req.entries)
    requires req.prevIndex == 0 || req.prevIndex >= n.snapIndex
    ensures var r, w := OnAppendRequest(n, req, ops), OnAppendRequest(Whole(n, d), req, ops);
            r.success == w.success && r.term == w.term && Whole(r.node, d) == w.node
            && r.node.offset == n.offset && r.node.snapIndex == n.snapIndex && r.node.snapTerm == n.snapTerm
  {
    hide AbsorbEntries;
    if req.term >= n.term {
      var m := Hear(n, req);
      assert Whole(m, d) == Hear(Whole(n, d), req);
      LogView(m, d);
      if req.prevIndex == 0 || TermAt(m, req.prevIndex) == Some(req.prevTerm) {
        AbsorbsAlike(m.log, d, req.prevIndex + 1, req.entries, ops);
      }
    }
  }

  lemma AppendsBelow(n: Node, d: seq<Entry>, req: AppendRequest, ops: nat)
    requires Linked(n, d) && 0 < req.prevIndex < n.snapIndex && req.term >= n.term
    ensures OnAppendRequest(n, req, ops) == AppendOutcome(Hear(n, req), n.term, false)
  {
  }

  /** Dropping a prefix whose boundary term is right leaves the whole log what it was. */
  lemma DropKeepsWhole(n: Node, d: seq<Entry>, index: nat, term: nat) returns (d': seq<Entry>)
    requires Linked(n, d) && index <= LogLen(n) && (index > 0 ==> (d + n.log)[index - 1].term == term)
    ensures d' == if index <= n.snapIndex then d else (d + n.log)[..index]
    ensures Linked(CompactDrop(n, index, term), d') && Whole(CompactDrop(n, index, term), d') == Whole(n, d)
  {
    d' := if index <= n.snapIndex then d else (d + n.log)[..index];
    if index > n.snapIndex {
      var keep := n.log[index - n.offset..];
      assert CompactDrop(n, index, term).log == keep;
      assert d' + keep == d + n.log;
      forall k | 0 <= k < |d'| ensures d'[k].index == k + 1 {
        if k >= |d| { assert d'[k] == n.log[k - |d|]; }
      }
    }
  }

  /** What an installed snapshot leaves of the log: what lies behind its index. */
  lemma InstalledLog(n: Node, d: seq<Entry>, index: nat, term: nat)
    requires Linked(n, d) && n.snapIndex < index
    ensures InstallSnapshot(n, index, term).log == if index < |d + n.log| then (d + n.log)[index..] else []
  {
    hide Filter;
    assert InOrder(n.log, n.offset);
    FromIsSuffix(index + 1, n.log, n.offset);
    assert index < |d + n.log| ==> n.log[index - n.offset..] == (d + n.log)[index..];
  }

  /**
   Installing a snapshot whose prefix is d' leaves a log that starts right behind it: the offset invariant
   holds with d', the length is the old one or the snapshot's, whichever is more, and commit and applied
   index rise to the snapshot's and no further.
   */
  lemma InstallLinks(n: Node, d: seq<Entry>, d': seq<Entry>, index: nat, term: nat)
    requires Linked(n, d) && n.snapIndex < index == |d'| && LastTerm(d') == term
    requires forall k :: 0 <= k < |d'| ==> d'[k].index == k + 1
    ensures var m := InstallSnapshot(n, index, term);
            && Linked(m, d') && LogLen(m) == Max(LogLen(n), index)
            && m.log == (if index < LogLen(n) then (d + n.log)[index..] else [])
            && m.commit == Max(n.commit, index) && m.lastApplied == Max(n.lastApplied, index)
            && (n.lastApplied <= n.commit ==> m.snapIndex == m.offset <= m.lastApplied <= m.commit)
            && (n.commit <= LogLen(n) ==> m.commit <= LogLen(m))
            && m == n.(snapIndex := index, snapTerm := term, offset := index, log := m.log, commit := m.commit,
                       lastApplied := m.lastApplied)
  {
    hide Filter;
    InstalledLog(n, d, index, term);
    if index <= |d + n.log| { SuffixOrdered(n, d, index); }
  }

  lemma SuffixOrdered(n: Node, d: seq<Entry>, index: nat)
    requires Linked(n, d) && n.offset <= index <= |d + n.log|
    ensures forall k :: 0 <= k < |(d + n.log)[index..]| ==> (d + n.log)[index..][k].index == index + k + 1
  {
    forall k | 0 <= k < |(d + n.log)[index..]| ensures (d + n.log)[index..][k].index == index + k + 1 {
      assert (d + n.log)[index..][k] == n.log[index + k - n.offset];
    }
  }
}
