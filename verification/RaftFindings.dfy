/**
 Where the code falls short of the protocol and the runs of RaftSystem keep clear of it: for each, a
 concrete case and the exact condition. The late commit scan and the rollback of a submission have
 modules of their own (RaftLateScan, RaftRollback, RaftRace).
 */
module RaftFindings {
  import opened RaftTypes
  import opened RaftNode
  import opened LogFilter
  import RaftCompaction

  // ---- An installed snapshot keeps a suffix it has not compared ------------------------------

  /** Logs that share the term of an entry agree up to it. */
  ghost predicate Matching(a: seq<Entry>, b: seq<Entry>) {
    forall k :: 0 <= k < |a| && k < |b| && a[k].term == b[k].term ==> AgreeThrough(a, b, k)
  }

  ghost predicate AgreeThrough(a: seq<Entry>, b: seq<Entry>, k: nat) {
    Same(a, b, k + 1)
  }

  /**
   A follower that may have compacted before, and a leader's log that matches it. After the follower
   installs the leader's snapshot at `index`, its whole log matches the leader's and its own former log
   exactly when it held nothing beyond `index` or already agreed with the leader there.
   */
  lemma InstallMatchesIff(n: Node, d: seq<Entry>, lead: seq<Entry>, index: nat)
    requires RaftCompaction.Linked(n, d) && n.snapIndex < index <= |lead| && Matching(d + n.log, lead)
    ensures var whole := lead[..index] + InstallSnapshot(n, index, lead[index - 1].term).log;
            Matching(whole, lead) && Matching(whole, d + n.log) <==>
              |d + n.log| <= index || (d + n.log)[index - 1].term == lead[index - 1].term
  {
    hide Filter;
    var had := d + n.log;
    FromIsSuffix(index + 1, n.log, n.offset);
    var whole := lead[..index] + InstallSnapshot(n, index, lead[index - 1].term).log;
    if |had| <= index {
      assert whole == lead[..index];
      assert Matching(whole, lead) && Matching(whole, had) by { PrefixMatches(had, lead, index); }
    } else {
      assert InstallSnapshot(n, index, lead[index - 1].term).log == n.log[index - n.offset..] == had[index..];
      if had[index - 1].term == lead[index - 1].term {
        assert AgreeThrough(had, lead, index - 1);
        assert lead[..index] == had[..index];
        assert had == had[..index] + had[index..];
        assert whole == had;
      } else {
        assert whole[index] == had[index] && whole[index - 1] != had[index - 1];
        assert !AgreeThrough(whole, had, index);
        assert !Matching(whole, had);
      }
    }
  }

  lemma PrefixMatches(a: seq<Entry>, b: seq<Entry>, i: nat)
    requires Matching(a, b) && i <= |b|
    ensures Matching(b[..i], b) && Matching(b[..i], a)
  {
    forall k | 0 <= k < i && k < |a| && b[..i][k].term == a[k].term ensures AgreeThrough(b[..i], a, k) {
      assert AgreeThrough(a, b, k);
    }
  }

  /** A follower that ends up with an entry of an old term on top of a prefix that term never had. */
  lemma InstallBreaksMatching() returns (n: Node, lead: seq<Entry>)
    ensures |lead| == 1
    ensures var whole := lead[..1] + InstallSnapshot(n, 1, lead[0].term).log;
            && |n.log| == |whole| == 2 && whole[1] == n.log[1] && whole[0] != n.log[0]
  {
    var old1, old2 := Entry(1, 1, "a"), Entry(2, 1, "b");
    n := Node("x", ["y", "z"], Follower, 1, "", "", [old1, old2], 0, 0, 0, 0, 0, map[], map[]);
    lead := [Entry(1, 2, "c")];
    FromIsSuffix(2, n.log, 0);
  }

  // ---- A restart forgets the vote -------------------------------------------------------------

  function MaxTerm(log: seq<Entry>, least: nat): nat {
    if log == [] then least else Max(log[|log| - 1].term, MaxTerm(log[..|log| - 1], least))
  }

  /** A node back from disk: the snapshot boundary, the log, and a term rebuilt from their entries. */
  function Restart(n: Node): Node {
    Node(n.id, n.peers, Follower, MaxTerm(n.log, n.snapTerm), "", "", n.log, n.snapIndex, n.snapIndex, n.snapTerm,
         n.snapIndex, n.snapIndex, map[], map[])
  }

  /**
   A request the node would have refused for its term or its vote is granted after a restart exactly
   when its term is not below the terms on disk and the log check passes.
   */
  lemma RestartGrantsIff(n: Node, req: VoteRequest)
    requires req.term < n.term || (req.term == n.term && n.votedFor != "" && n.votedFor != req.candidate)
    ensures !OnVoteRequest(n, req).granted
    ensures OnVoteRequest(Restart(n), req).granted <==>
              req.term >= MaxTerm(n.log, n.snapTerm) && IsLogUpToDate(n, req.lastIndex, req.lastTerm)
  {
  }

  /** One node, one term, two candidates. */
  lemma RestartVotesTwice() returns (n: Node, first: VoteRequest, second: VoteRequest)
    ensures first.term == second.term && first.candidate != second.candidate
    ensures var r := OnVoteRequest(n, first); r.granted && OnVoteRequest(Restart(r.node), second).granted
  {
    n := Node("x", ["y", "z"], Follower, 0, "", "", [], 0, 0, 0, 0, 0, map[], map[]);
    first, second := VoteRequest(1, "y", 0, 0), VoteRequest(1, "z", 0, 0);
  }
}
