/** Records that the raft package stores and exchanges (internal/zero/raft/raft.go). */
module RaftTypes {

  type Id = string

  datatype Entry = Entry(index: nat, term: nat, command: string)

  datatype Role = Follower | Candidate | Leader

  datatype VoteRequest = VoteRequest(term: nat, candidate: Id, lastIndex: nat, lastTerm: nat)

  datatype AppendRequest = AppendRequest(
    term: nat, leader: Id, prevIndex: nat, prevTerm: nat, entries: seq<Entry>, leaderCommit: nat)

  /** A reply travels on the connection of its request, so it carries the request it answers. */
  datatype Msg =
    | VoteAsk(to: Id, vote: VoteRequest)
    | VoteReply(from: Id, vote: VoteRequest, term: nat, granted: bool)
    | AppendAsk(to: Id, append: AppendRequest)
    | AppendReply(from: Id, append: AppendRequest, term: nat, success: bool)

  /** Reading a Go map: an absent key reads as zero. */
  function Lookup(m: map<Id, nat>, k: Id): nat {
    if k in m then m[k] else 0
  }

  function Min(a: nat, b: nat): nat {
    if a < b then a else b
  }

  function Max(a: nat, b: nat): nat {
    if a < b then b else a
  }

  /** The two sequences both reach position n and hold the same first n elements. */
  predicate Same<T(==)>(a: seq<T>, b: seq<T>, n: nat) {
    n <= |a| && n <= |b| && forall k :: 0 <= k < n ==> a[k] == b[k]
  }

  function LastTerm(log: seq<Entry>): nat {
    if log == [] then 0 else log[|log| - 1].term
  }

  /** Two majorities of one electorate share a member. */
  lemma MajoritiesMeet(all: set<Id>, a: set<Id>, b: set<Id>) returns (v: Id)
    requires a <= all && b <= all
    requires 2 * |a| > |all| && 2 * |b| > |all|
    ensures v in a && v in b
  {
    SubsetSize(a + b, all);
    assert |a + b| + |a * b| == |a| + |b|;
    v :| v in a * b;
  }

  lemma SubsetSize<T>(a: set<T>, b: set<T>)
    requires a <= b
    ensures |a| <= |b|
  {
    assert b == a + (b - a);
  }
}
