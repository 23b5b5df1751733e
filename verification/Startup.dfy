/** Start-up from disk as the source runs it (internal/zero/raft/persistence.go), and replicas compared. */
module Startup {
  import opened Options
  import opened Bytes
  import opened RaftTypes
  import opened RaftNode
  import opened RaftServer
  import opened RaftSystem
  import opened KeyCache
  import opened KeyReplay
  import opened Recovery
  import RaftFindings
  import RaftSafety
  import SnapshotFile
  import WalFormat
  import Wal

  /**
   Both files are read and checked before the cache or the node is touched. installer says whether the
   state machine has registered one, drained whether it reads all the bytes it is given; one that does
   not has changed the cache by the time that is noticed, and the node stays as it was.
   */
  method LoadFromDisk(v: Env, server: Server, cluster: Cluster, log: Wal.Log, snap: Option<seq<Byte>>,
                      installer: bool, drained: bool) returns (ok: bool)
    requires log.Valid() && log.c == v.wal && server.View() == Blank(v) && cluster.View() == Cache(map[], 0)
    modifies server, cluster
    ensures ok == (Loadable(v, log, snap, installer) && (snap.Some? ==> drained))
    ensures ok ==> Load(v, snap, log.file) == Some((server.View(), cluster.View()))
    ensures !ok ==> server.View() == Blank(v)
    ensures !ok ==> cluster.View() == if Loadable(v, log, snap, installer) then Load(v, snap, log.file).value.1
            else Cache(map[], 0)
  {
    hide WalFormat.Read, SnapshotFile.Load, Replayed;
    var meta := None;
    if snap.Some? {
      meta := SnapshotFile.LoadSnapshotReader(v.step, snap.value);
      if meta.None? { return false; }
    }
    if meta.Some? && !installer { return false; }
    var read := log.ReadAllLocked();
    if read.None? { return false; }
    var r := read.value;
    if r.status == WalFormat.Tampered { return false; }
    if meta.Some? {
      ok := cluster.InstallKeySnapshot(v.payload, meta.value.data, meta.value.index);
      if !ok { return; }
      if !drained { return false; }
      Adopt(server, meta.value.index, meta.value.term);
    }
    AppendReplayed(server, r.entries);
    ok := true;
  }

  /** Everything that is checked before the first change. */
  predicate Loadable(v: Env, log: Wal.Log, snap: Option<seq<Byte>>, installer: bool)
    reads log
  {
    log.handle == Wal.Live && (snap.Some? ==> installer) && Load(v, snap, log.file).Some?
  }

  method Adopt(server: Server, index: nat, term: nat)
    modifies server
    ensures server.View() == AtSnapshot(old(server.View()), index, term)
  {
    server.snapIndex, server.snapTerm := index, term;
    server.offset, server.commit, server.lastApplied := index, index, index;
    if term > server.term { server.term := term; }
  }

  method AppendReplayed(server: Server, entries: seq<Entry>)
    modifies server`log, server`term
    ensures server.View() == Replayed(old(server.View()), entries)
  {
    ghost var was := server.View();
    assert entries[..0] == [];
    for i := 0 to |entries|
      invariant server.View() == Replayed(was, entries[..i])
    {
      var e := entries[i];
      assert entries[..i + 1][..i] == entries[..i] && entries[..i + 1][i] == e;
      if e.index > server.snapIndex {
        server.log := server.log + [e];
        if e.term > server.term { server.term := e.term; }
      }
    }
    assert entries[..|entries|] == entries;
  }

  /**
   In every run of the cluster, the caches of any two nodes at any two moments that have been handed
   equally many commands are equal; of two that have not, the one behind holds nothing newer.
   */
  lemma CachesAgree(d: Decoder, states: seq<System>, actions: seq<Action>, i: nat, j: nat, x: Id, y: Id)
    requires Run(states, actions) && i < |states| && j < |states| && x in states[i].nodes && y in states[j].nodes
    ensures x in states[i].delivered && y in states[j].delivered
    ensures var a, b := states[i].delivered[x], states[j].delivered[y];
            && (|a| <= |b| ==> NoNewer(Replay(d, a), Replay(d, b)))
            && (|a| == |b| ==> Replay(d, a) == Replay(d, b))
  {
    hide Run, NoNewer, Replay;
    if i <= j { RaftSafety.DeliveriesAgree(states, actions, i, j, x, y); }
    else { RaftSafety.DeliveriesAgree(states, actions, j, i, y, x); }
    var a, b := states[i].delivered[x], states[j].delivered[y];
    if |a| <= |b| {
      assert a == b[..|a|];
      ReplayGrows(d, b, |a|);
      assert b[..|b|] == b;
    }
  }

  lemma {:induction false} ReplayedTerms(n: Node, es: seq<Entry>)
    requires n.log == [] && n.term == n.snapTerm
    ensures var m := Replayed(n, es);
            m == n.(log := m.log, term := RaftFindings.MaxTerm(m.log, n.snapTerm))
  {
    if es != [] {
      var init, e := es[..|es| - 1], es[|es| - 1];
      ReplayedTerms(n, init);
      hide RaftFindings.MaxTerm;
      MaxTermSnoc(Replayed(n, init).log, e, n.snapTerm);
    } else {
      assert RaftFindings.MaxTerm([], n.snapTerm) == n.snapTerm;
    }
  }

  lemma MaxTermSnoc(log: seq<Entry>, e: Entry, least: nat)
    ensures RaftFindings.MaxTerm(log + [e], least) == Max(RaftFindings.MaxTerm(log, least), e.term)
  {
    assert (log + [e])[..|log|] == log;
  }

  /**
   A node that start-up gives back is a follower without a vote or a known leader, in the latest term that
   its snapshot and log carry, with everything up to the snapshot committed and applied.
   */
  lemma LoadedRestarts(v: Env, snap: Option<seq<Byte>>, wal: seq<Byte>)
    requires Load(v, snap, wal).Some?
    ensures var node := Load(v, snap, wal).value.0;
            && node == RaftFindings.Restart(node) && node.id == v.id && node.peers == v.peers
            && (snap.None? ==> node.snapIndex == 0)
            && (snap.Some? ==>
                  && SnapshotFile.Load(v.step, snap.value).Some?
                  && node.snapIndex == SnapshotFile.Load(v.step, snap.value).value.index
                  && node.snapTerm == SnapshotFile.Load(v.step, snap.value).value.term)
  {
    hide WalFormat.Read, SnapshotFile.Load, Replayed;
    var es := WalFormat.Read(v.wal, wal).entries;
    if snap.None? {
      ReplayedTerms(Blank(v), es);
    } else {
      var s := SnapshotFile.Load(v.step, snap.value).value;
      ReplayedTerms(AtSnapshot(Blank(v), s.index, s.term), es);
    }
  }
}
