/**
 A submission is visible to replication before it is persisted (internal/zero/raft/lifecycle.go:94-116):
 how much of the log a crash leaves, by the length that has been persisted.
 */
module PersistOrder {
  import opened Options
  import opened RaftTypes
  import opened RaftNode
  import opened LogFilter
  import opened KeyReplay
  import opened Recovery

  /** How far the write-ahead log has come along the history. */
  function PersistedAfter(p: nat, ev: Event): nat {
    match ev
    case Append(_) => p + 1
    case Store(_) => p + 1
    case Truncate(last) => Min(p, last)
    case _ => p
  }

  function PersistedOf(evs: seq<Event>): nat {
    if evs == [] then 0 else PersistedAfter(PersistedOf(evs[..|evs| - 1]), evs[|evs| - 1])
  }

  /** What is written is the next entry of the history, and no cut of the file fails. */
  ghost predicate Turn(hist: seq<Entry>, p: nat, ev: Event) {
    match ev
    case Append(_) => p == |hist|
    case Store(e) => p < |hist| && hist[p] == e
    case CutMemory(_) => false
    case Restart => false
    case _ => true
  }

  ghost predicate InTurn(v: Env, before: seq<Event>, ev: Event) {
    Turn(TraceOf(v, before).hist, PersistedOf(before), ev)
  }

  ghost predicate Orderly(v: Env, evs: seq<Event>) {
    forall i :: 0 <= i < |evs| ==> InTurn(v, evs[..i], evs[i])
  }

  /** The file holds the history from `from` up to the persisted length. */
  ghost predicate Behind(t: Trace, from: nat, p: nat) {
    && InOrder(t.hist, 0) && from <= p <= |t.hist| && from <= t.base <= |t.hist|
    && t.records == t.hist[from..p]
  }

  lemma BehindRecovers(t: Trace, from: nat, p: nat)
    requires Behind(t, from, p)
    ensures Recovered(t) == t.hist[..Max(t.base, p)]
  {
    hide Filter;
    FromIsSuffix(t.base + 1, t.records, from);
    if t.base <= p {
      assert t.records[t.base - from..] == t.hist[t.base..p];
      assert t.hist[..t.base] + t.hist[t.base..p] == t.hist[..p];
    } else {
      assert t.hist[..t.base] + [] == t.hist[..t.base];
    }
  }

  lemma WriteBehind(t: Trace, from: nat, p: nat)
    requires Behind(t, from, p) && p < |t.hist|
    ensures Behind(t.(records := t.records + [t.hist[p]]), from, p + 1)
  {
    assert t.hist[from..p] + [t.hist[p]] == t.hist[from..p + 1];
  }

  lemma PublishBehind(t: Trace, from: nat, p: nat, e: Entry)
    requires Behind(t, from, p) && e.index == |t.hist| + 1
    ensures Behind(t.(hist := t.hist + [e]), from, p)
  {
    assert (t.hist + [e])[from..p] == t.hist[from..p];
  }

  lemma CutBehind(t: Trace, from: nat, p: nat, last: nat)
    requires Behind(t, from, p) && t.base <= last <= |t.hist|
    ensures Behind(Trace(t.hist[..last], t.base, Filter(UpTo(last), t.records)), from, Min(p, last))
  {
    hide Filter;
    var q := Min(p, last);
    UpToIsPrefix(last, t.records, from);
    assert Below(t.records, from, last + 1) == q - from;
    assert t.hist[from..p][..q - from] == t.hist[from..q];
    assert t.hist[..last][from..q] == t.hist[from..q];
  }

  lemma TrimBehind(t: Trace, from: nat, p: nat)
    requires Behind(t, from, p)
    ensures Behind(t.(records := Beyond(t.base, t.records)), Min(t.base, p), p)
  {
    hide Filter;
    FromIsSuffix(t.base + 1, t.records, from);
    assert t.base <= p ==> t.records[t.base - from..] == t.hist[t.base..p];
  }

  function FromNow(m: Machine, from: nat, p: nat, ev: Event): nat {
    if ev.Trim? && m.stage.Dropped? then Min(m.stage.index, p) else from
  }

  lemma StepBehind(v: Env, m: Machine, t: Trace, from: nat, p: nat, ev: Event)
    requires Placed(v, m, t, ev) && Behind(t, from, p) && Turn(t.hist, p, ev)
    ensures Behind(TraceAfter(v, m, t, ev), FromNow(m, from, p, ev), PersistedAfter(p, ev))
  {
    hide AfterSave, Filter, InOrder;
    match ev
    case Append(e) =>
      PublishBehind(t, from, p, e);
      WriteBehind(t.(hist := t.hist + [e]), from, p);
    case Publish(e) => PublishBehind(t, from, p, e);
    case Store(e) => WriteBehind(t, from, p);
    case Truncate(last) => CutBehind(t, from, p, last);
    case Trim => if m.stage.Dropped? { TrimBehind(t, from, p); }
    case _ =>
  }

  lemma {:induction false} StaysBehind(v: Env, evs: seq<Event>) returns (from: nat)
    requires EnvOk(v) && Runs(v, evs) && Orderly(v, evs)
    ensures Behind(TraceOf(v, evs), from, PersistedOf(evs))
  {
    hide After, Allowed, TraceAfter, Inv, Placed, Behind, Turn;
    if evs == [] {
      from := 0;
      Nothing();
    } else {
      var init, ev := evs[..|evs| - 1], evs[|evs| - 1];
      forall i | 0 <= i < |init| ensures InTurn(v, init[..i], init[i]) {
        assert init[..i] == evs[..i];
        assert InTurn(v, evs[..i], evs[i]);
      }
      from := StaysBehind(v, init);
      RunKeeps(v, init);
      var m, t := MachineAfter(v, init), TraceOf(v, init);
      EventPlaced(v, m, t, ev);
      assert InTurn(v, evs[..|evs| - 1], evs[|evs| - 1]);
      StepBehind(v, m, t, from, PersistedOf(init), ev);
      from := FromNow(m, from, PersistedOf(init), ev);
    }
  }

  lemma Nothing()
    ensures Behind(Trace([], 0, []), 0, 0)
  {
  }

  /** The node holds the log up to index c, in its snapshot or behind it. */
  ghost predicate HoldsUpTo(n: Node, log: seq<Entry>, c: nat) {
    c <= LogLen(n) && c <= |log| && forall i :: n.offset < i <= c ==> EntryAt(n, i) == Some(log[i - 1])
  }

  /**
   Submissions persisted in their order, at any delay, with replication, application and compaction in
   between: a crash leaves exactly the history up to what the file or the snapshot has reached, so that
   any prefix of it, the committed one in particular, survives exactly when they have reached that far.
   */
  lemma CrashKeepsIff(v: Env, evs: seq<Event>, c: nat)
    requires EnvOk(v) && Runs(v, evs) && Orderly(v, evs) && c <= |TraceOf(v, evs).hist|
    ensures var m, t := MachineAfter(v, evs), TraceOf(v, evs);
            var kept := Max(t.base, PersistedOf(evs));
            && kept <= |t.hist| && Load(v, m.snap, m.wal).Some?
            && var (node, cache) := Load(v, m.snap, m.wal).value;
               && Explains(v, t.hist[..kept], node, cache) && LogLen(node) == kept
               && (HoldsUpTo(node, t.hist, c) <==> c <= kept)
  {
    hide Load, Replay, Runs, Orderly, MachineAfter, TraceOf, PersistedOf, Filter;
    FilesDecide(v, evs);
    var from := StaysBehind(v, evs);
    BehindRecovers(TraceOf(v, evs), from, PersistedOf(evs));
  }
}
