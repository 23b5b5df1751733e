/**
 Log writes and cuts that fail after they took effect on one side only, in memory or in the file
 (internal/zero/raft/persistence.go, wal_append.go, wal_truncate.go): when start-up still recovers the log.
 */
module FailedWrites {
  import opened RaftTypes
  import opened LogFilter
  import opened KeyReplay
  import opened Recovery
  import WalFormat

  /** The elements of a stand in b, in that order. */
  ghost predicate Within(a: seq<Entry>, b: seq<Entry>) {
    a == [] || (b != [] && if a[|a| - 1] == b[|b| - 1] && Within(a[..|a| - 1], b[..|b| - 1]) then true
        else Within(a, b[..|b| - 1]))
  }

  lemma {:induction false} WithinSize(a: seq<Entry>, b: seq<Entry>)
    requires Within(a, b)
    ensures |a| <= |b| && (|a| == |b| ==> a == b)
  {
    if a != [] {
      if a[|a| - 1] == b[|b| - 1] && Within(a[..|a| - 1], b[..|b| - 1]) {
        WithinSize(a[..|a| - 1], b[..|b| - 1]);
      } else {
        WithinSize(a, b[..|b| - 1]);
      }
    }
  }

  lemma {:induction false} WithinFilter(k: Keep, a: seq<Entry>, b: seq<Entry>)
    requires Within(a, b)
    ensures Within(Filter(k, a), Filter(k, b))
  {
    if a != [] {
      var a', b' := a[..|a| - 1], b[..|b| - 1];
      if a[|a| - 1] == b[|b| - 1] && Within(a', b') {
        WithinFilter(k, a', b');
        WithinSame(Filter(k, a'), Filter(k, b'), a[|a| - 1]);
      } else {
        WithinFilter(k, a, b');
        WithinMore(Filter(k, a), Filter(k, b'), b[|b| - 1]);
      }
    }
  }

  lemma WithinSame(a: seq<Entry>, b: seq<Entry>, e: Entry)
    requires Within(a, b)
    ensures Within(a + [e], b + [e])
  {
    assert (a + [e])[..|a|] == a && (b + [e])[..|b|] == b;
  }

  lemma WithinMore(a: seq<Entry>, b: seq<Entry>, e: Entry)
    requires Within(a, b)
    ensures Within(a, b + [e])
  {
    assert (b + [e])[..|b|] == b;
  }

  lemma {:induction false} WithinLess(a: seq<Entry>, b: seq<Entry>, n: nat)
    requires Within(a, b) && n <= |a|
    ensures Within(a[..n], b)
    decreases |b|
  {
    if n == |a| {
      assert a[..n] == a;
    } else {
      var a', b' := a[..|a| - 1], b[..|b| - 1];
      assert a'[..n] == a[..n] && b == b' + [b[|b| - 1]];
      if a[|a| - 1] == b[|b| - 1] && Within(a', b') { WithinLess(a', b', n); } else { WithinLess(a, b', n); }
      WithinMore(a[..n], b', b[|b| - 1]);
    }
  }

  lemma {:induction false} FilterWithin(k: Keep, b: seq<Entry>)
    ensures Within(Filter(k, b), b)
  {
    if b != [] {
      var b', e := b[..|b| - 1], b[|b| - 1];
      FilterWithin(k, b');
      assert b == b' + [e];
      if Keeps(k, e) { WithinSame(Filter(k, b'), b', e); } else { WithinMore(Filter(k, b'), b', e); }
    }
  }

  // ---- How much of the history the file has taken ----------------------------------------------------

  /**
   The length of the history that has reached the file in its order, whatever else the file holds. An
   append reaches it if nothing before is missing there, a record alone if it is the next one; a cut of
   memory or of both takes it back, and after a restart the history is what the files hold.
   */
  function ReachedAfter(t: Trace, p: nat, ev: Event): nat {
    match ev
    case Append(_) => if p == |t.hist| then p + 1 else p
    case Store(e) => if p < |t.hist| && t.hist[p] == e then p + 1 else p
    case Truncate(last) => Min(p, last)
    case CutMemory(last) => Min(p, last)
    case Restart => if t.base <= |t.hist| then |Recovered(t)| else p
    case _ => p
  }

  ghost function ReachedOf(v: Env, evs: seq<Event>): nat {
    if evs == [] then 0
    else ReachedAfter(TraceOf(v, evs[..|evs| - 1]), ReachedOf(v, evs[..|evs| - 1]), evs[|evs| - 1])
  }

  /** Among other records, the file holds the history from `from` up to p. */
  ghost predicate Covers(t: Trace, from: nat, p: nat) {
    && InOrder(t.hist, 0) && from <= p <= |t.hist| && from <= t.base <= |t.hist|
    && Within(t.hist[from..p], t.records)
  }

  lemma CoversDecides(t: Trace, from: nat, p: nat)
    requires Covers(t, from, p)
    ensures t.base + |Beyond(t.base, t.records)| >= p
    ensures Recovered(t) == t.hist ==> |Beyond(t.base, t.records)| == |t.hist| - t.base
    ensures p == |t.hist| && |Beyond(t.base, t.records)| == |t.hist| - t.base ==> Recovered(t) == t.hist
  {
    hide Filter, Within;
    WithinFilter(From(t.base + 1), t.hist[from..p], t.records);
    FromIsSuffix(t.base + 1, t.hist[from..p], from);
    if t.base <= p {
      assert t.hist[from..p][t.base - from..] == t.hist[t.base..p];
      WithinSize(t.hist[t.base..p], Beyond(t.base, t.records));
    }
    assert t.hist[..t.base] + t.hist[t.base..] == t.hist;
  }

  lemma RecordCovers(t: Trace, from: nat, p: nat, e: Entry)
    requires Covers(t, from, p)
    ensures Covers(t.(records := t.records + [e]), from, if p < |t.hist| && t.hist[p] == e then p + 1 else p)
  {
    hide Within;
    if p < |t.hist| && t.hist[p] == e {
      WithinSame(t.hist[from..p], t.records, e);
      assert t.hist[from..p] + [e] == t.hist[from..p + 1];
    } else {
      WithinMore(t.hist[from..p], t.records, e);
    }
  }

  lemma PublishCovers(t: Trace, from: nat, p: nat, e: Entry)
    requires Covers(t, from, p) && e.index == |t.hist| + 1
    ensures Covers(t.(hist := t.hist + [e]), from, p)
  {
    assert (t.hist + [e])[from..p] == t.hist[from..p];
  }

  lemma AppendCovers(t: Trace, from: nat, p: nat, e: Entry)
    requires Covers(t, from, p) && e.index == |t.hist| + 1
    ensures Covers(Trace(t.hist + [e], t.base, t.records + [e]), from, if p == |t.hist| then p + 1 else p)
  {
    hide Within;
    PublishCovers(t, from, p, e);
    if p == |t.hist| {
      RecordCovers(t.(hist := t.hist + [e]), from, p, e);
    } else {
      WithinMore(t.hist[from..p], t.records, e);
      assert (t.hist + [e])[from..p] == t.hist[from..p];
    }
  }

  lemma CutCovers(t: Trace, from: nat, p: nat, last: nat)
    requires Covers(t, from, p) && t.base <= last <= |t.hist|
    ensures Covers(Trace(t.hist[..last], t.base, t.records), from, Min(p, last))
    ensures Covers(Trace(t.hist[..last], t.base, Filter(UpTo(last), t.records)), from, Min(p, last))
  {
    hide Within, Filter;
    var q := Min(p, last);
    var kept := t.hist[from..q];
    assert t.hist[from..p][..q - from] == kept;
    assert t.hist[..last][from..q] == kept;
    WithinLess(t.hist[from..p], t.records, q - from);
    WithinFilter(UpTo(last), kept, t.records);
    UpToIsPrefix(last, kept, from);
    assert kept[..Below(kept, from, last + 1)] == kept;
  }

  lemma TrimCovers(t: Trace, from: nat, p: nat)
    requires Covers(t, from, p)
    ensures Covers(t.(records := Beyond(t.base, t.records)), Min(t.base, p), p)
  {
    hide Within, Filter;
    WithinFilter(From(t.base + 1), t.hist[from..p], t.records);
    FromIsSuffix(t.base + 1, t.hist[from..p], from);
    if t.base <= p {
      assert t.hist[from..p][t.base - from..] == t.hist[t.base..p];
    } else {
      assert t.hist[from..p][p - from..] == [] == t.hist[p..p];
    }
  }

  lemma RestartCovers(t: Trace)
    requires t.base <= |t.hist| && InOrder(Recovered(t), 0)
    ensures Covers(t.(hist := Recovered(t)), t.base, |Recovered(t)|)
  {
    hide Within, Filter;
    FilterWithin(From(t.base + 1), t.records);
    assert Recovered(t)[t.base..|Recovered(t)|] == Beyond(t.base, t.records);
  }

  function FromNow(m: Machine, t: Trace, from: nat, p: nat, ev: Event): nat {
    if ev.Trim? && m.stage.Dropped? then Min(m.stage.index, p) else if ev.Restart? then t.base else from
  }

  lemma CoveringKeeps(v: Env, m: Machine, t: Trace, from: nat, p: nat, ev: Event)
    requires Placed(v, m, t, ev) && Covers(t, from, p) && InOrder(TraceAfter(v, m, t, ev).hist, 0)
    ensures Covers(TraceAfter(v, m, t, ev), FromNow(m, t, from, p, ev), ReachedAfter(t, p, ev))
  {
    hide AfterSave, Filter, Within, InOrder;
    match ev
    case Append(e) => AppendCovers(t, from, p, e);
    case Publish(e) => PublishCovers(t, from, p, e);
    case Store(e) => RecordCovers(t, from, p, e);
    case Truncate(last) => CutCovers(t, from, p, last);
    case CutMemory(last) => CutCovers(t, from, p, last);
    case Trim => if m.stage.Dropped? { TrimCovers(t, from, p); }
    case Restart => RestartCovers(t);
    case _ =>
  }

  lemma {:induction false} StaysCovered(v: Env, evs: seq<Event>) returns (from: nat)
    requires EnvOk(v) && Runs(v, evs)
    ensures Covers(TraceOf(v, evs), from, ReachedOf(v, evs))
  {
    hide After, Allowed, TraceAfter, Placed, ReachedAfter, Covers, NodeOk, CacheOk, DiskOk, StageOk, InOrder;
    if evs == [] {
      from := 0;
      NothingYet();
    } else {
      var init, ev := evs[..|evs| - 1], evs[|evs| - 1];
      from := StaysCovered(v, init);
      RunKeeps(v, init);
      RunKeeps(v, evs);
      var m, t := MachineAfter(v, init), TraceOf(v, init);
      EventPlaced(v, m, t, ev);
      CoveringKeeps(v, m, t, from, ReachedOf(v, init), ev);
      from := FromNow(m, t, from, ReachedOf(v, init), ev);
    }
  }

  lemma NothingYet()
    ensures Covers(Trace([], 0, []), 0, 0)
  {
  }

  /**
   Submissions persisted early, late, in any order or never, writes that fail and leave their record, cuts
   of the file that fail, later cuts and trims that may remove what they left, and restarts, in any number
   and order. Start-up recovers the history only if the file holds exactly as many records behind the
   snapshot as the history has entries there; and once all of the history has reached the file, exactly
   then. The file never holds fewer than what has reached it.
   */
  lemma SurplusDecides(v: Env, evs: seq<Event>)
    requires EnvOk(v) && Runs(v, evs)
    ensures var m, t, p := MachineAfter(v, evs), TraceOf(v, evs), ReachedOf(v, evs);
            var held := t.base + |Beyond(t.base, t.records)|;
            && t.base <= |t.hist| && p <= |t.hist| && p <= held && Load(v, m.snap, m.wal).Some?
            && var (node, cache) := Load(v, m.snap, m.wal).value;
               && (Explains(v, t.hist, node, cache) ==> held == |t.hist|)
               && (p == |t.hist| ==> (Explains(v, t.hist, node, cache) <==> held == |t.hist|))
  {
    hide Load, Replay, Runs, Explains, Beyond, Within;
    FilesDecide(v, evs);
    var from := StaysCovered(v, evs);
    CoversDecides(TraceOf(v, evs), from, ReachedOf(v, evs));
  }

  /** Without submissions of its own, all of a node's history has always reached its file. */
  lemma {:induction false} UnsubmittedReaches(v: Env, evs: seq<Event>)
    requires EnvOk(v) && Runs(v, evs) && forall i :: 0 <= i < |evs| ==> !evs[i].Publish?
    ensures ReachedOf(v, evs) == |TraceOf(v, evs).hist|
  {
    hide After, Allowed, Inv, Filter;
    if evs != [] {
      var init, ev := evs[..|evs| - 1], evs[|evs| - 1];
      UnsubmittedReaches(v, init);
      RunKeeps(v, init);
      EventPlaced(v, MachineAfter(v, init), TraceOf(v, init), ev);
      assert !ev.Publish?;
    }
  }

  /** A sync that fails after the record is written, and the retry: the entry is in memory once and starts up twice. */
  lemma RetryDuplicates(v: Env, e: Entry)
    requires EnvOk(v) && WalFormat.Fits(v.wal, e) && e.index == 1
    ensures var evs := [Store(e), Append(e)];
            var m := MachineAfter(v, evs);
            && Runs(v, evs) && TraceOf(v, evs).hist == [e]
            && Load(v, m.snap, m.wal).Some? && Load(v, m.snap, m.wal).value.0.log == [e, e]
  {
    hide Load, WalFormat.Fits;
    var one, two := [Store(e)], [Store(e), Append(e)];
    assert one[..0] == [] && two[..1] == one;
    assert Runs(v, one) && MachineAfter(v, one).node == Blank(v);
    assert TraceOf(v, one) == Trace([], 0, [e]) && TraceOf(v, two) == Trace([e], 0, [e, e]);
    FilesDecide(v, two);
    assert [e, e][..1] == [e] && [e][..0] == [] && Filter(From(1), [e]) == [e];
    assert Recovered(TraceOf(v, two)) == [e, e];
  }
}
