/**
 A node of the cluster with its files: what any run of the cluster does to the node's log is a run of
 the machine in Recovery, with submissions persisted some time after they are published, log writes
 that fail at any point, and compactions in between.
 */
module NodeOnDisk {
  import opened Options
  import opened RaftTypes
  import opened RaftNode
  import opened RaftSystem
  import opened RaftSafety
  import opened LogFilter
  import opened KeyReplay
  import opened Recovery
  import opened PersistOrder
  import FailedWrites
  import RaftRefinement
  import RaftCompaction
  import RaftHistory
  import WalFormat

  // ---- What the entries of a request do to the log and to its file ---------------------------------

  /**
   The loop over a request's entries, with `ops` writes that succeed. A cut takes the slice before the
   file, a record goes to the file before the slice; left says whether the write or the cut that fails
   has changed the file all the same.
   */
  function AbsorbEvents(log: seq<Entry>, offset: nat, first: nat, entries: seq<Entry>, ops: nat, left: bool): seq<Event>
    requires first >= 1
    decreases |entries|
  {
    if entries == [] then [] else
    match OffsetToSlot(first, offset, |log|)
    case Some(slot) =>
      if log[slot].term == entries[0].term then AbsorbEvents(log, offset, first + 1, entries[1..], ops, left)
      else if ops == 0 then [if left then Truncate(first - 1) else CutMemory(first - 1)]
      else if ops == 1 then [Truncate(first - 1)] + (if left then [Store(entries[0])] else [])
      else
        [Truncate(first - 1), Append(entries[0])]
        + AbsorbEvents(TruncateSliceAfter(log, offset, first - 1) + [entries[0]], offset, first + 1, entries[1..],
            ops - 2, left)
    case None =>
      if first <= offset + |log| then AbsorbEvents(log, offset, first + 1, entries[1..], ops, left)
      else if ops == 0 then (if left then [Store(entries[0])] else [])
      else [Append(entries[0])] + AbsorbEvents(log + [entries[0]], offset, first + 1, entries[1..], ops - 1, left)
  }

  /** The request passes the checks in front of that loop. */
  predicate Enters(n: Node, req: AppendRequest) {
    req.term >= n.term && (req.prevIndex == 0 || TermAt(n, req.prevIndex) == Some(req.prevTerm))
  }

  /** left as above; after are the stores of submissions and the stages of compactions that follow the step. */
  datatype Plan = Plan(left: bool, after: seq<Event>)

  predicate Background(v: Env, ev: Event) {
    ev.CallProvider? || ev.Save? || ev.Drop? || ev.Trim? || ev.GiveUp? || (ev.Store? && WalFormat.Fits(v.wal, ev.e))
  }

  ghost predicate Plans(v: Env, plan: seq<Plan>) {
    forall k, j :: 0 <= k < |plan| && 0 <= j < |plan[k].after| ==> Background(v, plan[k].after[j])
  }

  /** What a step of the cluster makes x do. */
  function StepEvents(x: Id, n: Node, a: Action, n': Node, left: bool): seq<Event> {
    if a.x != x then []
    else match a
      case Submit(_, command) => [Event.Publish(Published(n, command))]
      case HandleAppend(_, req, ops) =>
        (if Enters(n, req) then AbsorbEvents(n.log, n.offset, req.prevIndex + 1, req.entries, ops, left) else [])
        + [Commit(n'.commit)]
      case _ => [Commit(n'.commit)] + (if n'.lastApplied == n.lastApplied then [] else [Fetch, Deliver])
  }

  // ---- One event after another -----------------------------------------------------------------------

  /** The machine's history is this log, and its node and cache stand at these indices. */
  ghost predicate Follows(v: Env, evs: seq<Event>, log: seq<Entry>, commit: nat, applied: nat) {
    && Runs(v, evs) && TraceOf(v, evs).hist == log
    && var m := MachineAfter(v, evs);
       m.inHand.None? && m.node.commit == commit && m.node.lastApplied == applied
  }

  lemma OneMore(v: Env, evs: seq<Event>, ev: Event)
    requires Runs(v, evs) && Allowed(v, MachineAfter(v, evs), ev)
    ensures Runs(v, evs + [ev]) && MachineAfter(v, evs + [ev]) == After(v, MachineAfter(v, evs), ev)
    ensures TraceOf(v, evs + [ev]) == TraceAfter(v, MachineAfter(v, evs), TraceOf(v, evs), ev)
  {
    hide Allowed, After, TraceAfter;
    assert (evs + [ev])[..|evs|] == evs && (evs + [ev])[|evs|] == ev;
  }

  lemma HistoryIsLog(v: Env, evs: seq<Event>)
    requires EnvOk(v) && Runs(v, evs)
    ensures LogLen(MachineAfter(v, evs).node) == |TraceOf(v, evs).hist|
  {
    hide CacheOk, DiskOk, StageOk, InOrder;
    RunKeeps(v, evs);
  }

  lemma Cuts(v: Env, evs: seq<Event>, log: seq<Entry>, commit: nat, applied: nat, cut: nat, ev: Event)
    requires EnvOk(v) && Follows(v, evs, log, commit, applied) && applied <= cut && commit <= cut <= |log|
    requires ev == Truncate(cut) || ev == CutMemory(cut)
    ensures Follows(v, evs + [ev], log[..cut], commit, applied)
  {
    hide Runs, MachineAfter, TraceOf, Filter;
    HistoryIsLog(v, evs);
    OneMore(v, evs, ev);
  }

  lemma Adds(v: Env, evs: seq<Event>, log: seq<Entry>, commit: nat, applied: nat, e: Entry, ev: Event)
    requires EnvOk(v) && Follows(v, evs, log, commit, applied) && e.index == |log| + 1
    requires (ev == Append(e) && WalFormat.Fits(v.wal, e)) || ev == Event.Publish(e)
    ensures Follows(v, evs + [ev], log + [e], commit, applied)
  {
    hide Runs, MachineAfter, TraceOf, WalFormat.Fits;
    HistoryIsLog(v, evs);
    OneMore(v, evs, ev);
  }

  lemma InBackground(v: Env, evs: seq<Event>, log: seq<Entry>, commit: nat, applied: nat, ev: Event)
    requires Follows(v, evs, log, commit, applied) && Background(v, ev)
    ensures Follows(v, evs + [ev], log, commit, applied)
  {
    hide Runs, MachineAfter, TraceOf, WalFormat.Fits, Filter;
    OneMore(v, evs, ev);
  }

  lemma Commits(v: Env, evs: seq<Event>, log: seq<Entry>, commit: nat, applied: nat, commit': nat)
    requires EnvOk(v) && Follows(v, evs, log, commit, applied) && commit' <= |log|
    ensures Follows(v, evs + [Commit(commit')], log, commit', applied)
  {
    hide Runs, MachineAfter, TraceOf;
    HistoryIsLog(v, evs);
    OneMore(v, evs, Commit(commit'));
  }

  lemma Applies(v: Env, evs: seq<Event>, log: seq<Entry>, commit: nat, applied: nat)
    requires EnvOk(v) && Follows(v, evs, log, commit, applied) && applied < commit
    ensures Follows(v, evs + [Fetch, Deliver], log, commit, applied + 1)
  {
    hide Runs, MachineAfter, TraceOf;
    OneMore(v, evs, Fetch);
    OneMore(v, evs + [Fetch], Deliver);
    assert evs + [Fetch, Deliver] == evs + [Fetch] + [Deliver];
  }

  lemma {:induction false} BackgroundFollows(v: Env, evs: seq<Event>, log: seq<Entry>, commit: nat, applied: nat,
        after: seq<Event>)
    requires Follows(v, evs, log, commit, applied) && forall k :: 0 <= k < |after| ==> Background(v, after[k])
    ensures Follows(v, evs + after, log, commit, applied)
    decreases |after|
  {
    hide Follows, Background;
    if after == [] {
      assert evs + after == evs;
    } else {
      var init, ev := after[..|after| - 1], after[|after| - 1];
      BackgroundFollows(v, evs, log, commit, applied, init);
      InBackground(v, evs + init, log, commit, applied, ev);
      assert evs + after == evs + init + [ev];
    }
  }

  // ---- The entries of a request ------------------------------------------------------------------------

  /** The entries stand in order behind `first - 1` and fit their records. */
  ghost predicate Shippable(v: Env, first: nat, entries: seq<Entry>) {
    forall k :: 0 <= k < |entries| ==> entries[k].index == first + k && WalFormat.Fits(v.wal, entries[k])
  }

  lemma {:induction false} AbsorbExtends(log: seq<Entry>, offset: nat, first: nat, entries: seq<Entry>, ops: nat)
    requires first == offset + |log| + 1
    ensures log <= AbsorbEntries(log, offset, first, entries, ops).log
    decreases |entries|
  {
    if entries != [] && ops > 0 { AbsorbExtends(log + [entries[0]], offset, first + 1, entries[1..], ops - 1); }
  }

  /** A conflict lies above the commit index, because the outcome keeps what is committed. */
  lemma ConflictAbove(d: seq<Entry>, log: seq<Entry>, offset: nat, first: nat, entries: seq<Entry>, ops: nat,
        commit: nat)
    requires |d| == offset < first <= offset + |log| && entries != [] && log[first - offset - 1].term != entries[0].term
    requires Same(d + log, d + AbsorbEntries(log, offset, first, entries, ops).log, commit)
    ensures TruncateSliceAfter(log, offset, first - 1) == log[..first - 1 - offset] && commit <= first - 1
  {
    var slot := first - 1 - offset;
    var cut := log[..slot];
    assert OffsetToSlot(first, offset, |log|) == Some(slot);
    if ops >= 2 {
      AbsorbExtends(cut + [entries[0]], offset, first + 1, entries[1..], ops - 2);
      var out := AbsorbEntries(log, offset, first, entries, ops).log;
      assert out[slot] == (cut + [entries[0]])[slot];
      assert (d + out)[first - 1] == entries[0] && (d + log)[first - 1] == log[slot];
    }
  }

  lemma {:induction false} AbsorbFollows(v: Env, evs: seq<Event>, d: seq<Entry>, log: seq<Entry>, offset: nat,
      first: nat, entries: seq<Entry>, ops: nat, left: bool, commit: nat, applied: nat)
    requires EnvOk(v) && Follows(v, evs, d + log, commit, applied) && applied <= commit
    requires |d| == offset && 1 <= first <= offset + |log| + 1 && Shippable(v, first, entries)
    requires Same(d + log, d + AbsorbEntries(log, offset, first, entries, ops).log, commit)
    ensures Follows(v, evs + AbsorbEvents(log, offset, first, entries, ops, left),
                    d + AbsorbEntries(log, offset, first, entries, ops).log, commit, applied)
    decreases |entries|
  {
    hide Follows, WalFormat.Fits;
    if entries == [] {
      assert evs + [] == evs;
    } else {
      var e, rest := entries[0], entries[1..];
      if offset < first <= offset + |log| {
        if log[first - offset - 1].term == e.term {
          AbsorbFollows(v, evs, d, log, offset, first + 1, rest, ops, left, commit, applied);
        } else {
          ConflictFollows(v, evs, d, log, offset, first, entries, ops, left, commit, applied);
        }
      } else if first <= offset {
        AbsorbFollows(v, evs, d, log, offset, first + 1, rest, ops, left, commit, applied);
      } else if ops == 0 {
        if left { InBackground(v, evs, d + log, commit, applied, Store(e)); } else { assert evs + [] == evs; }
      } else {
        Adds(v, evs, d + log, commit, applied, e, Append(e));
        assert d + log + [e] == d + (log + [e]);
        StillSame(d, log, log + [e], AbsorbEntries(log, offset, first, entries, ops).log, commit);
        AbsorbFollows(v, evs + [Append(e)], d, log + [e], offset, first + 1, rest, ops - 1, left, commit, applied);
        Rejoined(evs, [Append(e)], AbsorbEvents(log + [e], offset, first + 1, rest, ops - 1, left));
      }
    }
  }

  /** What log and out agree on, a log agrees on with out that agrees with log so far. */
  lemma StillSame(d: seq<Entry>, log: seq<Entry>, log': seq<Entry>, out: seq<Entry>, commit: nat)
    requires Same(d + log, d + out, commit) && Same(d + log, d + log', commit)
    ensures Same(d + log', d + out, commit)
  {
  }

  lemma Rejoined<T>(a: seq<T>, b: seq<T>, c: seq<T>)
    ensures a + b + c == a + (b + c)
  {
  }

  lemma ConflictFollows(v: Env, evs: seq<Event>, d: seq<Entry>, log: seq<Entry>, offset: nat,
      first: nat, entries: seq<Entry>, ops: nat, left: bool, commit: nat, applied: nat)
    requires EnvOk(v) && Follows(v, evs, d + log, commit, applied) && applied <= commit
    requires |d| == offset < first <= offset + |log| && entries != [] && log[first - offset - 1].term != entries[0].term
    requires Shippable(v, first, entries)
             && Same(d + log, d + AbsorbEntries(log, offset, first, entries, ops).log, commit)
    ensures Follows(v, evs + AbsorbEvents(log, offset, first, entries, ops, left),
                    d + AbsorbEntries(log, offset, first, entries, ops).log, commit, applied)
    decreases |entries|, 0
  {
    hide Follows, WalFormat.Fits;
    var e, rest, cut := entries[0], entries[1..], log[..first - 1 - offset];
    ConflictAbove(d, log, offset, first, entries, ops, commit);
    assert (d + log)[..first - 1] == d + cut;
    assert OffsetToSlot(first, offset, |log|) == Some(first - 1 - offset);
    if ops == 0 {
      Cuts(v, evs, d + log, commit, applied, first - 1, if left then Truncate(first - 1) else CutMemory(first - 1));
    } else {
      Cuts(v, evs, d + log, commit, applied, first - 1, Truncate(first - 1));
      var evs1 := evs + [Truncate(first - 1)];
      if ops == 1 {
        if left {
          InBackground(v, evs1, d + cut, commit, applied, Store(e));
          Rejoined(evs, [Truncate(first - 1)], [Store(e)]);
        } else {
          assert [Truncate(first - 1)] + [] == [Truncate(first - 1)];
        }
      } else {
        Adds(v, evs1, d + cut, commit, applied, e, Append(e));
        assert d + cut + [e] == d + (cut + [e]);
        assert Same(d + log, d + (cut + [e]), commit);
        StillSame(d, log, cut + [e], AbsorbEntries(log, offset, first, entries, ops).log, commit);
        AbsorbFollows(v, evs1 + [Append(e)], d, cut + [e], offset, first + 1, rest, ops - 2, left, commit, applied);
        assert evs1 + [Append(e)] == evs + [Truncate(first - 1), Append(e)];
        Rejoined(evs, [Truncate(first - 1), Append(e)],
            AbsorbEvents(cut + [e], offset, first + 1, rest, ops - 2, left));
      }
    }
  }

  lemma OrderlyOne(v: Env, evs: seq<Event>, ev: Event)
    requires Orderly(v, evs) && InTurn(v, evs, ev)
    ensures Orderly(v, evs + [ev]) && PersistedOf(evs + [ev]) == PersistedAfter(PersistedOf(evs), ev)
  {
    hide InTurn, PersistedAfter;
    var all := evs + [ev];
    assert all[..|evs|] == evs && all[|evs|] == ev;
    forall i | 0 <= i < |all| ensures InTurn(v, all[..i], all[i]) {
      if i < |evs| { assert all[..i] == evs[..i] && InTurn(v, evs[..i], evs[i]); }
    }
  }

  /** The length of the log behind which a request writes its first entry; 0 if it writes none. */
  function WrittenFrom(log: seq<Entry>, offset: nat, first: nat, entries: seq<Entry>): (n: nat)
    requires first >= 1
    ensures n <= offset + |log|
    decreases |entries|
  {
    if entries == [] then 0 else
    match OffsetToSlot(first, offset, |log|)
    case Some(slot) =>
      if log[slot].term == entries[0].term then WrittenFrom(log, offset, first + 1, entries[1..]) else first - 1
    case None =>
      if first <= offset + |log| then WrittenFrom(log, offset, first + 1, entries[1..]) else offset + |log|
  }

  /** With enough writes, and everything persisted behind which it writes, the file takes each entry in its turn. */
  lemma {:induction false} AbsorbOrderly(v: Env, evs: seq<Event>, d: seq<Entry>, log: seq<Entry>, offset: nat,
      first: nat, entries: seq<Entry>, ops: nat, left: bool, commit: nat, applied: nat)
    requires EnvOk(v) && Follows(v, evs, d + log, commit, applied) && applied <= commit
    requires |d| == offset && 1 <= first <= offset + |log| + 1 && Shippable(v, first, entries)
    requires Same(d + log, d + AbsorbEntries(log, offset, first, entries, ops).log, commit)
    requires Orderly(v, evs) && WrittenFrom(log, offset, first, entries) <= PersistedOf(evs) <= |d + log|
    requires ops >= WritesNeeded(log, offset, first, entries)
    ensures Orderly(v, evs + AbsorbEvents(log, offset, first, entries, ops, left))
    decreases |entries|
  {
    hide Runs, MachineAfter, TraceOf, Orderly, PersistedOf, WalFormat.Fits;
    if entries == [] {
      assert evs + [] == evs;
    } else {
      var e, rest := entries[0], entries[1..];
      if offset < first <= offset + |log| && log[first - offset - 1].term != e.term {
        var cut := log[..first - 1 - offset];
        ConflictAbove(d, log, offset, first, entries, ops, commit);
        assert (d + log)[..first - 1] == d + cut && d + cut + [e] == d + (cut + [e]);
        assert OffsetToSlot(first, offset, |log|) == Some(first - 1 - offset);
        OrderlyOne(v, evs, Truncate(first - 1));
        Cuts(v, evs, d + log, commit, applied, first - 1, Truncate(first - 1));
        var evs1 := evs + [Truncate(first - 1)];
        OrderlyOne(v, evs1, Append(e));
        Adds(v, evs1, d + cut, commit, applied, e, Append(e));
        assert Same(d + log, d + (cut + [e]), commit);
        StillSame(d, log, cut + [e], AbsorbEntries(log, offset, first, entries, ops).log, commit);
        AbsorbOrderly(v, evs1 + [Append(e)], d, cut + [e], offset, first + 1, rest, ops - 2, left, commit, applied);
        assert evs1 + [Append(e)] == evs + [Truncate(first - 1), Append(e)];
        Rejoined(evs, [Truncate(first - 1), Append(e)],
                 AbsorbEvents(cut + [e], offset, first + 1, rest, ops - 2, left));
      } else if first <= offset + |log| {
        AbsorbOrderly(v, evs, d, log, offset, first + 1, rest, ops, left, commit, applied);
      } else {
        OrderlyOne(v, evs, Append(e));
        Adds(v, evs, d + log, commit, applied, e, Append(e));
        assert d + log + [e] == d + (log + [e]);
        StillSame(d, log, log + [e], AbsorbEntries(log, offset, first, entries, ops).log, commit);
        AbsorbOrderly(v, evs + [Append(e)], d, log + [e], offset, first + 1, rest, ops - 1, left, commit, applied);
        Rejoined(evs, [Append(e)], AbsorbEvents(log + [e], offset, first + 1, rest, ops - 1, left));
      }
    }
  }

  // ---- One step of the cluster ---------------------------------------------------------------------------

  ghost predicate Member(states: seq<System>, x: Id) {
    forall k :: 0 <= k < |states| ==> x in states[k].nodes
  }

  lemma {:induction false} MemberAt(states: seq<System>, actions: seq<Action>, x: Id, i: nat)
    requires Run(states, actions) && x in states[0].nodes && i < |states|
    ensures x in states[i].nodes
  {
    hide Next;
    if i > 0 {
      MemberAt(states, actions, x, i - 1);
      assert Next(states[i - 1], actions[i - 1], states[i]);
      SameNodes(states[i - 1], actions[i - 1], states[i]);
    }
  }

  /** Every entry of a request that x handles fits a record. */
  ghost predicate Storable(v: Env, actions: seq<Action>, x: Id) {
    forall k :: 0 <= k < |actions| && actions[k].HandleAppend? && actions[k].x == x ==>
        WalFormat.AllFit(v.wal, actions[k].req.entries)
  }

  lemma WholeInOrder(states: seq<System>, actions: seq<Action>, i: nat, x: Id)
    requires Run(states, actions) && i < |states| && x in states[i].nodes
    ensures InOrder(LogAt(states, actions, i, x), 0)
    ensures states[i].nodes[x].lastApplied <= states[i].nodes[x].commit <= |LogAt(states, actions, i, x)|
    ensures x in states[i].delivered
    ensures states[i].delivered[x] == LogAt(states, actions, i, x)[..states[i].nodes[x].lastApplied]
    ensures x in PastAt(states, actions, i)
            && RaftCompaction.Linked(states[i].nodes[x], PastAt(states, actions, i)[x].dropped)
    ensures LogAt(states, actions, i, x) == PastAt(states, actions, i)[x].dropped + states[i].nodes[x].log
  {
    hide Run, Next, RaftRefinement.Good, RaftHistory.Rooted, RaftHistory.Settled;
    var h := HistoryAt(states, actions, i);
    KnownAt(states[i], PastAt(states, actions, i), h, x);
    AppliedBelowCommit(states, actions, i, x);
  }

  lemma AppliedOnce(s: System, a: Action, s': System, x: Id)
    requires Next(s, a, s') && x in s.nodes && x in s'.nodes
    ensures s'.nodes[x].lastApplied == s.nodes[x].lastApplied || s'.nodes[x].lastApplied == s.nodes[x].lastApplied + 1
    ensures a.x == x && (a.Submit? || a.HandleAppend?) ==> s'.nodes[x].lastApplied == s.nodes[x].lastApplied
    ensures a.x == x && a.Submit? ==> s'.nodes[x] == RaftNode.Publish(s.nodes[x], a.command)
    ensures a.x == x && a.HandleAppend? ==> s'.nodes[x] == OnAppendRequest(s.nodes[x], a.req, a.ops).node
    ensures a.x != x ==> s'.nodes[x] == s.nodes[x]
  {
    hide AbsorbEntries, Committable, TermAt;
  }

  /** What is compacted stays part of the whole log; only submissions and requests change it. */
  lemma WholeAfter(s: System, a: Action, s': System, d: RaftRefinement.Pasts, x: Id)
    requires Next(s, a, s') && x in s.nodes && x in s'.nodes && x in d
             && RaftCompaction.Linked(s.nodes[x], d[x].dropped)
    requires forall t :: t in s.tickets && t.node == x ==> t.index <= LogLen(s.nodes[x])
    ensures var d' := RaftRefinement.PastsAfter(d, s, a, s');
            && x in d'
            && (a.x == x && (a.Submit? || a.HandleAppend?) ==> d'[x].dropped == d[x].dropped)
            && (!(a.x == x && (a.Submit? || a.HandleAppend?)) ==>
                  d'[x].dropped + s'.nodes[x].log == d[x].dropped + s.nodes[x].log)
  {
    if a.x != x {
      AppliedOnce(s, a, s', x);
    } else if a.DropCompacted? {
      DropActs(s, a, s');
      DropWhole(s.nodes[x], d[x], a.index, a.term);
    } else if !a.Submit? && !a.HandleAppend? {
      QuietLog(s, a, s');
    }
    hide Next, CompactDrop, RaftCompaction.Linked;
  }

  lemma DropActs(s: System, a: Action, s': System)
    requires Next(s, a, s') && a.DropCompacted?
    ensures a.x in s.nodes && a.x in s'.nodes && s'.nodes[a.x] == CompactDrop(s.nodes[a.x], a.index, a.term)
    ensures exists t :: t in s.tickets && t.node == a.x && t.index == a.index
  {
    assert RaftSystem.Ticket(a.x, a.index, a.term) in s.tickets;
  }

  lemma DropWhole(n: Node, p: RaftRefinement.Past, index: nat, term: nat)
    requires RaftCompaction.Linked(n, p.dropped) && index <= LogLen(n)
    ensures RaftRefinement.DropAfter(p, n, index).dropped + CompactDrop(n, index, term).log == p.dropped + n.log
  {
    if index > n.snapIndex {
      assert CompactDrop(n, index, term).log == n.log[index - n.offset..];
      assert (p.dropped + n.log)[..index] + n.log[index - n.offset..] == p.dropped + n.log;
    }
  }

  lemma QuietLog(s: System, a: Action, s': System)
    requires Next(s, a, s') && !a.DropCompacted? && !a.Submit? && !a.HandleAppend?
    ensures a.x in s.nodes && a.x in s'.nodes && s'.nodes[a.x].log == s.nodes[a.x].log
  {
    hide AbsorbEntries, Committable, TermAt, ScanCommit;
  }

  lemma LogMoves(states: seq<System>, actions: seq<Action>, i: nat, x: Id)
    requires Run(states, actions) && i + 1 < |states| && x in states[i].nodes && x in states[i + 1].nodes
    ensures var a, n, n' := actions[i], states[i].nodes[x], states[i + 1].nodes[x];
            var log, log' := LogAt(states, actions, i, x), LogAt(states, actions, i + 1, x);
            && x in PastAt(states, actions, i)
            && (a.x == x && (a.Submit? || a.HandleAppend?) ==> log' == PastAt(states, actions, i)[x].dropped + n'.log)
            && (!(a.x == x && (a.Submit? || a.HandleAppend?)) ==> log' == log)
  {
    hide Next, RaftRefinement.PastsAfter;
    assert Next(states[i], actions[i], states[i + 1]);
    WholeInOrder(states, actions, i, x);
    SnapBelowCommit(states, actions, i, x);
    WholeAfter(states[i], actions[i], states[i + 1], PastAt(states, actions, i), x);
  }

  ghost predicate Numbered(first: nat, entries: seq<Entry>) {
    forall k :: 0 <= k < |entries| ==> entries[k].index == first + k
  }

  /** The entries of a request were in the log of the node that sent it, in order and from prevIndex on. */
  lemma {:induction false} RequestNumbered(states: seq<System>, actions: seq<Action>, i: nat, to: Id,
        req: AppendRequest)
    requires Run(states, actions) && i < |states| && AppendAsk(to, req) in states[i].net
    ensures Numbered(req.prevIndex + 1, req.entries)
    decreases i
  {
    hide Next, LogAt, Numbered, RaftRefinement.Good, RaftRefinement.PastsAfter;
    if i > 0 {
      var s, a := states[i - 1], actions[i - 1];
      assert Next(s, a, states[i]);
      if AppendAsk(to, req) in s.net {
        RequestNumbered(states, actions, i - 1, to, req);
      } else {
        NewRequest(s, a, states[i], to, req);
        SentNumbered(states, actions, i - 1, a.x, to);
      }
    }
  }

  lemma SentNumbered(states: seq<System>, actions: seq<Action>, i: nat, x: Id, to: Id)
    requires Run(states, actions) && i < |states|
    requires x in states[i].nodes && to in states[i].nodes[x].peers && NextAppend(states[i].nodes[x], to).Some?
    ensures var req := NextAppend(states[i].nodes[x], to).value; Numbered(req.prevIndex + 1, req.entries)
  {
    hide Run, NextAppend, RaftRefinement.Good, PastAt, RaftCompaction.Linked;
    var h := HistoryAt(states, actions, i);
    WholeInOrder(states, actions, i, x);
    SentTail(states[i], PastAt(states, actions, i), h, x, to);
  }

  lemma SentTail(s: System, d: RaftRefinement.Pasts, h: RaftHistory.History, x: Id, to: Id)
    requires RaftRefinement.Good(s, d, h) && x in s.nodes && x in d && to in s.nodes[x].peers
             && NextAppend(s.nodes[x], to).Some?
    ensures var req, log := NextAppend(s.nodes[x], to).value, d[x].dropped + s.nodes[x].log;
            req.prevIndex <= |log| && req.entries == log[req.prevIndex..]
  {
    hide RaftRefinement.Good, RaftHistory.Inv, RaftHistory.Rooted, RaftHistory.RoleOk, RaftHistory.Settled,
         RaftCompaction.Linked;
    RaftRefinement.KnownPeer(s, d, h, x);
    RaftRefinement.ConfiguredPeers(s.nodes[x], x, s.nodes.Keys);
    RaftRefinement.ShippedIs(s.nodes[x], d[x], s.delivered[x], x, to);
  }

  lemma NumberedFits(v: Env, req: AppendRequest)
    requires Numbered(req.prevIndex + 1, req.entries) && WalFormat.AllFit(v.wal, req.entries)
    ensures Shippable(v, req.prevIndex + 1, req.entries)
  {
  }

  lemma EntersWithin(n: Node, req: AppendRequest)
    requires n.offset == n.snapIndex && Enters(n, req)
    ensures req.prevIndex + 1 <= n.offset + |n.log| + 1
    ensures forall ops :: OnAppendRequest(n, req, ops).node.log == AbsorbEntries(n.log, n.offset, req.prevIndex + 1,
            req.entries, ops).log
  {
    hide AbsorbEntries;
    assert TermAt(Hear(n, req), req.prevIndex) == TermAt(n, req.prevIndex);
  }

  lemma NotEntered(n: Node, req: AppendRequest, ops: nat)
    requires !Enters(n, req)
    ensures OnAppendRequest(n, req, ops).node.log == n.log
  {
    hide AbsorbEntries;
    assert TermAt(Hear(n, req), req.prevIndex) == TermAt(n, req.prevIndex);
  }

  /** Where x stands at a moment of a run. */
  ghost predicate At(v: Env, evs: seq<Event>, states: seq<System>, actions: seq<Action>, i: nat, x: Id)
    requires Run(states, actions) && i < |states| && x in states[i].nodes
  {
    Follows(v, evs, LogAt(states, actions, i, x), states[i].nodes[x].commit, states[i].nodes[x].lastApplied)
  }

  ghost predicate Moment(v: Env, states: seq<System>, actions: seq<Action>, i: nat, x: Id) {
    && EnvOk(v) && Run(states, actions) && Storable(v, actions, x)
    && i + 1 < |states| && x in states[i].nodes && x in states[i + 1].nodes
  }

  lemma AppendStepFollows(v: Env, evs: seq<Event>, states: seq<System>, actions: seq<Action>, i: nat, x: Id, left: bool)
    requires Moment(v, states, actions, i, x) && At(v, evs, states, actions, i, x)
    requires actions[i].HandleAppend? && actions[i].x == x
    ensures At(v, evs + StepEvents(x, states[i].nodes[x], actions[i], states[i + 1].nodes[x], left), states, actions,
            i + 1, x)
  {
    hide Next, Init, Follows, LogAt, Shippable, Storable, AbsorbEvents, AbsorbEntries, WritesNeeded, OnAppendRequest,
         Enters, EnvOk, RaftCompaction.Linked, InOrder;
    var a, n, n' := actions[i], states[i].nodes[x], states[i + 1].nodes[x];
    var d := Arrives(v, states, actions, i, x);
    var log, log' := LogAt(states, actions, i, x), LogAt(states, actions, i + 1, x);
    var first := a.req.prevIndex + 1;
    var more := if Enters(n, a.req) then AbsorbEvents(n.log, n.offset, first, a.req.entries, a.ops, left) else [];
    if Enters(n, a.req) {
      AbsorbFollows(v, evs, d, n.log, n.offset, first, a.req.entries, a.ops, left, n.commit, n.lastApplied);
    } else {
      assert evs + [] == evs;
    }
    Commits(v, evs + more, log', n.commit, n.lastApplied, n'.commit);
    Rejoined(evs, more, [Commit(n'.commit)]);
  }

  /** What is known of a request when x handles it. */
  lemma Arrives(v: Env, states: seq<System>, actions: seq<Action>, i: nat, x: Id) returns (d: seq<Entry>)
    requires Moment(v, states, actions, i, x) && actions[i].HandleAppend? && actions[i].x == x
    ensures var n, n', req, ops := states[i].nodes[x], states[i + 1].nodes[x], actions[i].req, actions[i].ops;
            var log, log' := LogAt(states, actions, i, x), LogAt(states, actions, i + 1, x);
            && log == d + n.log && |d| == n.offset && Same(log, log', n.commit)
            && Shippable(v, req.prevIndex + 1, req.entries)
            && n'.lastApplied == n.lastApplied <= n.commit && n'.commit <= |log'|
            && (Enters(n, req) ==>
                  && req.prevIndex <= n.offset + |n.log|
                  && log' == d + AbsorbEntries(n.log, n.offset, req.prevIndex + 1, req.entries, ops).log)
            && (!Enters(n, req) ==> log' == log)
  {
    hide LogAt, Shippable, AbsorbEntries, OnAppendRequest, Enters, RaftRefinement.PastsAfter, PastAt, Numbered,
         WalFormat.AllFit;
    var s, a, s', n := states[i], actions[i], states[i + 1], states[i].nodes[x];
    assert Next(s, a, s');
    assert AppendAsk(x, a.req) in s.net;
    hide Next, Init;
    WholeInOrder(states, actions, i, x);
    WholeInOrder(states, actions, i + 1, x);
    LogMoves(states, actions, i, x);
    CommittedStays(states, actions, i, i + 1, x);
    AppliedOnce(s, a, s', x);
    RequestNumbered(states, actions, i, x, a.req);
    NumberedFits(v, a.req);
    d := PastAt(states, actions, i)[x].dropped;
    if Enters(n, a.req) { EntersWithin(n, a.req); } else { NotEntered(n, a.req, a.ops); }
  }

  lemma StepFollows(v: Env, evs: seq<Event>, states: seq<System>, actions: seq<Action>, i: nat, x: Id, left: bool)
    requires Moment(v, states, actions, i, x) && At(v, evs, states, actions, i, x)
    ensures At(v, evs + StepEvents(x, states[i].nodes[x], actions[i], states[i + 1].nodes[x], left), states, actions,
            i + 1, x)
  {
    hide Follows, LogAt, Storable, PastAt, EnvOk, InOrder, Init, Enters, AbsorbEvents;
    var s, a, s', n, n' := states[i], actions[i], states[i + 1], states[i].nodes[x], states[i + 1].nodes[x];
    assert Next(s, a, s');
    hide Next;
    var log, log' := LogAt(states, actions, i, x), LogAt(states, actions, i + 1, x);
    AppliedOnce(s, a, s', x);
    if a.x == x && a.HandleAppend? {
      AppendStepFollows(v, evs, states, actions, i, x, left);
    } else {
      WholeInOrder(states, actions, i, x);
      WholeInOrder(states, actions, i + 1, x);
      LogMoves(states, actions, i, x);
      if a.x != x {
        assert evs + [] == evs;
      } else if a.Submit? {
        var e := Published(n, a.command);
        assert log' == log + [e];
        Adds(v, evs, log, n.commit, n.lastApplied, e, Event.Publish(e));
      } else {
        Commits(v, evs, log, n.commit, n.lastApplied, n'.commit);
        if n'.lastApplied == n.lastApplied {
          assert [Commit(n'.commit)] + [] == [Commit(n'.commit)];
        } else {
          Applies(v, evs + [Commit(n'.commit)], log, n'.commit, n.lastApplied);
          Rejoined(evs, [Commit(n'.commit)], [Fetch, Deliver]);
        }
      }
    }
  }

  // ---- Whole runs of the cluster -----------------------------------------------------------------------------

  /** Everything that happens on the disk of x up to a moment of a run. */
  ghost function EventsOf(states: seq<System>, actions: seq<Action>, x: Id, plan: seq<Plan>, i: nat): seq<Event>
    requires Run(states, actions) && Member(states, x) && i <= |actions| == |plan|
  {
    if i == 0 then []
    else
      EventsOf(states, actions, x, plan, i - 1)
      + StepEvents(x, states[i - 1].nodes[x], actions[i - 1], states[i].nodes[x], plan[i - 1].left)
      + plan[i - 1].after
  }

  ghost predicate Planned(v: Env, states: seq<System>, actions: seq<Action>, x: Id, plan: seq<Plan>, i: nat) {
    && EnvOk(v) && Run(states, actions) && Storable(v, actions, x) && Member(states, x)
    && i <= |actions| == |plan| && Plans(v, plan)
  }

  lemma {:induction false} RunFollows(v: Env, states: seq<System>, actions: seq<Action>, x: Id, plan: seq<Plan>, i: nat)
    requires Planned(v, states, actions, x, plan, i)
    ensures At(v, EventsOf(states, actions, x, plan, i), states, actions, i, x)
  {
    hide Follows, Next, Storable, LogAt, InOrder, PastAt, StepEvents, EnvOk, Background;
    if i == 0 {
      Begins(v, states, actions, x);
    } else {
      RunFollows(v, states, actions, x, plan, i - 1);
      var evs := EventsOf(states, actions, x, plan, i - 1);
      StepFollows(v, evs, states, actions, i - 1, x, plan[i - 1].left);
      var n, n' := states[i - 1].nodes[x], states[i].nodes[x];
      BackgroundFollows(v, evs + StepEvents(x, n, actions[i - 1], n', plan[i - 1].left),
                        LogAt(states, actions, i, x), n'.commit, n'.lastApplied, plan[i - 1].after);
    }
  }

  lemma Begins(v: Env, states: seq<System>, actions: seq<Action>, x: Id)
    requires Run(states, actions) && x in states[0].nodes
    ensures At(v, [], states, actions, 0, x)
  {
    hide Next;
    assert Fresh(states[0].nodes[x]);
  }

  /** Whatever happens to its files, the cache of x in a run is the replay of what it was handed. */
  lemma CacheAtRest(v: Env, evs: seq<Event>)
    requires EnvOk(v) && Runs(v, evs) && MachineAfter(v, evs).inHand.None?
    ensures var m, hist := MachineAfter(v, evs), TraceOf(v, evs).hist;
            m.cache.applied == m.node.lastApplied <= |hist|
                && m.cache.keys == Replay(v.commands, hist[..m.node.lastApplied])
  {
    hide Runs, MachineAfter, TraceOf, Replay, DiskOk, StageOk;
    RunKeeps(v, evs);
  }

  /**
   In every run of the cluster and for every plan of what fails and what is persisted when, x can crash
   at any moment: it starts up again, to the log that its files spell. That is its whole log in the run
   exactly when the records behind its snapshot are the rest of that.
   */
  lemma ClusterFilesDecide(v: Env, states: seq<System>, actions: seq<Action>, x: Id, plan: seq<Plan>, i: nat)
    requires Planned(v, states, actions, x, plan, i)
    ensures var evs := EventsOf(states, actions, x, plan, i);
            var m, t, log := MachineAfter(v, evs), TraceOf(v, evs), LogAt(states, actions, i, x);
            && Runs(v, evs) && t.hist == log && t.base <= |log|
            && x in states[i].delivered && m.cache.keys == Replay(v.commands, states[i].delivered[x])
            && Load(v, m.snap, m.wal).Some?
            && var (node, cache) := Load(v, m.snap, m.wal).value;
               && Explains(v, Recovered(t), node, cache)
               && (Explains(v, log, node, cache) <==> Beyond(t.base, t.records) == log[t.base..])
  {
    hide Next, Init, Storable, LogAt, InOrder, PastAt, EventsOf, Load, Replay, Explains, MachineAfter, Runs, TraceOf,
         Beyond;
    RunFollows(v, states, actions, x, plan, i);
    WholeInOrder(states, actions, i, x);
    var evs := EventsOf(states, actions, x, plan, i);
    FilesDecide(v, evs);
    CacheAtRest(v, evs);
    var t := TraceOf(v, evs);
    assert Recovered(t)[t.base..] == Beyond(t.base, t.records) && t.hist[..t.base] + t.hist[t.base..] == t.hist;
  }

  // ---- Writes that fail ----------------------------------------------------------------------------

  lemma {:induction false} AbsorbHasNone(log: seq<Entry>, offset: nat, first: nat, entries: seq<Entry>, ops: nat,
        left: bool)
    requires first >= 1
    ensures forall ev :: ev in AbsorbEvents(log, offset, first, entries, ops, left) ==> !ev.Publish?
    decreases |entries|
  {
    if entries != [] {
      match OffsetToSlot(first, offset, |log|)
      case Some(slot) =>
        if log[slot].term == entries[0].term {
          AbsorbHasNone(log, offset, first + 1, entries[1..], ops, left);
        } else if ops > 1 {
          AbsorbHasNone(TruncateSliceAfter(log, offset, first - 1) + [entries[0]], offset, first + 1, entries[1..],
              ops - 2, left);
        }
      case None =>
        if first <= offset + |log| {
          AbsorbHasNone(log, offset, first + 1, entries[1..], ops, left);
        } else if ops > 0 {
          AbsorbHasNone(log + [entries[0]], offset, first + 1, entries[1..], ops - 1, left);
        }
    }
  }

  lemma {:induction false} NoneSubmitted(v: Env, states: seq<System>, actions: seq<Action>, x: Id, plan: seq<Plan>,
        i: nat)
    requires Planned(v, states, actions, x, plan, i)
    requires forall k :: 0 <= k < i ==> !(actions[k].Submit? && actions[k].x == x)
    ensures forall ev :: ev in EventsOf(states, actions, x, plan, i) ==> !ev.Publish?
  {
    hide Next, Init, Storable, EnvOk, StepEvents;
    if i > 0 {
      NoneSubmitted(v, states, actions, x, plan, i - 1);
      StepHasNone(x, states[i - 1].nodes[x], actions[i - 1], states[i].nodes[x], plan[i - 1].left);
      forall ev | ev in plan[i - 1].after ensures !ev.Publish? {
        var j :| 0 <= j < |plan[i - 1].after| && plan[i - 1].after[j] == ev;
        assert Background(v, plan[i - 1].after[j]);
      }
    }
  }

  lemma StepHasNone(x: Id, n: Node, a: Action, n': Node, left: bool)
    requires !(a.Submit? && a.x == x)
    ensures forall ev :: ev in StepEvents(x, n, a, n', left) ==> !ev.Publish?
  {
    hide AbsorbEvents, Enters;
    if a.HandleAppend? { AbsorbHasNone(n.log, n.offset, a.req.prevIndex + 1, a.req.entries, a.ops, left); }
  }

  /** Of a node that submits nothing itself, the whole log has always reached the file. */
  lemma FollowerReaches(v: Env, states: seq<System>, actions: seq<Action>, x: Id, plan: seq<Plan>, i: nat)
    requires Planned(v, states, actions, x, plan, i)
    requires forall k :: 0 <= k < i ==> !(actions[k].Submit? && actions[k].x == x)
    ensures FailedWrites.ReachedOf(v, EventsOf(states, actions, x, plan, i)) == |LogAt(states, actions, i, x)|
  {
    hide Next, Init, Storable, LogAt, EventsOf, Load, Explains, MachineAfter, Runs, TraceOf, Beyond, EnvOk;
    ClusterFilesDecide(v, states, actions, x, plan, i);
    NoneSubmitted(v, states, actions, x, plan, i);
    FailedWrites.UnsubmittedReaches(v, EventsOf(states, actions, x, plan, i));
  }

  /**
   Any node, in any run, with any of its writes and cuts failing and its submissions persisted whenever.
   Start-up recovers its whole log only if its file has exactly as many records behind the snapshot as the
   log has entries there; and once the whole log has reached the file, exactly then, that is when every
   record that a failure left has been cut away or trimmed since.
   */
  lemma NodeRecoversIff(v: Env, states: seq<System>, actions: seq<Action>, x: Id, plan: seq<Plan>, i: nat)
    requires Planned(v, states, actions, x, plan, i)
    ensures var evs := EventsOf(states, actions, x, plan, i);
            var m, t, log := MachineAfter(v, evs), TraceOf(v, evs), LogAt(states, actions, i, x);
            var p, held := FailedWrites.ReachedOf(v, evs), t.base + |Beyond(t.base, t.records)|;
            && p <= |log| && p <= held && Load(v, m.snap, m.wal).Some?
            && var (node, cache) := Load(v, m.snap, m.wal).value;
               && (Explains(v, log, node, cache) ==> held == |log|)
               && (p == |log| ==> (Explains(v, log, node, cache) <==> held == |log|))
  {
    hide Next, Init, Storable, LogAt, EventsOf, Load, Explains, MachineAfter, Runs, TraceOf, Beyond, EnvOk;
    ClusterFilesDecide(v, states, actions, x, plan, i);
    FailedWrites.SurplusDecides(v, EventsOf(states, actions, x, plan, i));
  }

  // ---- Submissions that are not persisted yet --------------------------------------------------------------------

  /**
   A step after which the file is still a piece of the log: the writes of a request all succeed, and what
   the log keeps in front of them has been persisted; submissions are persisted in their order.
   */
  ghost predicate Careful(v: Env, states: seq<System>, actions: seq<Action>, x: Id, plan: seq<Plan>, i: nat)
    requires Run(states, actions) && Member(states, x) && i < |actions| == |plan|
  {
    var evs, a, n := EventsOf(states, actions, x, plan, i), actions[i], states[i].nodes[x];
    var step := evs + StepEvents(x, n, a, states[i + 1].nodes[x], plan[i].left);
    && (a.x == x && a.HandleAppend? && Enters(n, a.req) ==>
          && a.ops >= WritesNeeded(n.log, n.offset, a.req.prevIndex + 1, a.req.entries)
          && PersistedOf(evs) >= WrittenFrom(n.log, n.offset, a.req.prevIndex + 1, a.req.entries))
    && forall j :: 0 <= j < |plan[i].after| ==> InTurn(v, step + plan[i].after[..j], plan[i].after[j])
  }

  lemma {:induction false} OrderlyMore(v: Env, evs: seq<Event>, more: seq<Event>)
    requires Orderly(v, evs) && forall j :: 0 <= j < |more| ==> InTurn(v, evs + more[..j], more[j])
    ensures Orderly(v, evs + more)
    decreases |more|
  {
    hide Orderly, InTurn;
    if more == [] {
      assert evs + more == evs;
    } else {
      var init, ev := more[..|more| - 1], more[|more| - 1];
      forall j | 0 <= j < |init| ensures InTurn(v, evs + init[..j], init[j]) {
        assert init[..j] == more[..j] && InTurn(v, evs + more[..j], more[j]);
      }
      OrderlyMore(v, evs, init);
      assert InTurn(v, evs + more[..|more| - 1], more[|more| - 1]);
      OrderlyOne(v, evs + init, ev);
      assert evs + more == evs + init + [ev];
    }
  }

  predicate Harmless(ev: Event) {
    !ev.Append? && !ev.Store? && !ev.CutMemory? && !ev.Restart?
  }

  lemma HarmlessMore(v: Env, evs: seq<Event>, more: seq<Event>)
    requires Orderly(v, evs) && forall j :: 0 <= j < |more| ==> Harmless(more[j])
    ensures Orderly(v, evs + more)
  {
    hide Orderly, TraceOf, PersistedOf;
    forall j | 0 <= j < |more| ensures InTurn(v, evs + more[..j], more[j]) {
      assert Harmless(more[j]);
    }
    OrderlyMore(v, evs, more);
  }

  lemma PersistedWithin(v: Env, evs: seq<Event>, log: seq<Entry>, commit: nat, applied: nat)
    requires EnvOk(v) && Follows(v, evs, log, commit, applied) && Orderly(v, evs)
    ensures PersistedOf(evs) <= |log|
  {
    hide Runs, MachineAfter, TraceOf, PersistedOf, Orderly;
    var from := StaysBehind(v, evs);
  }

  lemma StepOrderly(v: Env, evs: seq<Event>, states: seq<System>, actions: seq<Action>, i: nat, x: Id, left: bool)
    requires Moment(v, states, actions, i, x) && At(v, evs, states, actions, i, x) && Orderly(v, evs)
    requires var a, n := actions[i], states[i].nodes[x];
             a.x == x && a.HandleAppend? && Enters(n, a.req) ==>
               && a.ops >= WritesNeeded(n.log, n.offset, a.req.prevIndex + 1, a.req.entries)
               && PersistedOf(evs) >= WrittenFrom(n.log, n.offset, a.req.prevIndex + 1, a.req.entries)
    ensures Orderly(v, evs + StepEvents(x, states[i].nodes[x], actions[i], states[i + 1].nodes[x], left))
  {
    hide Next, Init, Follows, LogAt, Shippable, Storable, AbsorbEvents, AbsorbEntries, WritesNeeded, WrittenFrom;
    hide Enters, EnvOk, Orderly, PersistedOf;
    var a, n, n' := actions[i], states[i].nodes[x], states[i + 1].nodes[x];
    if a.x == x && a.HandleAppend? && Enters(n, a.req) {
      var d := Arrives(v, states, actions, i, x);
      var first := a.req.prevIndex + 1;
      var more := AbsorbEvents(n.log, n.offset, first, a.req.entries, a.ops, left);
      PersistedWithin(v, evs, LogAt(states, actions, i, x), n.commit, n.lastApplied);
      AbsorbOrderly(v, evs, d, n.log, n.offset, first, a.req.entries, a.ops, left, n.commit, n.lastApplied);
      HarmlessMore(v, evs + more, [Commit(n'.commit)]);
      Rejoined(evs, more, [Commit(n'.commit)]);
    } else {
      HarmlessMore(v, evs, StepEvents(x, n, a, n', left));
    }
  }

  lemma {:induction false} CarefulIsOrderly(v: Env, states: seq<System>, actions: seq<Action>, x: Id, plan: seq<Plan>,
        i: nat)
    requires Planned(v, states, actions, x, plan, i)
    requires forall k :: 0 <= k < i ==> Careful(v, states, actions, x, plan, k)
    ensures Orderly(v, EventsOf(states, actions, x, plan, i))
  {
    hide Next, Init, Storable, LogAt, StepEvents, EnvOk, Background, Follows, InTurn, Enters, WritesNeeded,
         WrittenFrom, PersistedOf;
    if i > 0 {
      CarefulIsOrderly(v, states, actions, x, plan, i - 1);
      RunFollows(v, states, actions, x, plan, i - 1);
      assert Careful(v, states, actions, x, plan, i - 1);
      var evs := EventsOf(states, actions, x, plan, i - 1);
      StepOrderly(v, evs, states, actions, i - 1, x, plan[i - 1].left);
      OrderlyMore(v, evs + StepEvents(x, states[i - 1].nodes[x], actions[i - 1], states[i].nodes[x],
          plan[i - 1].left), plan[i - 1].after);
    }
  }

  /**
   In every run of the cluster in which the writes of x succeed and its submissions are persisted in their
   order, however late, x can crash at any moment. It starts up again with exactly what its file or its
   snapshot has reached; its whole log survives exactly when they have reached its end, and what it has
   committed exactly when they have reached its commit index.
   */
  lemma ClusterNodeRecovers(v: Env, states: seq<System>, actions: seq<Action>, x: Id, plan: seq<Plan>, i: nat)
    requires Planned(v, states, actions, x, plan, i)
    requires forall k :: 0 <= k < i ==> Careful(v, states, actions, x, plan, k)
    ensures var evs := EventsOf(states, actions, x, plan, i);
            var m, log := MachineAfter(v, evs), LogAt(states, actions, i, x);
            var kept := Max(TraceOf(v, evs).base, PersistedOf(evs));
            && kept <= |log| && states[i].nodes[x].commit <= |log| && Load(v, m.snap, m.wal).Some?
            && var (node, cache) := Load(v, m.snap, m.wal).value;
               && Explains(v, log[..kept], node, cache) && LogLen(node) == kept
               && (HoldsUpTo(node, log, |log|) <==> kept == |log|)
               && (HoldsUpTo(node, log, states[i].nodes[x].commit) <==> states[i].nodes[x].commit <= kept)
  {
    hide Next, Init, Storable, LogAt, EventsOf, Load, Explains, MachineAfter, Runs, TraceOf, EnvOk, Careful, Orderly,
         HoldsUpTo, PersistedOf, InOrder, PastAt;
    ClusterFilesDecide(v, states, actions, x, plan, i);
    CarefulIsOrderly(v, states, actions, x, plan, i);
    WholeInOrder(states, actions, i, x);
    CrashKeepsIff(v, EventsOf(states, actions, x, plan, i), states[i].nodes[x].commit);
    CrashKeepsIff(v, EventsOf(states, actions, x, plan, i), |LogAt(states, actions, i, x)|);
  }
}
