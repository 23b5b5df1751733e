/**
 Runs of three nodes in which the files of one do not recover its log: a cut of the file that fails after
 the cut of the slice (internal/zero/raft/persistence.go:212-218), a submission that is committed before
 it is persisted, and two that are persisted in the other order (internal/zero/raft/lifecycle.go:94-116).
 */
module DiskFindings {
  import opened Options
  import opened RaftTypes
  import opened RaftNode
  import opened RaftSystem
  import opened RaftTrails
  import opened RaftRollback
  import opened LogFilter
  import opened Recovery
  import opened PersistOrder
  import opened NodeOnDisk
  import RaftSafety
  import WalFormat

  // ---- Following the file along a run --------------------------------------------------------------

  predicate LeavesFile(ev: Event) {
    ev.Commit? || ev.Fetch? || ev.Deliver? || ev.Publish? || ev.CutMemory?
  }

  lemma TraceMore(v: Env, evs: seq<Event>, ev: Event)
    ensures TraceOf(v, evs + [ev]) == TraceAfter(v, MachineAfter(v, evs), TraceOf(v, evs), ev)
    ensures PersistedOf(evs + [ev]) == PersistedAfter(PersistedOf(evs), ev)
  {
    hide TraceAfter, PersistedAfter;
    assert (evs + [ev])[..|evs|] == evs && (evs + [ev])[|evs|] == ev;
  }

  /** The file and the snapshot are the same after these events. */
  ghost predicate SameFile(v: Env, evs: seq<Event>, evs': seq<Event>) {
    var t, t' := TraceOf(v, evs), TraceOf(v, evs');
    t'.records == t.records && t'.base == t.base && PersistedOf(evs') == PersistedOf(evs)
  }

  lemma {:induction false} LeavesFileMore(v: Env, evs: seq<Event>, more: seq<Event>)
    requires forall k :: 0 <= k < |more| ==> LeavesFile(more[k])
    ensures SameFile(v, evs, evs + more)
    decreases |more|
  {
    hide TraceOf, PersistedOf, MachineAfter;
    if more == [] {
      assert evs + more == evs;
    } else {
      var init, ev := more[..|more| - 1], more[|more| - 1];
      LeavesFileMore(v, evs, init);
      assert LeavesFile(ev) && evs + more == evs + init + [ev];
      TraceMore(v, evs + init, ev);
    }
  }

  ghost predicate Idle(t: Trail, x: Id, plan: seq<Plan>, i: nat, j: nat) {
    && i <= j <= |t.actions| == |plan|
    && forall k :: i <= k < j ==> !Touches(t.actions[k], x) && plan[k].after == []
  }

  /** The files of x stay as they are while nothing touches its log and nothing is persisted. */
  lemma {:induction false} IdleKeeps(v: Env, t: Trail, x: Id, plan: seq<Plan>, i: nat, j: nat)
    requires Walked(t) && Member(t.states, x) && Idle(t, x, plan, i, j)
    ensures SameFile(v, EventsOf(t.states, t.actions, x, plan, i), EventsOf(t.states, t.actions, x, plan, j))
    decreases j
  {
    hide Next, Init, TraceOf, PersistedOf, StepEvents, EventsOf, LeavesFile;
    if i < j {
      IdleKeeps(v, t, x, plan, i, j - 1);
      var evs := EventsOf(t.states, t.actions, x, plan, j - 1);
      var step := StepEvents(x, t.states[j - 1].nodes[x], t.actions[j - 1], t.states[j].nodes[x], plan[j - 1].left);
      StepIs(t, x, plan, j - 1);
      UntouchedStep(x, t.states[j - 1].nodes[x], t.actions[j - 1], t.states[j].nodes[x], plan[j - 1].left);
      LeavesFileMore(v, evs, step);
      assert evs + step + [] == evs + step;
    }
  }

  lemma UntouchedStep(x: Id, n: Node, a: Action, n': Node, left: bool)
    requires !Touches(a, x)
    ensures var step := StepEvents(x, n, a, n', left); forall k :: 0 <= k < |step| ==> LeavesFile(step[k])
  {
  }

  lemma StepIs(t: Trail, x: Id, plan: seq<Plan>, i: nat)
    requires Walked(t) && Member(t.states, x) && i < |t.actions| == |plan|
    ensures EventsOf(t.states, t.actions, x, plan, i + 1) ==
            EventsOf(t.states, t.actions, x, plan, i)
            + StepEvents(x, t.states[i].nodes[x], t.actions[i], t.states[i + 1].nodes[x], plan[i].left) + plan[i].after
  {
  }

  lemma AlwaysMember(t: Trail, x: Id)
    requires Walked(t) && x in t.states[0].nodes
    ensures Member(t.states, x)
  {
    hide Next, Init;
    forall k | 0 <= k < |t.states| ensures x in t.states[k].nodes {
      MemberAt(t.states, t.actions, x, k);
    }
  }

  lemma MemberFromStart(t: Trail, x: Id)
    requires Walked(t) && x in End(t).nodes
    ensures Member(t.states, x)
  {
    hide Next, Init;
    MembersSame(t, |t.states| - 1);
    AlwaysMember(t, x);
  }

  lemma {:induction false} MembersSame(t: Trail, i: nat)
    requires Walked(t) && i < |t.states|
    ensures t.states[i].nodes.Keys == t.states[0].nodes.Keys
  {
    hide Next, Init;
    if i > 0 {
      MembersSame(t, i - 1);
      assert Next(t.states[i - 1], t.actions[i - 1], t.states[i]);
      RaftSafety.SameNodes(t.states[i - 1], t.actions[i - 1], t.states[i]);
    }
  }

  // ---- A cut of the file that fails -------------------------------------------------------------------

  /** A request of term 2 that replaces the log by the entry of term 2. */
  predicate Replaces(a: Action, x: Id) {
    a.HandleAppend? && a.x == x && a.req.prevIndex == 0 && a.req.entries == [R()] && a.req.term == 2
  }

  /** Where the log of x is touched: its submission, a request whose first write fails, and the same again. */
  ghost predicate Retried(t: Trail, x: Id, i: nat, j: nat, k: nat) {
    && Walked(t) && Member(t.states, x) && i < j < k < |t.actions|
    && t.actions[i] == Submit(x, "p") && Replaces(t.actions[j], x) && t.actions[j].ops == 0
    && Replaces(t.actions[k], x) && t.actions[k].ops > 0
    && (forall l :: 0 <= l < |t.actions| && l != i && l != j && l != k ==> !Touches(t.actions[l], x))
    && Uncompacted(t.states[j].nodes[x]) && t.states[j].nodes[x].log == [P()] && t.states[j].nodes[x].term <= 2
    && Uncompacted(t.states[k].nodes[x]) && t.states[k].nodes[x].log == [] && t.states[k].nodes[x].term <= 2
  }

  /** The follower after the cut whose file part failed; the leader does not move. */
  lemma CutFails(nd: Node, nx: Node, x: Id)
    requires Uncompacted(nd) && nd.role == Leader && nd.term == 2 && nd.log == [R()] && Lookup(nd.nextIndex, x) == 1
    requires Uncompacted(nx) && nx.term == 1 && nx.log == [P()]
    ensures NextAppend(nd, x).Some?
    ensures var req := NextAppend(nd, x).value;
            var r := OnAppendRequest(nx, req, 0);
            && req.prevIndex == 0 && req.entries == [R()] && req.term == 2
            && r.node == Hear(nx, req).(log := []) && OnAppendReply(nd, x, req, r.term, r.success) == nd
  {
    RequestIs(nd, x);
    var req := NextAppend(nd, x).value;
    assert [R()][0..] == [R()];
    assert AbsorbEntries([P()], 0, 1, [R()], 0) == Absorbed([], false);
  }

  lemma RetriedRun(f: Three) returns (t: Trail, i: nat, j: nat, k: nat)
    requires f.Distinct()
    ensures Retried(t, f.x, i, j, k) && f.x in End(t).nodes && f.d in End(t).nodes
    ensures End(t).nodes[f.x].log == [R()] && End(t).nodes[f.d].role == Leader && End(t).nodes[f.d].commit == 1
  {
    hide Run, Listing, AllPlain, UpdateCommit, OnAppendRequest, OnAppendReply, NextAppend, FirstTouch, TouchesOnly,
         Exchanged, Retried, Replaces;
    var t0 := SecondTerm(f);
    i := Touched(t0, f.x);
    PlainAt(t0, f, f.x);
    PlainAt(t0, f, f.d);
    KeysOf(t0, f);
    var nx, nd := End(t0).nodes[f.x], End(t0).nodes[f.d];
    PeersOf(nd, f.d, f.All());
    CutFails(nd, nx, f.x);
    var t1 := Replaced(t0, f.d, f.x, 0);
    var nx' := End(t1).nodes[f.x];
    Accepts(nd, nx', f.x, 2);
    t := Replaced(t1, f.d, f.x, 2);
    AckedPlain(nd, f.x);
    OneAckCommits(nd.(nextIndex := nd.nextIndex[f.x := 2], matchIndex := nd.matchIndex[f.x := 1]), f.d, f.x, f);
    j, k := |t0.actions| + 1, |t1.actions| + 1;
    MemberFromStart(t, f.x);
    Assembled(t0, t1, t, f.d, f.x, i, nx, nx');
  }

  /** One exchange in which x handles the request. */
  lemma Replaced(t: Trail, d: Id, x: Id, ops: nat) returns (u: Trail)
    requires Walked(t) && d in End(t).nodes && x in End(t).nodes && End(t).nodes.Keys == End(t).delivered.Keys && x != d
    requires End(t).nodes[d].id == d && x in End(t).nodes[d].peers && NextAppend(End(t).nodes[d], x).Some?
    requires var req := NextAppend(End(t).nodes[d], x).value;
             req.prevIndex == 0 && req.entries == [R()] && req.term == 2
    ensures Continues(t, u) && Exchanged(t, u, d, x, ops, End(t).nodes[x])
    ensures var nd, nx := End(t).nodes[d], End(t).nodes[x];
            var req := NextAppend(nd, x).value;
            var r := OnAppendRequest(nx, req, ops);
            && End(u).nodes == End(t).nodes[x := r.node][d := OnAppendReply(nd, x, req, r.term, r.success)]
            && End(u).delivered == End(t).delivered
  {
    hide NextAppend, OnAppendRequest, OnAppendReply, Next, Init;
    u := Exchange(t, d, x, ops);
  }

  lemma Touched(t: Trail, x: Id) returns (k: nat)
    requires FirstTouch(t, x)
    ensures TouchesOnly(t, x, k)
  {
    k :| TouchesOnly(t, x, k);
  }

  lemma KeysOf(t: Trail, f: Three)
    requires Walked(t) && AllPlain(End(t), f.All())
    ensures End(t).nodes.Keys == End(t).delivered.Keys == f.All()
  {
  }

  /** u is t and one exchange in which x, then being n, handles a replacing request. */
  ghost predicate Exchanged(t: Trail, u: Trail, d: Id, x: Id, ops: nat, n: Node) {
    && Continues(t, u) && |u.actions| == |t.actions| + 3 && |u.states| == |t.states| + 3
       && |t.states| == |t.actions| + 1
    && u.actions[|t.actions|].x == d && u.actions[|t.actions| + 2].x == d
    && Replaces(u.actions[|t.actions| + 1], x) && u.actions[|t.actions| + 1].ops == ops
    && x in u.states[|t.states|].nodes && u.states[|t.states|].nodes[x] == n
  }

  lemma Assembled(t0: Trail, t1: Trail, t2: Trail, d: Id, x: Id, i: nat, n0: Node, n1: Node)
    requires Exchanged(t0, t1, d, x, 0, n0) && Exchanged(t1, t2, d, x, 2, n1) && x != d && TouchesOnly(t0, x, i)
             && Member(t2.states, x)
    requires Uncompacted(n0) && n0.log == [P()] && n0.term <= 2 && Uncompacted(n1) && n1.log == [] && n1.term <= 2
    ensures Retried(t2, x, i, |t0.actions| + 1, |t1.actions| + 1)
  {
    hide Run;
    var j, k := |t0.actions| + 1, |t1.actions| + 1;
    assert t2.states[j] == t1.states[j] && t2.actions[j] == t1.actions[j] && t2.actions[i] == t0.actions[i];
    forall l | 0 <= l < |t2.actions| && l != i && l != j && l != k ensures !Touches(t2.actions[l], x) {
      if l < |t0.actions| {
        assert t2.actions[l] == t1.actions[l] == t0.actions[l];
      } else if l < |t1.actions| {
        assert t2.actions[l] == t1.actions[l];
      }
    }
  }

  /** The submission of x is persisted at once, and nothing else is left in the file by what fails. */
  function RetryPlan(n: nat, i: nat): seq<Plan> {
    seq(n, l => Plan(false, if l == i then [Store(P())] else []))
  }

  ghost function FileAt(v: Env, t: Trail, x: Id, plan: seq<Plan>, i: nat): (seq<Entry>, nat, nat)
    requires Walked(t) && Member(t.states, x) && i <= |t.actions| == |plan|
  {
    var evs := EventsOf(t.states, t.actions, x, plan, i);
    (TraceOf(v, evs).records, TraceOf(v, evs).base, PersistedOf(evs))
  }

  lemma FileRests(v: Env, t: Trail, x: Id, plan: seq<Plan>, i: nat, j: nat)
    requires Walked(t) && Member(t.states, x) && Idle(t, x, plan, i, j)
    ensures FileAt(v, t, x, plan, i) == FileAt(v, t, x, plan, j)
  {
    hide Run, EventsOf, TraceOf, PersistedOf, Idle;
    IdleKeeps(v, t, x, plan, i, j);
  }

  /** The step writes one record, which the plan may do too. */
  lemma FileWrites(v: Env, t: Trail, x: Id, plan: seq<Plan>, i: nat, e: Entry)
    requires Walked(t) && Member(t.states, x) && i < |t.actions| == |plan|
    requires var step := StepEvents(x, t.states[i].nodes[x], t.actions[i], t.states[i + 1].nodes[x], plan[i].left);
             || (|step| == 2 && step[0] == Append(e) && LeavesFile(step[1]) && plan[i].after == [])
             || (|step| == 1 && LeavesFile(step[0]) && plan[i].after == [Store(e)])
    ensures var (records, base, p) := FileAt(v, t, x, plan, i);
            FileAt(v, t, x, plan, i + 1) == (records + [e], base, p + 1)
  {
    hide Next, Init, EventsOf, TraceOf, PersistedOf, StepEvents, MachineAfter;
    StepIs(t, x, plan, i);
    var evs := EventsOf(t.states, t.actions, x, plan, i);
    var step := StepEvents(x, t.states[i].nodes[x], t.actions[i], t.states[i + 1].nodes[x], plan[i].left);
    if |step| == 2 {
      TraceMore(v, evs, step[0]);
      TraceMore(v, evs + [step[0]], step[1]);
      assert evs + step + [] == evs + [step[0]] + [step[1]];
    } else {
      TraceMore(v, evs, step[0]);
      TraceMore(v, evs + [step[0]], Store(e));
      assert evs + step + [Store(e)] == evs + [step[0]] + [Store(e)];
    }
  }

  lemma FileStays(v: Env, t: Trail, x: Id, plan: seq<Plan>, i: nat)
    requires Walked(t) && Member(t.states, x) && i < |t.actions| == |plan| && plan[i].after == []
    requires var step := StepEvents(x, t.states[i].nodes[x], t.actions[i], t.states[i + 1].nodes[x], plan[i].left);
             forall k :: 0 <= k < |step| ==> LeavesFile(step[k])
    ensures FileAt(v, t, x, plan, i + 1) == FileAt(v, t, x, plan, i)
  {
    hide Next, Init, EventsOf, TraceOf, PersistedOf, StepEvents, MachineAfter;
    StepIs(t, x, plan, i);
    var evs := EventsOf(t.states, t.actions, x, plan, i);
    var step := StepEvents(x, t.states[i].nodes[x], t.actions[i], t.states[i + 1].nodes[x], plan[i].left);
    LeavesFileMore(v, evs, step);
    assert evs + step + [] == evs + step;
  }

  lemma RetriedFile(v: Env, t: Trail, x: Id, i: nat, j: nat, k: nat)
    requires Retried(t, x, i, j, k)
    ensures FileAt(v, t, x, RetryPlan(|t.actions|, i), |t.actions|).0 == [P(), R()]
    ensures FileAt(v, t, x, RetryPlan(|t.actions|, i), |t.actions|).1 == 0
  {
    hide Next, Init, FileAt, StepEvents, Touches;
    var plan := RetryPlan(|t.actions|, i);
    FileStarts(v, t, x, plan);
    FileRests(v, t, x, plan, 0, i);
    SubmitStep(x, t.states[i].nodes[x], "p", t.states[i + 1].nodes[x]);
    FileWrites(v, t, x, plan, i, P());
    FileRests(v, t, x, plan, i + 1, j);
    CutStep(x, t.states[j].nodes[x], t.actions[j], t.states[j + 1].nodes[x]);
    FileStays(v, t, x, plan, j);
    FileRests(v, t, x, plan, j + 1, k);
    RetryStep(x, t.states[k].nodes[x], t.actions[k], t.states[k + 1].nodes[x]);
    FileWrites(v, t, x, plan, k, R());
    FileRests(v, t, x, plan, k + 1, |t.actions|);
  }

  lemma FileStarts(v: Env, t: Trail, x: Id, plan: seq<Plan>)
    requires Walked(t) && Member(t.states, x) && |t.actions| == |plan|
    ensures FileAt(v, t, x, plan, 0) == ([], 0, 0)
  {
  }

  lemma SubmitStep(x: Id, n: Node, command: string, n': Node)
    ensures StepEvents(x, n, Submit(x, command), n', false) == [Event.Publish(Published(n, command))]
  {
  }

  lemma CutStep(x: Id, n: Node, a: Action, n': Node)
    requires Replaces(a, x) && a.ops == 0 && Uncompacted(n) && n.log == [P()] && n.term <= 2
    ensures StepEvents(x, n, a, n', false) == [CutMemory(0), Commit(n'.commit)]
  {
    assert AbsorbEvents([P()], 0, 1, [R()], 0, false) == [CutMemory(0)];
  }

  lemma RetryStep(x: Id, n: Node, a: Action, n': Node)
    requires Replaces(a, x) && a.ops > 0 && Uncompacted(n) && n.log == [] && n.term <= 2
    ensures StepEvents(x, n, a, n', false) == [Append(R()), Commit(n'.commit)]
  {
    assert AbsorbEvents([], 0, 1, [R()], a.ops, false) == [Append(R())]
           + AbsorbEvents([R()], 0, 2, [], a.ops - 1, false);
  }

  /**
   x persists its entry and is overruled. The cut of its file fails, its memory is cut; the retry is written
   behind the stale record, acknowledged, and committed by d. The files of x then start up with the stale
   entry at index 1 and the committed one, also of index 1, behind it.
   */
  lemma FailedCutDisplaces(f: Three, v: Env) returns (t: Trail, plan: seq<Plan>)
    requires f.Distinct() && EnvOk(v) && WalFormat.Fits(v.wal, P()) && WalFormat.Fits(v.wal, R())
    ensures Walked(t) && Planned(v, t.states, t.actions, f.x, plan, |t.actions|) && f.d in End(t).nodes
    ensures End(t).nodes[f.x].log == [R()] && End(t).nodes[f.d].role == Leader && End(t).nodes[f.d].commit == 1
    ensures var m := MachineAfter(v, EventsOf(t.states, t.actions, f.x, plan, |t.actions|));
            && Load(v, m.snap, m.wal).Some? && Load(v, m.snap, m.wal).value.0.log == [P(), R()]
            && EntryAt(Load(v, m.snap, m.wal).value.0, 1) == Some(P())
  {
    hide Run, EventsOf, TraceOf, PersistedOf, MachineAfter, Load, Retried, Member, WalFormat.Fits;
    var i, j, k;
    t, i, j, k := RetriedRun(f);
    plan := RetryPlan(|t.actions|, i);
    RetryPlanned(v, t, f.x, i, j, k);
    RetriedFile(v, t, f.x, i, j, k);
    LoadsRecords(v, t, f.x, plan);
    TwoBehind(P(), R());
  }

  lemma RetryPlanned(v: Env, t: Trail, x: Id, i: nat, j: nat, k: nat)
    requires Retried(t, x, i, j, k) && EnvOk(v) && WalFormat.Fits(v.wal, P()) && WalFormat.Fits(v.wal, R())
    ensures Planned(v, t.states, t.actions, x, RetryPlan(|t.actions|, i), |t.actions|)
  {
    hide Run, Member, EnvOk, WalFormat.Fits;
    forall l | 0 <= l < |t.actions| && t.actions[l].HandleAppend? && t.actions[l].x == x
      ensures WalFormat.AllFit(v.wal, t.actions[l].req.entries)
    {
      assert Touches(t.actions[l], x);
    }
  }

  /** Start-up from the files at the end of a run without a snapshot. */
  lemma LoadsRecords(v: Env, t: Trail, x: Id, plan: seq<Plan>)
    requires Planned(v, t.states, t.actions, x, plan, |t.actions|) && FileAt(v, t, x, plan, |t.actions|).1 == 0
    ensures var m := MachineAfter(v, EventsOf(t.states, t.actions, x, plan, |t.actions|));
            && Load(v, m.snap, m.wal).Some?
            && Load(v, m.snap, m.wal).value.0.log == Beyond(0, FileAt(v, t, x, plan, |t.actions|).0)
            && Load(v, m.snap, m.wal).value.0.offset == 0
  {
    hide Next, Init, EventsOf, TraceOf, PersistedOf, MachineAfter, Load, Storable, EnvOk, Plans, Beyond;
    ClusterFilesDecide(v, t.states, t.actions, x, plan, |t.actions|);
    var evs := EventsOf(t.states, t.actions, x, plan, |t.actions|);
    FilesDecide(v, evs);
    assert Recovered(TraceOf(v, evs)) == Beyond(0, TraceOf(v, evs).records);
  }

  lemma TwoBehind(a: Entry, b: Entry)
    requires a.index > 0 && b.index > 0
    ensures Beyond(0, [a, b]) == [a, b]
  {
    assert [a, b][..1] == [a] && [a][..0] == [];
    assert Filter(From(1), [a]) == [a];
  }

  // ---- A submission that is committed before it is persisted --------------------------------------------

  /** The submission of x at i is all that touches its log, which is [P()] in the end and committed. */
  ghost predicate CommitsOwn(t: Trail, x: Id, i: nat) {
    && Walked(t) && Member(t.states, x) && TouchesOnly(t, x, i)
    && x in End(t).nodes && End(t).nodes[x].log == [P()] && End(t).nodes[x].commit == 1
       && End(t).nodes[x].lastApplied == 1
  }

  lemma CommittedRun(f: Three) returns (t: Trail, i: nat)
    requires f.Distinct()
    ensures CommitsOwn(t, f.x, i)
  {
    hide Run, Listing, AllPlain, UpdateCommit, OnAppendRequest, OnAppendReply, NextAppend, OneSubmit, TouchesOnly;
    var t0 := FirstTerm(f);
    PlainAt(t0, f, f.x);
    PlainAt(t0, f, f.a);
    KeysOf(t0, f);
    var n := End(t0).nodes[f.x];
    PeersOf(n, f.x, f.All());
    NothingApplied(t0, f.x);
    Accepts(n, End(t0).nodes[f.a], f.a, 2);
    var t1 := Exchange(t0, f.x, f.a, 2);
    AckedPlain(n, f.a);
    OneAckCommits(n.(nextIndex := n.nextIndex[f.a := 2], matchIndex := n.matchIndex[f.a := 1]), f.x, f.a, f);
    t := Delivers(t1, f.x);
    MemberFromStart(t, f.x);
    OneTouch(t0, t1, t, f.x, f.a);
    i := |t0.actions| - 1;
  }

  lemma NothingApplied(t: Trail, x: Id)
    requires Walked(t) && x in End(t).nodes && End(t).nodes[x].commit == 0
    ensures End(t).nodes[x].lastApplied == 0
  {
    hide Next, Init;
    RaftSafety.SnapBelowCommit(t.states, t.actions, |t.states| - 1, x);
  }

  lemma Delivers(t: Trail, x: Id) returns (u: Trail)
    requires Walked(t) && x in End(t).nodes && x in End(t).delivered
    requires var n := End(t).nodes[x]; n.commit == 1 && n.lastApplied == 0
    ensures Continues(t, u) && u.actions == t.actions + [Apply(x)] && x in End(u).nodes
    ensures End(u).nodes[x] == End(t).nodes[x].(lastApplied := 1)
  {
    hide Run;
    var (n', out) := ApplyNext(End(t).nodes[x]);
    var s' := Set(End(t), x, n').(delivered := if out.Some?
        then End(t).delivered[x := End(t).delivered[x] + [out.value]] else End(t).delivered);
    u := Take(t, Apply(x), s');
  }

  lemma OneTouch(t0: Trail, t1: Trail, t: Trail, x: Id, a: Id)
    requires OneSubmit(t0, x) && x != a && |t1.actions| == |t0.actions| + 3 && t0.actions <= t1.actions
    requires t1.actions[|t0.actions|].SendAppend? && t1.actions[|t0.actions| + 1].x == a
             && t1.actions[|t0.actions| + 2].SeeAppendReply?
    requires t.actions == t1.actions + [Apply(x)]
    ensures |t0.actions| > 0 && TouchesOnly(t, x, |t0.actions| - 1)
  {
    assert forall j :: 0 <= j < |t0.actions| ==> t.actions[j] == t0.actions[j];
  }

  function NoPlan(n: nat): seq<Plan> {
    seq(n, l => Plan(false, []))
  }

  lemma UnpersistedFile(v: Env, t: Trail, x: Id, i: nat)
    requires Walked(t) && Member(t.states, x) && TouchesOnly(t, x, i)
    ensures FileAt(v, t, x, NoPlan(|t.actions|), |t.actions|) == ([], 0, 0)
  {
    hide Next, Init, FileAt, StepEvents, Touches;
    var plan := NoPlan(|t.actions|);
    FileStarts(v, t, x, plan);
    FileRests(v, t, x, plan, 0, i);
    SubmitStep(x, t.states[i].nodes[x], "p", t.states[i + 1].nodes[x]);
    FileStays(v, t, x, plan, i);
    FileRests(v, t, x, plan, i + 1, |t.actions|);
  }

  lemma NoPlanCareful(v: Env, t: Trail, x: Id, i: nat)
    requires Walked(t) && Member(t.states, x) && TouchesOnly(t, x, i) && EnvOk(v)
    ensures Planned(v, t.states, t.actions, x, NoPlan(|t.actions|), |t.actions|)
    ensures forall k :: 0 <= k < |t.actions| ==> Careful(v, t.states, t.actions, x, NoPlan(|t.actions|), k)
  {
    hide Next, Init, EnvOk, EventsOf, StepEvents, Enters, WritesNeeded, WrittenFrom, RaftSafety.LogAt, PersistedOf;
    forall k | 0 <= k < |t.actions| && t.actions[k].x == x ensures !t.actions[k].HandleAppend? {
      assert k != i ==> !Touches(t.actions[k], x);
    }
  }

  /**
   x publishes, a acknowledges, x commits and delivers, all before x persists. A crash of x then leaves a
   file without the entry that x has committed and applied.
   */
  lemma CommitsUnpersisted(f: Three, v: Env) returns (t: Trail, plan: seq<Plan>)
    requires f.Distinct() && EnvOk(v)
    ensures Walked(t) && Planned(v, t.states, t.actions, f.x, plan, |t.actions|)
    ensures var n := End(t).nodes[f.x]; n.log == [P()] && n.commit == 1 && n.lastApplied == 1
    ensures var evs := EventsOf(t.states, t.actions, f.x, plan, |t.actions|);
            var m := MachineAfter(v, evs);
            && PersistedOf(evs) == 0 && Load(v, m.snap, m.wal).Some? && Load(v, m.snap, m.wal).value.0.log == []
            && !HoldsUpTo(Load(v, m.snap, m.wal).value.0, RaftSafety.LogAt(t.states, t.actions, |t.actions|, f.x), 1)
  {
    hide Next, Init, EventsOf, TraceOf, PersistedOf, MachineAfter, Load, TouchesOnly, Member, EnvOk, Storable, Plans,
         Careful, HoldsUpTo, RaftSafety.LogAt;
    var i;
    t, i := CommittedRun(f);
    plan := NoPlan(|t.actions|);
    NoPlanCareful(v, t, f.x, i);
    UnpersistedFile(v, t, f.x, i);
    LoadsRecords(v, t, f.x, plan);
    ClusterNodeRecovers(v, t.states, t.actions, f.x, plan, |t.actions|);
  }

  // ---- Two submissions persisted in the other order --------------------------------------------------------

  function SwapPlan(n: nat): seq<Plan> {
    seq(n, l => Plan(false, if l + 1 == n then [Store(Q()), Store(P())] else []))
  }

  /** The last two actions are the submissions of x, and nothing before touches its log. */
  ghost predicate TwoSubmits(t: Trail, x: Id) {
    && Walked(t) && Member(t.states, x) && |t.actions| >= 2
    && t.actions[|t.actions| - 2] == Submit(x, "p") && t.actions[|t.actions| - 1] == Submit(x, "q")
    && forall k :: 0 <= k < |t.actions| - 2 ==> !Touches(t.actions[k], x)
  }

  lemma TwoSubmitsRun(f: Three) returns (t: Trail)
    requires f.Distinct()
    ensures TwoSubmits(t, f.x) && f.x in End(t).nodes && End(t).nodes[f.x].log == [P(), Q()]
  {
    hide Run, Listing, AllPlain;
    var t0 := FirstTerm(f);
    PlainAt(t0, f, f.x);
    t := Writes(t0, f.All(), f.x, "q");
    MemberFromStart(t, f.x);
    assert forall k :: 0 <= k < |t0.actions| ==> t.actions[k] == t0.actions[k];
  }

  lemma SwappedFile(v: Env, t: Trail, x: Id)
    requires TwoSubmits(t, x)
    ensures FileAt(v, t, x, SwapPlan(|t.actions|), |t.actions|).0 == [Q(), P()]
    ensures FileAt(v, t, x, SwapPlan(|t.actions|), |t.actions|).1 == 0
  {
    hide Next, Init, EventsOf, TraceOf, PersistedOf, StepEvents, MachineAfter, Touches;
    var plan, i := SwapPlan(|t.actions|), |t.actions| - 2;
    FileStarts(v, t, x, plan);
    FileRests(v, t, x, plan, 0, i);
    SubmitStep(x, t.states[i].nodes[x], "p", t.states[i + 1].nodes[x]);
    FileStays(v, t, x, plan, i);
    SubmitStep(x, t.states[i + 1].nodes[x], "q", t.states[i + 2].nodes[x]);
    StepIs(t, x, plan, i + 1);
    var evs, ev := EventsOf(t.states, t.actions, x, plan, i + 1),
        Event.Publish(Published(t.states[i + 1].nodes[x], "q"));
    TraceMore(v, evs, ev);
    TraceMore(v, evs + [ev], Store(Q()));
    TraceMore(v, evs + [ev] + [Store(Q())], Store(P()));
    assert evs + [ev] + [Store(Q()), Store(P())] == evs + [ev] + [Store(Q())] + [Store(P())];
  }

  lemma SwapPlanned(v: Env, t: Trail, x: Id)
    requires TwoSubmits(t, x) && EnvOk(v) && WalFormat.Fits(v.wal, P()) && WalFormat.Fits(v.wal, Q())
    ensures Planned(v, t.states, t.actions, x, SwapPlan(|t.actions|), |t.actions|)
  {
    hide Run, Member, EnvOk, WalFormat.Fits;
    forall k | 0 <= k < |t.actions| && t.actions[k].x == x ensures !t.actions[k].HandleAppend? {
      assert k < |t.actions| - 2 ==> !Touches(t.actions[k], x);
    }
  }

  /**
   Two submissions race to the queue of the log and are persisted in the other order, each successfully.
   The files of x then start up with the second entry where the first belongs.
   */
  lemma SwappedPersists(f: Three, v: Env) returns (t: Trail, plan: seq<Plan>)
    requires f.Distinct() && EnvOk(v) && WalFormat.Fits(v.wal, P()) && WalFormat.Fits(v.wal, Q())
    ensures Walked(t) && Planned(v, t.states, t.actions, f.x, plan, |t.actions|) && End(t).nodes[f.x].log == [P(), Q()]
    ensures var m := MachineAfter(v, EventsOf(t.states, t.actions, f.x, plan, |t.actions|));
            && Load(v, m.snap, m.wal).Some? && Load(v, m.snap, m.wal).value.0.log == [Q(), P()]
            && EntryAt(Load(v, m.snap, m.wal).value.0, 1) == Some(Q())
  {
    hide Run, EventsOf, TraceOf, PersistedOf, MachineAfter, Load, TwoSubmits, Member, WalFormat.Fits, FileAt;
    t := TwoSubmitsRun(f);
    plan := SwapPlan(|t.actions|);
    SwapPlanned(v, t, f.x);
    SwappedFile(v, t, f.x);
    LoadsRecords(v, t, f.x, plan);
    TwoBehind(Q(), P());
  }
}
