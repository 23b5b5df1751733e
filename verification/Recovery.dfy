/**
 One node with its files: log, cache, snapshot file and write-ahead log, through any mix of appends,
 application, compaction and crashes (internal/zero/raft/compact.go, persistence.go, internal/cluster/).
 Memory and the write-ahead log move together or apart.
 */
module Recovery {
  import opened Options
  import opened Bytes
  import opened RaftTypes
  import opened RaftNode
  import opened LogFilter
  import opened KeyReplay
  import WalFormat
  import Wal
  import SnapshotFile

  const LIMIT: nat := 0x1_0000_0000_0000_0000

  datatype Env = Env(
    wal: WalFormat.Codec<Entry>, step: SnapshotFile.Step, commands: Decoder, payload: Payload, id: Id, peers: seq<Id>)

  ghost predicate EnvOk(v: Env) {
    WalFormat.Sound(v.wal) && Faithful(v.payload)
  }

  /** How far a compaction has come. */
  datatype Stage =
    | Resting
    | Provided(data: seq<Byte>, index: nat)
    | Saved(index: nat, term: nat)
    | Dropped(index: nat)

  /** inHand is the entry that the apply loop has taken and not yet handed to the cache. */
  datatype Machine = Machine(
    node: Node, cache: Cache, inHand: Option<Entry>, snap: Option<seq<Byte>>, wal: seq<Byte>, stage: Stage)

  /**
   Append and Truncate change memory and the file. A submission is published in memory before it is
   persisted; a write that fails can leave its record in the file; a cut of the file that fails leaves
   memory cut. GiveUp is a compaction whose save or trim fails; the next one starts afresh.
   */
  datatype Event =
    | Append(e: Entry)
    | Publish(e: Entry)
    | Store(e: Entry)
    | Truncate(last: nat)
    | CutMemory(last: nat)
    | Commit(i: nat)
    | Fetch
    | Deliver
    | CallProvider
    | Save
    | Drop
    | Trim
    | GiveUp
    | Restart

  function Blank(v: Env): Node {
    Node(v.id, v.peers, Follower, 0, "", "", [], 0, 0, 0, 0, 0, map[], map[])
  }

  function Start(v: Env): Machine {
    Machine(Blank(v), Cache(map[], 0), None, None, WalFormat.MAGIC, Resting)
  }

  /** The last loop of the start-up: entries beyond the snapshot join the log and may raise the term. */
  function Replayed(n: Node, es: seq<Entry>): Node {
    if es == [] then n else
    var m := Replayed(n, es[..|es| - 1]);
    var e := es[|es| - 1];
    if e.index <= m.snapIndex then m else m.(log := m.log + [e], term := Max(m.term, e.term))
  }

  function AtSnapshot(n: Node, index: nat, term: nat): Node {
    n.(snapIndex := index, snapTerm := term, offset := index, commit := index, lastApplied := index,
       term := Max(n.term, term))
  }

  /** LoadFromDisk on a node and a cache that have just been created: every input is checked before either changes. */
  function Load(v: Env, snap: Option<seq<Byte>>, wal: seq<Byte>): Option<(Node, Cache)> {
    var r := WalFormat.Read(v.wal, wal);
    var empty := Cache(map[], 0);
    if snap.None? then
      if r.status == WalFormat.Tampered then None else Some((Replayed(Blank(v), r.entries), empty))
    else match SnapshotFile.Load(v.step, snap.value)
      case None => None
      case Some(s) =>
        if r.status == WalFormat.Tampered then None
        else match Install(v.payload, empty, s.data, s.index)
          case None => None
          case Some(cache) => Some((Replayed(AtSnapshot(Blank(v), s.index, s.term), r.entries), cache))
  }

  ghost function After(v: Env, m: Machine, ev: Event): Machine {
    match ev
    case Append(e) =>
      m.(node := m.node.(log := m.node.log + [e]), wal := Wal.FileAfter(v.wal, m.wal, Wal.Append(e)))
    case Publish(e) => m.(node := m.node.(log := m.node.log + [e]))
    case Store(e) => m.(wal := Wal.FileAfter(v.wal, m.wal, Wal.Append(e)))
    case Truncate(last) =>
      m.(node := m.node.(log := TruncateSliceAfter(m.node.log, m.node.offset, last)),
         wal := Wal.FileAfter(v.wal, m.wal, Wal.Truncate(UpTo(last))))
    case CutMemory(last) => m.(node := m.node.(log := TruncateSliceAfter(m.node.log, m.node.offset, last)))
    case Commit(i) => m.(node := m.node.(commit := i))
    case Fetch =>
      if m.inHand.Some? || m.node.lastApplied >= m.node.commit then m
      else
        var n := m.node.(lastApplied := m.node.lastApplied + 1);
        m.(node := n, inHand := EntryAt(n, n.lastApplied))
    case Deliver =>
      if m.inHand.None? then m else m.(cache := OnApply(v.commands, m.cache, m.inHand.value), inHand := None)
    case CallProvider =>
      if m.stage != Resting then m
      else var (data, index) := Provide(v.payload, m.cache); m.(stage := Provided(data, index))
    case Save => AfterSave(v, m)
    case Drop =>
      if !m.stage.Saved? then m
      else m.(node := CompactDrop(m.node, m.stage.index, m.stage.term), stage := Dropped(m.stage.index))
    case Trim =>
      if !m.stage.Dropped? then m
      else m.(wal := Wal.FileAfter(v.wal, m.wal, Wal.Truncate(From(m.stage.index + 1))), stage := Resting)
    case GiveUp => if m.stage.Provided? || m.stage.Dropped? then m.(stage := Resting) else m
    case Restart => AfterRestart(v, m)
  }

  /** The index and the term are checked against the node and, with the payload, go to the file; both are 64-bit. */
  function AfterSave(v: Env, m: Machine): Machine {
    if !m.stage.Provided? then m
    else match CompactCheck(m.node, m.stage.index)
      case None => m.(stage := Resting)
      case Some(term) =>
        if |m.stage.data| > SnapshotFile.MAX_SIZE || m.stage.index >= LIMIT || term >= LIMIT then m.(stage := Resting)
        else m.(snap := Some(SnapshotFile.Image(v.step, SnapshotFile.Snapshot(m.stage.index, term, m.stage.data))),
                stage := Saved(m.stage.index, term))
  }

  /** A crash keeps the two files and nothing else. */
  function AfterRestart(v: Env, m: Machine): Machine {
    match Load(v, m.snap, m.wal)
    case None => m
    case Some((node, cache)) => Machine(node, cache, None, m.snap, m.wal, Resting)
  }

  /**
   What the surroundings guarantee: entries come to memory in index order, what is written fits a record,
   an entry that was committed or applied is never cut, and a node goes on only from a log in order.
   */
  ghost predicate Allowed(v: Env, m: Machine, ev: Event) {
    match ev
    case Append(e) => e.index == LogLen(m.node) + 1 && WalFormat.Fits(v.wal, e)
    case Publish(e) => e.index == LogLen(m.node) + 1
    case Store(e) => WalFormat.Fits(v.wal, e)
    case Truncate(last) => m.node.lastApplied <= last <= LogLen(m.node) && m.node.commit <= last
    case CutMemory(last) => m.node.lastApplied <= last <= LogLen(m.node) && m.node.commit <= last
    case Commit(i) => i <= LogLen(m.node)
    case Restart => InOrder(AfterRestart(v, m).node.log, AfterRestart(v, m).node.offset)
    case _ => true
  }

  // ---- The history: what explains node, cache and files, whatever happened -------------------------

  /** hist is the whole log; base the index of the snapshot on disk; records what the write-ahead log holds. */
  datatype Trace = Trace(hist: seq<Entry>, base: nat, records: seq<Entry>)

  /** The records that start-up takes from a file behind a snapshot. */
  function Beyond(base: nat, records: seq<Entry>): seq<Entry> {
    Filter(From(base + 1), records)
  }

  /** The whole log that start-up makes of the files. */
  function Recovered(t: Trace): seq<Entry>
    requires t.base <= |t.hist|
  {
    t.hist[..t.base] + Beyond(t.base, t.records)
  }

  ghost predicate Inv(v: Env, m: Machine, t: Trace) {
    InOrder(t.hist, 0) && NodeOk(m.node, t) && CacheOk(v, m, t) && DiskOk(v, m, t) && StageOk(v, m, t)
  }

  ghost predicate NodeOk(n: Node, t: Trace) {
    && n.offset == n.snapIndex <= t.base && n.offset <= n.lastApplied <= |t.hist|
    && n.commit <= |t.hist| && n.log == t.hist[n.offset..]
    && n.snapTerm == TermOf(t.hist, n.snapIndex)
  }

  function TermOf(hist: seq<Entry>, i: nat): nat {
    if 0 < i <= |hist| then hist[i - 1].term else 0
  }

  ghost predicate CacheOk(v: Env, m: Machine, t: Trace) {
    && m.cache.applied <= m.node.lastApplied <= |t.hist|
    && m.cache.keys == Replay(v.commands, t.hist[..m.cache.applied])
    && match m.inHand
       case None => m.cache.applied == m.node.lastApplied
       case Some(e) => m.cache.applied + 1 == m.node.lastApplied && e == t.hist[m.cache.applied]
  }

  ghost predicate DiskOk(v: Env, m: Machine, t: Trace) {
    && t.base <= m.cache.applied <= |t.hist| && WalFormat.AllFit(v.wal, t.records)
    && m.wal == WalFormat.Image(v.wal, t.records)
    && SnapOk(v, m.snap, t.hist, t.base)
  }

  /** The snapshot file, if there is one, is the replay of the history up to base. */
  ghost predicate SnapOk(v: Env, snap: Option<seq<Byte>>, hist: seq<Entry>, base: nat) {
    && base <= |hist| && (snap.None? <==> base == 0)
    && (snap.Some? ==>
          && base < LIMIT && TermOf(hist, base) < LIMIT
          && SnapshotFile.Load(v.step, snap.value) ==
             Some(SnapshotFile.Snapshot(base, TermOf(hist, base), PayloadAt(v, hist, base))))
  }

  function PayloadAt(v: Env, hist: seq<Entry>, i: nat): seq<Byte>
    requires i <= |hist|
  {
    v.payload.encode(SNAPSHOT_VERSION, Replay(v.commands, hist[..i]))
  }

  ghost predicate StageOk(v: Env, m: Machine, t: Trace) {
    match m.stage
    case Resting => m.node.snapIndex == t.base
    case Provided(data, index) =>
      m.node.snapIndex == t.base && index <= m.cache.applied <= |t.hist| && data == PayloadAt(v, t.hist, index)
    case Saved(index, term) => index == t.base > m.node.snapIndex && term == TermOf(t.hist, index)
    case Dropped(index) => index == t.base == m.node.snapIndex
  }

  /** The trace that explains the machine after an event. */
  function TraceAfter(v: Env, m: Machine, t: Trace, ev: Event): Trace {
    match ev
    case Append(e) => t.(hist := t.hist + [e], records := t.records + [e])
    case Publish(e) => t.(hist := t.hist + [e])
    case Store(e) => t.(records := t.records + [e])
    case Truncate(last) => CutAt(t, last).(records := Filter(UpTo(last), t.records))
    case CutMemory(last) => CutAt(t, last)
    case Save => if AfterSave(v, m).stage.Saved? then t.(base := AfterSave(v, m).stage.index) else t
    case Trim => if m.stage.Dropped? then t.(records := Beyond(m.stage.index, t.records)) else t
    case Restart => if t.base <= |t.hist| then t.(hist := Recovered(t)) else t
    case _ => t
  }

  function CutAt(t: Trace, last: nat): Trace {
    if last <= |t.hist| then t.(hist := t.hist[..last]) else t
  }

  // ---- One lemma per event -----------------------------------------------------------------------

  /** Cutting or extending the log above what is applied changes no snapshot and no replay. */
  lemma SamePast(v: Env, m: Machine, t: Trace, hist: seq<Entry>, n: nat)
    requires CacheOk(v, m, t) && n <= |t.hist| && n <= |hist| && m.node.lastApplied <= n && t.hist[..n] == hist[..n]
    ensures m.cache.keys == Replay(v.commands, hist[..m.cache.applied])
    ensures m.inHand.Some? ==> m.inHand.value == hist[m.cache.applied]
    ensures forall i :: 0 <= i <= m.cache.applied ==>
              TermOf(t.hist, i) == TermOf(hist, i) && PayloadAt(v, t.hist, i) == PayloadAt(v, hist, i)
  {
    forall i | 0 <= i <= n ensures t.hist[..i] == hist[..i] {
      assert t.hist[..i] == t.hist[..n][..i] && hist[..i] == hist[..n][..i];
    }
    forall i | 0 <= i < n ensures t.hist[i] == hist[i] {
      assert t.hist[i] == t.hist[..n][i] && hist[i] == hist[..n][i];
    }
  }

  lemma StillSnap(v: Env, m: Machine, t: Trace, hist: seq<Entry>, n: nat)
    requires CacheOk(v, m, t) && n <= |t.hist| && n <= |hist| && m.node.lastApplied <= n && t.hist[..n] == hist[..n]
    requires t.base <= m.cache.applied && SnapOk(v, m.snap, t.hist, t.base)
    ensures SnapOk(v, m.snap, hist, t.base)
  {
    hide Replay, SnapshotFile.Load, PayloadAt;
    SamePast(v, m, t, hist, n);
  }

  lemma PublishKeeps(v: Env, m: Machine, t: Trace, e: Entry)
    requires Inv(v, m, t) && Allowed(v, m, Publish(e))
    ensures Inv(v, After(v, m, Publish(e)), TraceAfter(v, m, t, Publish(e)))
  {
    hide Replay, WalFormat.Image, SnapshotFile.Load, PayloadAt;
    var hist := t.hist + [e];
    SamePast(v, m, t, hist, |t.hist|);
    StillSnap(v, m, t, hist, |t.hist|);
    hide SnapOk;
    assert t.hist[m.node.offset..] + [e] == hist[m.node.offset..];
  }

  lemma CutMemoryKeeps(v: Env, m: Machine, t: Trace, last: nat)
    requires Inv(v, m, t) && Allowed(v, m, CutMemory(last))
    ensures last <= |t.hist| && Inv(v, After(v, m, CutMemory(last)), TraceAfter(v, m, t, CutMemory(last)))
  {
    hide Replay, WalFormat.Image, SnapshotFile.Load, PayloadAt;
    var hist := t.hist[..last];
    SamePast(v, m, t, hist, last);
    StillSnap(v, m, t, hist, last);
    hide SnapOk;
    assert TruncateSliceAfter(m.node.log, m.node.offset, last) == hist[m.node.offset..];
  }

  /** The file changes as the list of its records does, and nothing else changes. */
  lemma FileKeeps(v: Env, m: Machine, t: Trace, op: Wal.Op)
    requires EnvOk(v) && Inv(v, m, t) && (op.Append? ==> WalFormat.Fits(v.wal, op.e))
    ensures Inv(v, m.(wal := Wal.FileAfter(v.wal, m.wal, op)), t.(records := Wal.ListAfter(v.wal, t.records, op)))
  {
    hide Replay, Wal.FileAfter, WalFormat.Image, SnapshotFile.Load, PayloadAt, SnapOk, Filter;
    Wal.StepRefines(v.wal, t.records, op);
  }

  lemma AppendKeeps(v: Env, m: Machine, t: Trace, e: Entry)
    requires EnvOk(v) && Inv(v, m, t) && Allowed(v, m, Append(e))
    ensures Inv(v, After(v, m, Append(e)), TraceAfter(v, m, t, Append(e)))
  {
    hide Inv, Replay, WalFormat.Fits;
    PublishKeeps(v, m, t, e);
    FileKeeps(v, After(v, m, Publish(e)), TraceAfter(v, m, t, Publish(e)), Wal.Append(e));
  }

  lemma TruncateKeeps(v: Env, m: Machine, t: Trace, last: nat)
    requires EnvOk(v) && Inv(v, m, t) && Allowed(v, m, Truncate(last))
    ensures last <= |t.hist| && Inv(v, After(v, m, Truncate(last)), TraceAfter(v, m, t, Truncate(last)))
  {
    hide Inv;
    CutMemoryKeeps(v, m, t, last);
    FileKeeps(v, After(v, m, CutMemory(last)), TraceAfter(v, m, t, CutMemory(last)), Wal.Truncate(UpTo(last)));
  }

  lemma CommitKeeps(v: Env, m: Machine, t: Trace, i: nat)
    requires Inv(v, m, t) && Allowed(v, m, Commit(i))
    ensures Inv(v, After(v, m, Commit(i)), t)
  {
    hide Replay, WalFormat.Image, SnapshotFile.Load;
  }

  lemma ProvideKeeps(v: Env, m: Machine, t: Trace)
    requires Inv(v, m, t)
    ensures Inv(v, After(v, m, CallProvider), t)
  {
    hide Replay, WalFormat.Image, SnapshotFile.Load;
  }

  lemma FetchKeeps(v: Env, m: Machine, t: Trace)
    requires Inv(v, m, t)
    ensures Inv(v, After(v, m, Fetch), t)
  {
    hide Replay, WalFormat.Image, SnapshotFile.Load;
  }

  lemma DeliverKeeps(v: Env, m: Machine, t: Trace)
    requires Inv(v, m, t)
    ensures Inv(v, After(v, m, Deliver), t)
  {
    hide Replay, WalFormat.Image, SnapshotFile.Load, Effect;
    if m.inHand.Some? { ReplayOneMore(v.commands, t.hist, m.cache.applied); }
  }

  lemma ReplayOneMore(d: Decoder, hist: seq<Entry>, i: nat)
    requires i < |hist|
    ensures Effect(d, Replay(d, hist[..i]), hist[i].command) == Replay(d, hist[..i + 1])
  {
    assert hist[..i + 1][..i] == hist[..i] && hist[..i + 1][i] == hist[i];
  }

  lemma CheckedTerm(n: Node, hist: seq<Entry>, i: nat)
    requires n.offset == n.snapIndex <= |hist| && n.log == hist[n.offset..] && CompactCheck(n, i).Some?
    ensures n.snapIndex < i <= |hist| && CompactCheck(n, i) == Some(TermOf(hist, i))
  {
  }

  lemma SaveKeeps(v: Env, m: Machine, t: Trace)
    requires Inv(v, m, t)
    ensures Inv(v, AfterSave(v, m), TraceAfter(v, m, t, Save))
  {
    hide Replay, WalFormat.Image, SnapshotFile.Image, SnapshotFile.Load, PayloadAt, WalFormat.AllFit, InOrder,
         CompactCheck;
    var r := AfterSave(v, m);
    if m.stage.Provided? && r.stage.Saved? {
      var i, term := r.stage.index, r.stage.term;
      CheckedTerm(m.node, t.hist, i);
      SnapshotFile.LoadIff(v.step, r.snap.value, SnapshotFile.Snapshot(i, term, m.stage.data));
    }
  }

  lemma DropKeeps(v: Env, m: Machine, t: Trace)
    requires Inv(v, m, t)
    ensures Inv(v, After(v, m, Drop), t)
  {
    hide Replay, WalFormat.Image, SnapshotFile.Load, PayloadAt, WalFormat.AllFit, InOrder, CompactDrop;
    if m.stage.Saved? { DropLeaves(m.node, t.hist, m.stage.index, m.stage.term); }
  }

  lemma DropLeaves(n: Node, hist: seq<Entry>, i: nat, term: nat)
    requires n.offset == n.snapIndex < i <= |hist| && n.log == hist[n.offset..]
    ensures CompactDrop(n, i, term) == n.(log := hist[i..], offset := i, snapIndex := i, snapTerm := term)
  {
  }

  lemma TrimKeeps(v: Env, m: Machine, t: Trace)
    requires EnvOk(v) && Inv(v, m, t)
    ensures Inv(v, After(v, m, Trim), TraceAfter(v, m, t, Trim))
  {
    hide Replay, Wal.FileAfter, WalFormat.Image, SnapshotFile.Load, Filter, SnapOk, PayloadAt;
    if m.stage.Dropped? { FileKeeps(v, m, t, Wal.Truncate(From(m.stage.index + 1))); }
  }

  lemma GiveUpKeeps(v: Env, m: Machine, t: Trace)
    requires Inv(v, m, t)
    ensures Inv(v, After(v, m, GiveUp), t)
  {
    hide Replay, WalFormat.Image, SnapshotFile.Load;
  }

  lemma {:induction false} ReplayedIs(n: Node, es: seq<Entry>)
    ensures var m := Replayed(n, es); m == n.(log := n.log + Beyond(n.snapIndex, es), term := m.term)
  {
    if es != [] { ReplayedIs(n, es[..|es| - 1]); }
  }

  lemma InstallsBack(v: Env, hist: seq<Entry>, i: nat)
    requires EnvOk(v) && i <= |hist|
    ensures Install(v.payload, Cache(map[], 0), PayloadAt(v, hist, i), i)
            == Some(Cache(Replay(v.commands, hist[..i]), i))
  {
  }

  /** What start-up makes of a snapshot at base and a log file that reads as these records. */
  lemma LoadsFrom(v: Env, snap: Option<seq<Byte>>, wal: seq<Byte>, hist: seq<Entry>, base: nat,
        records: seq<Entry>)
    returns (n: Node)
    requires EnvOk(v) && SnapOk(v, snap, hist, base)
    requires WalFormat.Read(v.wal, wal).status != WalFormat.Tampered && WalFormat.Read(v.wal, wal).entries == records
    ensures Load(v, snap, wal) == Some((n, Cache(Replay(v.commands, hist[..base]), base)))
    ensures n.log == Beyond(base, records) && n.offset == n.snapIndex == n.commit == n.lastApplied == base
    ensures n.snapTerm == TermOf(hist, base)
  {
    hide Replay, WalFormat.Read, SnapshotFile.Load, Replayed, Install, PayloadAt, Filter;
    if snap.None? {
      n := Replayed(Blank(v), records);
      ReplayedIs(Blank(v), records);
      assert hist[..0] == [] && [] + Beyond(0, records) == Beyond(0, records);
      EmptyReplay(v.commands);
    } else {
      var n0 := AtSnapshot(Blank(v), base, TermOf(hist, base));
      n := Replayed(n0, records);
      ReplayedIs(n0, records);
      assert [] + Beyond(base, records) == Beyond(base, records);
      InstallsBack(v, hist, base);
    }
  }

  lemma LoadsWhat(v: Env, m: Machine, t: Trace) returns (n: Node)
    requires EnvOk(v) && DiskOk(v, m, t)
    ensures Load(v, m.snap, m.wal) == Some((n, Cache(Replay(v.commands, t.hist[..t.base]), t.base)))
    ensures n.log == Beyond(t.base, t.records) && n.offset == n.snapIndex == n.commit == n.lastApplied == t.base
    ensures n.snapTerm == TermOf(t.hist, t.base)
  {
    hide Replay, WalFormat.Image, WalFormat.Read, SnapOk, Load;
    WalFormat.ReadBack(v.wal, t.records);
    n := LoadsFrom(v, m.snap, m.wal, t.hist, t.base, t.records);
  }

  /** Start-up never fails on the node's own files, and gets back the snapshot's replay and the records behind it. */
  lemma RestartKeeps(v: Env, m: Machine, t: Trace)
    requires EnvOk(v) && Inv(v, m, t)
    ensures t.base <= |t.hist| && Load(v, m.snap, m.wal).Some?
    ensures Allowed(v, m, Restart) ==> Inv(v, AfterRestart(v, m), t.(hist := Recovered(t)))
    ensures var r := AfterRestart(v, m);
            r.node.log == Beyond(t.base, t.records) && r.node.offset == r.node.snapIndex == r.cache.applied == t.base
  {
    hide Replay, WalFormat.Image, SnapshotFile.Load, Load, PayloadAt, Beyond, InOrder;
    var n := LoadsWhat(v, m, t);
    var hist := Recovered(t);
    assert hist[t.base..] == Beyond(t.base, t.records) && hist[..t.base] == t.hist[..t.base];
    PastOf(v, t.hist, hist, t.base);
    if Allowed(v, m, Restart) { JoinedInOrder(t.hist, t.base, Beyond(t.base, t.records)); }
  }

  lemma JoinedInOrder(hist: seq<Entry>, base: nat, rest: seq<Entry>)
    requires InOrder(hist, 0) && base <= |hist| && InOrder(rest, base)
    ensures InOrder(hist[..base] + rest, 0)
  {
  }

  lemma PastOf(v: Env, a: seq<Entry>, b: seq<Entry>, n: nat)
    requires n <= |a| && n <= |b| && a[..n] == b[..n]
    ensures TermOf(a, n) == TermOf(b, n) && PayloadAt(v, a, n) == PayloadAt(v, b, n)
  {
    assert n > 0 ==> a[n - 1] == a[..n][n - 1] && b[n - 1] == b[..n][n - 1];
  }

  lemma EmptyReplay(d: Decoder)
    ensures Replay(d, []) == map[]
  {
  }

  lemma StepKeeps(v: Env, m: Machine, t: Trace, ev: Event)
    requires EnvOk(v) && Inv(v, m, t) && Allowed(v, m, ev)
    ensures Inv(v, After(v, m, ev), TraceAfter(v, m, t, ev))
  {
    hide Inv;
    match ev
    case Append(e) => AppendKeeps(v, m, t, e);
    case Publish(e) => PublishKeeps(v, m, t, e);
    case Store(e) => FileKeeps(v, m, t, Wal.Append(e));
    case Truncate(last) => TruncateKeeps(v, m, t, last);
    case CutMemory(last) => CutMemoryKeeps(v, m, t, last);
    case Commit(i) => CommitKeeps(v, m, t, i);
    case Fetch => FetchKeeps(v, m, t);
    case Deliver => DeliverKeeps(v, m, t);
    case CallProvider => ProvideKeeps(v, m, t);
    case Save => SaveKeeps(v, m, t);
    case Drop => DropKeeps(v, m, t);
    case Trim => TrimKeeps(v, m, t);
    case GiveUp => GiveUpKeeps(v, m, t);
    case Restart => RestartKeeps(v, m, t);
  }

  // ---- Whole runs ----------------------------------------------------------------------------------

  ghost function MachineAfter(v: Env, evs: seq<Event>): Machine {
    if evs == [] then Start(v) else After(v, MachineAfter(v, evs[..|evs| - 1]), evs[|evs| - 1])
  }

  ghost predicate Runs(v: Env, evs: seq<Event>) {
    evs != [] ==> Runs(v, evs[..|evs| - 1]) && Allowed(v, MachineAfter(v, evs[..|evs| - 1]), evs[|evs| - 1])
  }

  ghost function TraceOf(v: Env, evs: seq<Event>): Trace {
    if evs == [] then Trace([], 0, [])
    else TraceAfter(v, MachineAfter(v, evs[..|evs| - 1]), TraceOf(v, evs[..|evs| - 1]), evs[|evs| - 1])
  }

  lemma StartKeeps(v: Env)
    ensures Inv(v, Start(v), Trace([], 0, []))
  {
  }

  lemma {:induction false} RunKeeps(v: Env, evs: seq<Event>)
    requires EnvOk(v) && Runs(v, evs)
    ensures Inv(v, MachineAfter(v, evs), TraceOf(v, evs))
  {
    hide Inv, After, Allowed, TraceAfter;
    if evs == [] {
      StartKeeps(v);
    } else {
      var init := evs[..|evs| - 1];
      RunKeeps(v, init);
      StepKeeps(v, MachineAfter(v, init), TraceOf(v, init), evs[|evs| - 1]);
    }
  }

  ghost predicate Explains(v: Env, hist: seq<Entry>, n: Node, c: Cache) {
    && c.applied <= |hist| && c.keys == Replay(v.commands, hist[..c.applied])
    && n.offset <= |hist| && n.log == hist[n.offset..]
  }

  /**
   In every run, however memory and file have moved apart, the cache is the replay of the history up to
   its counter and the node's log is the history beyond its offset. A crash at that moment, inside a
   compaction or not, starts up again, and what the files hold explains the node and the cache; the
   history does so exactly when the records behind the snapshot are the rest of it.
   */
  lemma FilesDecide(v: Env, evs: seq<Event>)
    requires EnvOk(v) && Runs(v, evs)
    ensures var m, t := MachineAfter(v, evs), TraceOf(v, evs);
            && t.base <= |t.hist| && Explains(v, t.hist, m.node, m.cache) && Load(v, m.snap, m.wal).Some?
            && var (node, cache) := Load(v, m.snap, m.wal).value;
               && Explains(v, Recovered(t), node, cache) && node.offset == t.base
               && m.node.snapIndex <= node.snapIndex == node.lastApplied == cache.applied <= m.cache.applied
               && (Explains(v, t.hist, node, cache) <==> Recovered(t) == t.hist)
  {
    hide Load, Replay, Runs, MachineAfter, TraceOf, Filter;
    RunKeeps(v, evs);
    var m, t := MachineAfter(v, evs), TraceOf(v, evs);
    var n := LoadsWhat(v, m, t);
    assert Recovered(t)[..t.base] == t.hist[..t.base] && Recovered(t)[t.base..] == Beyond(t.base, t.records);
    assert t.hist[..t.base] + t.hist[t.base..] == t.hist;
  }

  // ---- Runs in which memory and file move together ---------------------------------------------------

  predicate Together(ev: Event) {
    !ev.Publish? && !ev.Store? && !ev.CutMemory?
  }

  /** Where an event finds the trace, by index. */
  ghost predicate Placed(v: Env, m: Machine, t: Trace, ev: Event) {
    && t.base <= |t.hist|
    && (ev.Append? || ev.Publish? ==> ev.e.index == |t.hist| + 1)
    && (ev.Truncate? || ev.CutMemory? ==> t.base <= ev.last <= |t.hist|)
    && (ev.Trim? && m.stage.Dropped? ==> m.stage.index == t.base)
    && (ev.Save? && AfterSave(v, m).stage.Saved? ==> t.base <= AfterSave(v, m).stage.index <= |t.hist|)
  }

  lemma EventPlaced(v: Env, m: Machine, t: Trace, ev: Event)
    requires Inv(v, m, t) && Allowed(v, m, ev)
    ensures Placed(v, m, t, ev)
  {
    hide Replay, WalFormat.Image, SnapshotFile.Load, PayloadAt, SnapOk, CompactCheck, WalFormat.Fits, Load,
         SnapshotFile.Image;
    if ev.Save? && m.stage.Provided? && AfterSave(v, m).stage.Saved? { CheckedTerm(m.node, t.hist, m.stage.index); }
  }

  /** The file holds the history from `from` on. */
  ghost predicate InStep(t: Trace, from: nat) {
    InOrder(t.hist, 0) && from <= t.base <= |t.hist| && t.records == t.hist[from..]
  }

  lemma InStepRecovers(t: Trace, from: nat)
    requires InStep(t, from)
    ensures Recovered(t) == t.hist
  {
    hide Filter;
    FromIsSuffix(t.base + 1, t.records, from);
    assert t.records[t.base - from..] == t.hist[t.base..];
    assert t.hist[..t.base] + t.hist[t.base..] == t.hist;
  }

  /** Where the file starts after an event. */
  function FromAfter(m: Machine, from: nat, ev: Event): nat {
    if ev.Trim? && m.stage.Dropped? then m.stage.index else from
  }

  lemma AppendInStep(t: Trace, from: nat, e: Entry)
    requires InStep(t, from) && e.index == |t.hist| + 1
    ensures InStep(Trace(t.hist + [e], t.base, t.records + [e]), from)
  {
    assert t.hist[from..] + [e] == (t.hist + [e])[from..];
  }

  lemma CutInStep(t: Trace, from: nat, last: nat)
    requires InStep(t, from) && t.base <= last <= |t.hist|
    ensures InStep(Trace(t.hist[..last], t.base, Filter(UpTo(last), t.records)), from)
  {
    hide Filter;
    UpToIsPrefix(last, t.records, from);
    assert t.hist[from..][..last - from] == t.hist[..last][from..];
  }

  lemma TrimInStep(t: Trace, from: nat)
    requires InStep(t, from)
    ensures InStep(t.(records := Beyond(t.base, t.records)), t.base)
  {
    hide Filter;
    FromIsSuffix(t.base + 1, t.records, from);
    assert t.hist[from..][t.base - from..] == t.hist[t.base..];
  }

  lemma TogetherKeeps(v: Env, m: Machine, t: Trace, from: nat, ev: Event)
    requires Placed(v, m, t, ev) && InStep(t, from) && Together(ev)
    ensures InStep(TraceAfter(v, m, t, ev), FromAfter(m, from, ev))
  {
    hide AfterSave, Filter, InOrder;
    match ev
    case Append(e) => AppendInStep(t, from, e);
    case Truncate(last) => CutInStep(t, from, last);
    case Trim => if m.stage.Dropped? { TrimInStep(t, from); }
    case Restart => InStepRecovers(t, from);
    case _ =>
  }

  /**
   Without a write or a cut that fails halfway and with submissions persisted as they are published,
   a crash at any point recovers the history itself.
   */
  lemma NothingIsLost(v: Env, evs: seq<Event>)
    requires EnvOk(v) && Runs(v, evs) && forall i :: 0 <= i < |evs| ==> Together(evs[i])
    ensures var m, t := MachineAfter(v, evs), TraceOf(v, evs);
            && Load(v, m.snap, m.wal).Some?
            && Explains(v, t.hist, Load(v, m.snap, m.wal).value.0, Load(v, m.snap, m.wal).value.1)
  {
    hide Load, Replay, Runs, Explains;
    FilesDecide(v, evs);
    var from := StaysInStep(v, evs);
    InStepRecovers(TraceOf(v, evs), from);
  }

  lemma {:induction false} StaysInStep(v: Env, evs: seq<Event>) returns (from: nat)
    requires EnvOk(v) && Runs(v, evs) && forall i :: 0 <= i < |evs| ==> Together(evs[i])
    ensures InStep(TraceOf(v, evs), from)
  {
    hide After, Allowed, TraceAfter, Inv, Placed;
    if evs == [] {
      from := 0;
    } else {
      var init := evs[..|evs| - 1];
      from := StaysInStep(v, init);
      RunKeeps(v, init);
      EventPlaced(v, MachineAfter(v, init), TraceOf(v, init), evs[|evs| - 1]);
      TogetherKeeps(v, MachineAfter(v, init), TraceOf(v, init), from, evs[|evs| - 1]);
      from := FromAfter(MachineAfter(v, init), from, evs[|evs| - 1]);
    }
  }

  // ---- A crash inside an append --------------------------------------------------------------------

  /** The log file when a crash stops the write of a record after k of its bytes. */
  function TornWal(v: Env, m: Machine, e: Entry, k: nat): seq<Byte>
    requires WalFormat.Fits(v.wal, e) && k <= |WalFormat.Record(v.wal, e)|
  {
    m.wal + WalFormat.Record(v.wal, e)[..k]
  }

  lemma TornReads(v: Env, es: seq<Entry>, e: Entry, k: nat)
    requires EnvOk(v) && WalFormat.AllFit(v.wal, es) && WalFormat.Fits(v.wal, e) && k <= |WalFormat.Record(v.wal, e)|
    ensures var r := WalFormat.Read(v.wal, WalFormat.Image(v.wal, es) + WalFormat.Record(v.wal, e)[..k]);
            && r.entries == (if k == |WalFormat.Record(v.wal, e)| then es + [e] else es)
            && r.status == if 0 < k < |WalFormat.Record(v.wal, e)| then WalFormat.Corrupt else WalFormat.Clean
  {
    hide WalFormat.Read, WalFormat.Record, WalFormat.Image, WalFormat.Records;
    var all, cut := es + [e], |WalFormat.Image(v.wal, es)| + k;
    Wal.ImageAppend(v.wal, es, [e]);
    assert WalFormat.Image(v.wal, all)[..cut] == WalFormat.Image(v.wal, es) + WalFormat.Record(v.wal, e)[..k];
    var j := WalFormat.CutReads(v.wal, all, cut);
    assert all[..|es|] == es && all[..|all|] == all;
    TornBounds(v, es, e, j, cut);
  }

  /** The cut lies at or after the end of es, so nothing of es is lost. */
  lemma TornBounds(v: Env, es: seq<Entry>, e: Entry, j: nat, cut: nat)
    requires WalFormat.AllFit(v.wal, es + [e]) && WalFormat.AllFit(v.wal, es) && j <= |es| + 1
    requires |WalFormat.Image(v.wal, es)| <= cut
    requires j < |es| + 1 ==> cut < |WalFormat.Image(v.wal, (es + [e])[..j + 1])|
    ensures j >= |es|
  {
    hide WalFormat.Image;
    assert (es + [e])[|es|] == e;
    if j < |es| { Wal.PrefixShorter(v.wal, es, [e], j + 1); }
  }

  /** A crash anywhere inside the write of an appended record loses that entry at most. */
  lemma TornAppendLosesOnlyIt(v: Env, evs: seq<Event>, e: Entry, k: nat)
    requires EnvOk(v) && Runs(v, evs) && Allowed(v, MachineAfter(v, evs), Append(e))
             && k <= |WalFormat.Record(v.wal, e)|
    ensures var m, t := MachineAfter(v, evs), TraceOf(v, evs);
            var loaded := Load(v, m.snap, TornWal(v, m, e, k));
            && t.base <= |t.hist| && loaded.Some?
            && var now := if k == |WalFormat.Record(v.wal, e)| then Recovered(t) + [e] else Recovered(t);
               Explains(v, now, loaded.value.0, loaded.value.1)
  {
    hide Load, Replay, WalFormat.Record, Runs, MachineAfter, TraceOf;
    RunKeeps(v, evs);
    TornLoads(v, MachineAfter(v, evs), TraceOf(v, evs), e, k);
  }

  lemma TornLoads(v: Env, m: Machine, t: Trace, e: Entry, k: nat)
    requires EnvOk(v) && Inv(v, m, t) && Allowed(v, m, Append(e)) && k <= |WalFormat.Record(v.wal, e)|
    ensures var loaded := Load(v, m.snap, TornWal(v, m, e, k));
            && t.base <= |t.hist| && loaded.Some?
            && var now := if k == |WalFormat.Record(v.wal, e)| then Recovered(t) + [e] else Recovered(t);
               Explains(v, now, loaded.value.0, loaded.value.1)
  {
    hide Replay, WalFormat.Image, WalFormat.Record, WalFormat.Read, Load, SnapOk;
    TornReads(v, t.records, e, k);
    var whole := k == |WalFormat.Record(v.wal, e)|;
    var records := if whole then t.records + [e] else t.records;
    var n := LoadsFrom(v, m.snap, TornWal(v, m, e, k), t.hist, t.base, records);
    var hist := t.hist[..t.base] + Beyond(t.base, records);
    assert hist[t.base..] == Beyond(t.base, records) && hist[..t.base] == t.hist[..t.base];
    if whole {
      assert (t.records + [e])[..|t.records|] == t.records;
      assert hist == Recovered(t) + [e];
    }
  }

  // ---- When start-up refuses ----------------------------------------------------------------------

  /**
   Start-up refuses exactly when a record that is whole carries a wrong keyed hash, or there is a snapshot
   file that is not one or whose payload the cache cannot take. A torn log is not refused.
   */
  lemma LoadRefusesIff(v: Env, snap: Option<seq<Byte>>, wal: seq<Byte>)
    ensures Load(v, snap, wal) == None <==>
            || WalFormat.Read(v.wal, wal).status == WalFormat.Tampered
            || (snap.Some? && forall s :: !(SnapshotFile.Load(v.step, snap.value) == Some(s) && Takes(v, s.data)))
  {
    if snap.Some? && SnapshotFile.Load(v.step, snap.value).Some? {
      var s := SnapshotFile.Load(v.step, snap.value).value;
      assert Install(v.payload, Cache(map[], 0), s.data, s.index).Some? <==> Takes(v, s.data);
    }
  }

  /** The payload is empty, or decodes as one of the version in use. */
  predicate Takes(v: Env, data: seq<Byte>) {
    data == [] || (v.payload.decode(data).Some? && v.payload.decode(data).value.0 == SNAPSHOT_VERSION)
  }

  /** No log with such a record starts up, whatever the snapshot. */
  lemma TamperedRefused(v: Env, snap: Option<seq<Byte>>, es: seq<Entry>, p: seq<Byte>, m: WalFormat.Mac,
        rest: seq<Byte>)
    requires EnvOk(v) && WalFormat.AllFit(v.wal, es) && WalFormat.Framable(p)
    requires m != v.wal.mac(WalFormat.Lead(v.wal, p) + p)
    ensures Load(v, snap, WalFormat.Image(v.wal, es) + (WalFormat.Lead(v.wal, p) + m + p + rest)) == None
  {
    hide WalFormat.Read, SnapshotFile.Load, WalFormat.Image;
    WalFormat.TamperedStops(v.wal, es, p, m, rest);
  }
}
