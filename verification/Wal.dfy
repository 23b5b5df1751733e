/** The write-ahead log as an object over its file (internal/zero/raft/wal*.go), and the list it refines. */
module Wal {
  import opened Options
  import opened Bytes
  import opened RaftTypes
  import opened WalFormat
  import opened LogFilter

  // "MXKS_WAL_v2" and a zero byte.
  const MAGIC_V2: seq<Byte> := [77, 88, 75, 83, 95, 87, 65, 76, 95, 118, 50, 0]

  datatype Opening = Ready(file: seq<Byte>) | LegacyFormat | BadFormat

  function Opened(file: seq<Byte>): Opening {
    if file == [] then Ready(MAGIC)
    else if |file| < |MAGIC| then BadFormat
    else if file[..|MAGIC|] == MAGIC then Ready(file)
    else if file[..|MAGIC|] == MAGIC_V2 then LegacyFormat
    else BadFormat
  }

  datatype Op = Append(e: Entry) | Batch(es: seq<Entry>) | Truncate(keep: Keep)

  // ---- The list ----

  /** A batch stops at the first entry that cannot be written; what precedes it stays written. */
  function Written(c: Codec<Entry>, es: seq<Entry>): (ws: seq<Entry>)
    ensures AllFit(c, ws) && ws <= es && (|ws| < |es| ==> !Fits(c, es[|ws|]))
  {
    if es == [] || !Fits(c, es[0]) then [] else [es[0]] + Written(c, es[1..])
  }

  function ListAfter(c: Codec<Entry>, es: seq<Entry>, op: Op): seq<Entry> {
    match op
    case Append(e) => if Fits(c, e) then es + [e] else es
    case Batch(fs) => es + Written(c, fs)
    case Truncate(k) => Filter(k, es)
  }

  function ListRun(c: Codec<Entry>, ops: seq<Op>): seq<Entry> {
    if ops == [] then [] else ListAfter(c, ListRun(c, ops[..|ops| - 1]), ops[|ops| - 1])
  }

  lemma WrittenStops(c: Codec<Entry>, es: seq<Entry>, i: nat)
    requires i < |es| && AllFit(c, es[..i]) && !Fits(c, es[i])
    ensures Written(c, es) == es[..i]
  {
  }

  lemma WrittenAll(c: Codec<Entry>, es: seq<Entry>)
    requires AllFit(c, es)
    ensures Written(c, es) == es
  {
  }

  // ---- The file ----

  /** A tampered file and an entry that cannot be written again leave the file as it was. */
  ghost function FileAfter(c: Codec<Entry>, file: seq<Byte>, op: Op): seq<Byte> {
    match op
    case Append(e) => if Fits(c, e) then file + Record(c, e) else file
    case Batch(es) => file + Records(c, Written(c, es))
    case Truncate(k) =>
      var kept := Filter(k, Read(c, file).entries);
      if Read(c, file).status != Tampered && AllFit(c, kept) then Image(c, kept) else file
  }

  ghost function FileRun(c: Codec<Entry>, ops: seq<Op>): seq<Byte> {
    if ops == [] then MAGIC else FileAfter(c, FileRun(c, ops[..|ops| - 1]), ops[|ops| - 1])
  }

  lemma {:induction false} FilterFits(c: Codec<Entry>, k: Keep, es: seq<Entry>)
    requires AllFit(c, es)
    ensures AllFit(c, Filter(k, es))
  {
    if es != [] { FilterFits(c, k, es[..|es| - 1]); }
  }

  lemma StepRefines(c: Codec<Entry>, es: seq<Entry>, op: Op)
    requires Sound(c) && AllFit(c, es)
    ensures AllFit(c, ListAfter(c, es, op))
    ensures FileAfter(c, Image(c, es), op) == Image(c, ListAfter(c, es, op))
  {
    hide Read, Record, Records, Image;
    match op
    case Append(e) => if Fits(c, e) { ImageAppend(c, es, [e]); }
    case Batch(fs) => ImageAppend(c, es, Written(c, fs));
    case Truncate(k) =>
      ReadBack(c, es);
      FilterFits(c, k, es);
  }

  lemma ImageAppend(c: Codec<Entry>, es: seq<Entry>, fs: seq<Entry>)
    requires AllFit(c, es) && AllFit(c, fs)
    ensures AllFit(c, es + fs) && Image(c, es + fs) == Image(c, es) + Records(c, fs)
    ensures |fs| == 1 ==> Records(c, fs) == Record(c, fs[0])
  {
    hide Record;
    RecordsAppend(c, es, fs);
    assert MAGIC + (Records(c, es) + Records(c, fs)) == MAGIC + Records(c, es) + Records(c, fs);
  }

  /** From a clean file, every run of appends and truncations reads back as the same run on a list. */
  lemma {:induction false} RunRefinesList(c: Codec<Entry>, ops: seq<Op>)
    requires Sound(c)
    ensures AllFit(c, ListRun(c, ops)) && FileRun(c, ops) == Image(c, ListRun(c, ops))
    ensures Read(c, FileRun(c, ops)) == Reading(ListRun(c, ops), Clean)
  {
    if ops == [] {
      assert Image(c, []) == MAGIC + [];
    } else {
      RunRefinesList(c, ops[..|ops| - 1]);
      StepRefines(c, ListRun(c, ops[..|ops| - 1]), ops[|ops| - 1]);
    }
    ReadBack(c, ListRun(c, ops));
  }

  /** A torn tail loses whole records from the end only, and a truncation makes the file clean again. */
  lemma TruncateRepairs(c: Codec<Entry>, ops: seq<Op>, k: nat, keep: Keep) returns (j: nat)
    requires Sound(c) && k <= |FileRun(c, ops)|
    ensures j <= |ListRun(c, ops)| && Read(c, FileRun(c, ops)[..k]).entries == ListRun(c, ops)[..j]
    ensures Read(c, FileAfter(c, FileRun(c, ops)[..k], Truncate(keep))) ==
            Reading(Filter(keep, ListRun(c, ops)[..j]), Clean)
  {
    hide Read, Image;
    RunRefinesList(c, ops);
    j := CutReads(c, ListRun(c, ops), k);
    FilterFits(c, keep, ListRun(c, ops)[..j]);
    ReadBack(c, Filter(keep, ListRun(c, ops)[..j]));
  }

  /** What a file with so much room takes of a batch. */
  function Landed(c: Codec<Entry>, es: seq<Entry>, room: nat): seq<Byte> {
    var bytes := Records(c, Written(c, es));
    bytes[..Min(room, |bytes|)]
  }

  lemma LandedOne(c: Codec<Entry>, e: Entry, room: nat)
    ensures Landed(c, [e], room) == if Fits(c, e) then Record(c, e)[..Min(room, |Record(c, e)|)] else []
    ensures Fits(c, e) ==> |Record(c, e)| <= HEADER + MAX_RECORD
  {
    hide Record;
    if Fits(c, e) {
      assert Written(c, [e]) == [e] && [e][1..] == [];
      assert Records(c, [e]) == Record(c, e) + [];
      RecordSize(c, e);
    }
  }

  lemma RecordSize(c: Codec<Entry>, e: Entry)
    requires Fits(c, e)
    ensures |Record(c, e)| <= HEADER + MAX_RECORD
  {
  }

  lemma LandedNone(c: Codec<Entry>, items: seq<Entry>)
    ensures items[..0] == [] && AllFit(c, items[..0]) && Records(c, items[..0]) == []
  {
  }

  lemma LandedAll(c: Codec<Entry>, items: seq<Entry>, room: nat)
    requires AllFit(c, items) && |Records(c, items)| <= room
    ensures Written(c, items) == items && Landed(c, items, room) == Records(c, items)
  {
    WrittenAll(c, items);
  }

  /** The batch ends at entry i, which does not fit a record or the room that is left. */
  lemma LandedStops(c: Codec<Entry>, items: seq<Entry>, i: nat, room: nat, start: seq<Byte>)
    requires i < |items| && AllFit(c, items[..i]) && |Records(c, items[..i])| <= room
    requires var left := room - |Records(c, items[..i])|; !(Fits(c, items[i]) && |Record(c, items[i])| <= left)
    ensures var left := room - |Records(c, items[..i])|;
            && start + Records(c, items[..i]) + Landed(c, [items[i]], left) == start + Landed(c, items, room)
            && !(Written(c, items) == items && |Records(c, Written(c, items))| <= room)
  {
    hide Record, Landed;
    var done, left := Records(c, items[..i]), room - |Records(c, items[..i])|;
    LandedOne(c, items[i], left);
    if Fits(c, items[i]) {
      RecordsSnoc(c, items, i);
      WrittenReaches(c, items, i + 1);
      var rest := Written(c, items)[i + 1..];
      assert Written(c, items) == items[..i + 1] + rest;
      RecordsAppend(c, items[..i + 1], rest);
      LandedIs(c, items, room, done, Record(c, items[i]), Records(c, rest));
    } else {
      WrittenStops(c, items, i);
      LandedIs(c, items, room, done, [], []);
      assert start + done + [] == start + done;
    }
  }

  lemma LandedIs(c: Codec<Entry>, items: seq<Entry>, room: nat, done: seq<Byte>, next: seq<Byte>, rest: seq<Byte>)
    requires Records(c, Written(c, items)) == done + next + rest && |done| <= room
    requires room < |done + next| || next + rest == []
    ensures Landed(c, items, room) == done + next[..Min(room - |done|, |next|)]
  {
  }

  lemma {:induction false} WrittenReaches(c: Codec<Entry>, es: seq<Entry>, i: nat)
    requires i <= |es| && AllFit(c, es[..i])
    ensures |Written(c, es)| >= i && Written(c, es)[..i] == es[..i]
  {
    if i > 0 {
      assert es[1..][..i - 1] == es[..i][1..] && es[..i][0] == es[0];
      WrittenReaches(c, es[1..], i - 1);
    }
  }

  lemma WrittenParts(s: seq<Byte>, a: seq<Byte>, b: seq<Byte>, room: nat)
    ensures room < |a| ==> a[..room] == (a + b)[..Min(room, |a + b|)]
    ensures room >= |a| ==> s + a[..|a|] + b[..Min(room - |a|, |b|)] == s + (a + b)[..Min(room, |a + b|)]
  {
  }

  /**
   What is read back after a batch on a clean file: the entries whole in what landed, all of them when
   everything landed, also if the sync then failed and the caller was told so.
   */
  lemma BatchReads(c: Codec<Entry>, es: seq<Entry>, items: seq<Entry>, room: nat) returns (j: nat)
    requires Sound(c) && AllFit(c, es)
    ensures j <= |Written(c, items)|
    ensures Read(c, Image(c, es) + Landed(c, items, room)).entries == es + Written(c, items)[..j]
    ensures |Records(c, Written(c, items))| <= room ==> j == |Written(c, items)|
  {
    hide Read, Record, Image, Records;
    var ws := Written(c, items);
    ImageAppend(c, es, ws);
    if |Records(c, ws)| <= room {
      ReadBack(c, es + ws);
      j := |ws|;
      assert Landed(c, items, room) == Records(c, ws) && ws[..j] == ws;
    } else {
      var all, cut := es + ws, |Image(c, es)| + room;
      assert Image(c, all)[..cut] == Image(c, es) + Landed(c, items, room);
      var n := CutReads(c, all, cut);
      if n < |es| { PrefixShorter(c, es, ws, n + 1); }
      j := n - |es|;
      assert all[..n] == es + ws[..j];
    }
  }

  lemma PrefixShorter(c: Codec<Entry>, es: seq<Entry>, ws: seq<Entry>, i: nat)
    requires AllFit(c, es) && AllFit(c, ws) && i <= |es|
    ensures AllFit(c, (es + ws)[..i]) && |Image(c, (es + ws)[..i])| <= |Image(c, es)|
  {
    hide Record;
    RecordsAppend(c, es[..i], es[i..]);
    assert es == es[..i] + es[i..] && (es + ws)[..i] == es[..i];
  }

  /** One turn of the read loop. */
  lemma ReadsOn(c: Codec<Entry>, file: seq<Byte>, pos: nat, entries: seq<Entry>)
    requires pos <= |file|
    ensures var next, left := ReadRecord(c, file[pos..]), ReadRecords(c, file[pos..]);
            match next
            case Stop(status) => entries + left.entries == entries && left.status == status
            case Got(e, size) =>
              && 0 < size <= |file| - pos
              && var rest := ReadRecords(c, file[pos + size..]);
                 entries + left.entries == entries + [e] + rest.entries && left.status == rest.status
  {
    hide ReadRecord;
    var next := ReadRecord(c, file[pos..]);
    if next.Got? { assert file[pos..][next.size..] == file[pos + next.size..]; }
  }

  /** Which file the log's handle writes to; a handle that was closed and not replaced writes to none. */
  datatype Handle = Live | Rewriting | Closed

  class Log {
    /** The bytes of raft.wal and of raft.wal.rewrite. */
    var file: seq<Byte>
    var rewrite: seq<Byte>
    var handle: Handle
    const c: Codec<Entry>

    /** Between two calls the handle is never left on the replacement file. */
    ghost predicate Valid()
      reads this
    {
      handle != Rewriting
    }

    constructor (codec: Codec<Entry>, onDisk: seq<Byte>)
      ensures Valid() && file == onDisk && c == codec && handle == Live
    {
      file, rewrite, handle, c := onDisk, [], Live, codec;
    }

    /** A log that opens is one whose reader gets past the magic; any other is left alone. */
    method EnsureMagic() returns (opening: Opening)
      modifies this`file
      ensures opening == Opened(old(file))
      ensures opening.Ready? ==> MAGIC <= file && Read(c, file) == ReadRecords(c, file[|MAGIC|..])
      ensures opening.Ready? ==> Read(c, file) == Read(c, old(file))
      ensures !opening.Ready? ==> Read(c, old(file)) == Reading([], Corrupt)
      ensures file == if opening.Ready? then opening.file else old(file)
    {
      if |file| == 0 {
        file := MAGIC;
        return Ready(file);
      }
      if |file| < |MAGIC| { return BadFormat; }
      var got := file[..|MAGIC|];
      if got == MAGIC { return Ready(file); }
      if got == MAGIC_V2 { return LegacyFormat; }
      return BadFormat;
    }

    /** room: how many bytes the file takes before a write fails; what it took of a record stays. */
    method AppendLocked(e: Entry, room: nat) returns (ok: bool)
      modifies this`file, this`rewrite
      ensures ok == (handle != Closed && Fits(c, e) && |Record(c, e)| <= room)
      ensures file == if handle == Live then old(file) + Landed(c, [e], room) else old(file)
      ensures rewrite == if handle == Rewriting then old(rewrite) + Landed(c, [e], room) else old(rewrite)
    {
      hide Record, Read, Filter, Image, Records, Written, Fits;
      LandedOne(c, e, room);
      var parts := Encode(e);
      if parts.None? || handle == Closed { return false; }
      var (hdr, payload) := parts.value;
      WrittenParts(old(file), hdr, payload, room);
      WrittenParts(old(rewrite), hdr, payload, room);
      ok := Write(hdr, room);
      if !ok { return; }
      ok := Write(payload, room - |hdr|);
    }

    /** The header and the payload of a record. */
    method Encode(e: Entry) returns (r: Option<(seq<Byte>, seq<Byte>)>)
      ensures r.Some? == Fits(c, e)
      ensures r.Some? ==> r.value.0 + r.value.1 == Record(c, e)
    {
      var marshalled := c.marshal(e);
      if marshalled.None? { return None; }
      var payload := marshalled.value;
      if |payload| > MAX_RECORD { return None; }
      var hdr := Le(|payload|, 4) + Le(Fold(c.step, 0, payload), 4);
      hdr := hdr + c.mac(hdr + payload);
      return Some((hdr, payload));
    }

    method Write(bytes: seq<Byte>, room: nat) returns (ok: bool)
      requires handle != Closed
      modifies this`file, this`rewrite
      ensures ok == (|bytes| <= room)
      ensures file == if handle == Live then old(file) + bytes[..Min(room, |bytes|)] else old(file)
      ensures rewrite == if handle == Live then old(rewrite) else old(rewrite) + bytes[..Min(room, |bytes|)]
    {
      ok := |bytes| <= room;
      var taken := if ok then bytes else bytes[..room];
      if handle == Live { file := file + taken; } else { rewrite := rewrite + taken; }
    }

    /** syncAll: whether a batch ends with a sync, which fails unless synced. */
    method WriteBatchLocked(items: seq<Entry>, room: nat, syncAll: bool, synced: bool) returns (ok: bool)
      requires Valid()
      modifies this`file, this`rewrite
      ensures var all := handle == Live && Written(c, items) == items && |Records(c, Written(c, items))| <= room;
              ok == ((all || items == []) && (syncAll ==> handle == Live && synced))
      ensures file == if handle == Live then old(file) + Landed(c, items, room) else old(file)
      ensures rewrite == old(rewrite)
    {
      if handle == Closed {
        if |items| > 0 {
          var _ := AppendLocked(items[0], room);
          return false;
        }
        return !syncAll;
      }
      hide Record, Fits, Landed;
      ok := WriteItems(items, room);
      if !ok { return; }
      ok := !syncAll || synced;
    }

    method WriteItems(items: seq<Entry>, room: nat) returns (ok: bool)
      requires handle == Live
      modifies this`file, this`rewrite
      ensures ok == (Written(c, items) == items && |Records(c, Written(c, items))| <= room)
      ensures file == old(file) + Landed(c, items, room) && rewrite == old(rewrite)
    {
      hide Record, Fits, Written, Landed, AllFit;
      var left: nat := room;
      LandedNone(c, items);
      for i := 0 to |items|
        invariant rewrite == old(rewrite)
        invariant AllFit(c, items[..i]) && room - left == |Records(c, items[..i])|
        invariant file == old(file) + Records(c, items[..i])
      {
        var size := |file|;
        LandedOne(c, items[i], left);
        ok := AppendLocked(items[i], left);
        if !ok {
          LandedStops(c, items, i, room, old(file));
          return;
        }
        RecordsSnoc(c, items, i);
        assert file == old(file) + (Records(c, items[..i]) + Record(c, items[i]));
        left := left - (|file| - size);
      }
      assert items[..|items|] == items;
      LandedAll(c, items, room);
      ok := true;
    }

    /** Nothing is read through a closed handle. */
    method ReadAllLocked() returns (r: Option<Reading<Entry>>)
      requires Valid()
      ensures r == if handle == Live then Some(Read(c, file)) else None
    {
      if handle == Closed { return None; }
      if |file| == 0 { return Some(Reading([], Clean)); }
      if |file| < |MAGIC| || file[..|MAGIC|] != MAGIC { return Some(Reading([], Corrupt)); }
      var records := ReadLoop(file, |MAGIC|);
      return Some(records);
    }

    method ReadLoop(bytes: seq<Byte>, start: nat) returns (r: Reading<Entry>)
      requires start <= |bytes|
      ensures r == ReadRecords(c, bytes[start..])
    {
      hide ReadRecords, ReadRecord;
      var entries, pos := [], start;
      ghost var whole := ReadRecords(c, bytes[start..]);
      assert entries + whole.entries == whole.entries;
      while true
        invariant pos <= |bytes|
        invariant whole == Reading(entries + ReadRecords(c, bytes[pos..]).entries, ReadRecords(c, bytes[pos..]).status)
        decreases |bytes| - pos
      {
        var next := ReadOne(bytes[pos..]);
        ReadsOn(c, bytes, pos, entries);
        if next.Stop? { return Reading(entries, next.status); }
        entries := entries + [next.entry];
        pos := pos + next.size;
      }
    }

    /** The loop body: header, length bounds, payload, checksum, keyed hash, JSON, in that order. */
    method ReadOne(left: seq<Byte>) returns (r: Next<Entry>)
      ensures r == ReadRecord(c, left)
    {
      hide Fold, UnLe;
      if |left| == 0 { return Stop(Clean); }
      if |left| < HEADER { return Stop(Corrupt); }
      var hdr := left[..HEADER];
      assert hdr[..4] == left[..4] && hdr[4..8] == left[4..8] && hdr[..8] == left[..8];
      assert hdr[8..] == left[8..HEADER];
      var length := UnLe(hdr[..4]);
      if length == 0 || length > MAX_RECORD { return Stop(Corrupt); }
      if |left| < HEADER + length { return Stop(Corrupt); }
      var payload := left[HEADER..HEADER + length];
      if Fold(c.step, 0, payload) != UnLe(hdr[4..8]) { return Stop(Corrupt); }
      if c.mac(hdr[..8] + payload) != hdr[8..] { return Stop(Tampered); }
      var entry := c.unmarshal(payload);
      if entry.None? { return Stop(Corrupt); }
      return Got(entry.value, HEADER + length);
    }

    /** ops: how many of the file operations of a rewrite succeed before one fails. */
    method FilterRewrite(k: Keep, ops: nat) returns (ok: bool)
      requires Valid()
      modifies this
      ensures var r, kept := Read(c, old(file)), Filter(k, Read(c, old(file)).entries);
              var can := old(handle) == Live && r.status != Tampered && AllFit(c, kept);
              && Valid() && ok == (can && ops >= |kept| + 6)
              && file == (if can && ops >= |kept| + 5 then FileAfter(c, old(file), Truncate(k)) else old(file))
              && handle == if can && ops >= |kept| + 4 && !ok then Closed else old(handle)
    {
      hide Read;
      var read := ReadAllLocked();
      if read.None? { return false; }
      var r := read.value;
      if r.status == Tampered { return false; }
      var filtered := [];
      for i := 0 to |r.entries|
        invariant file == old(file) && handle == old(handle) && filtered == Filter(k, r.entries[..i])
      {
        assert r.entries[..i + 1][..i] == r.entries[..i];
        if Keeps(k, r.entries[i]) { filtered := filtered + [r.entries[i]]; }
      }
      assert r.entries[..|r.entries|] == r.entries;
      ok := RewriteLocked(filtered, ops);
    }

    /**
     Creates the replacement, writes the magic and the records through the append path, syncs and
     closes it, renames it over the log and opens the log again. A failure before the rename leaves
     the log as it was; one at the rename or after it leaves a log without a handle.
     */
    method RewriteLocked(keep: seq<Entry>, ops: nat) returns (ok: bool)
      requires Valid()
      modifies this
      ensures Valid() && ok == (AllFit(c, keep) && ops >= |keep| + 6)
      ensures file == if AllFit(c, keep) && ops >= |keep| + 5 then Image(c, keep) else old(file)
      ensures handle == if ok then Live else if AllFit(c, keep) && ops >= |keep| + 4 then Closed else old(handle)
    {
      hide Record;
      if ops == 0 { return false; }
      rewrite := [];
      if ops == 1 { return false; }
      rewrite := MAGIC;
      var original := handle;
      handle := Rewriting;
      assert keep[..0] == [] && Records(c, []) == [];
      for i := 0 to |keep|
        invariant AllFit(c, keep[..i]) && rewrite == Image(c, keep[..i])
        invariant file == old(file) && handle == Rewriting && ops >= i + 2
      {
        if ops == i + 2 {
          handle := original;
          return false;
        }
        ok := AppendLocked(keep[i], HEADER + MAX_RECORD);
        LandedOne(c, keep[i], HEADER + MAX_RECORD);
        if !ok {
          handle := original;
          return;
        }
        RecordsSnoc(c, keep, i);
        assert rewrite == MAGIC + (Records(c, keep[..i]) + Record(c, keep[i]));
      }
      assert keep[..|keep|] == keep;
      handle := original;
      if ops < |keep| + 4 { return false; }
      handle := Closed;
      if ops == |keep| + 4 { return false; }
      file := rewrite;
      if ops == |keep| + 5 { return false; }
      handle := Live;
      ok := true;
    }
  }
}
