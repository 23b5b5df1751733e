/**
 After a crash inside a record the code starts from the good prefix and leaves the damage in the file
 (internal/zero/raft/persistence.go, wal_append.go): what is appended behind it.
 */
module TornLog {
  import opened Options
  import opened Bytes
  import opened RaftTypes
  import opened KeyReplay
  import opened LogFilter
  import opened Recovery
  import WalFormat
  import Wal

  /** What the reader makes of the bytes of the torn record and those behind it. */
  function AtTear(v: Env, e: Entry, k: nat, more: seq<Entry>): WalFormat.Next<Entry>
    requires WalFormat.Fits(v.wal, e) && k <= |WalFormat.Record(v.wal, e)|
    requires forall i :: 0 <= i < |more| ==> WalFormat.Fits(v.wal, more[i])
  {
    WalFormat.ReadRecord(v.wal, WalFormat.Record(v.wal, e)[..k] + WalFormat.Records(v.wal, more))
  }

  /**
   A crash inside the record of e, a start, and more appends, each of which succeeds. When the bytes at
   the tear read as corrupt, the next start goes back to what it was before e, without an error and with
   none of the later entries; when they read as tampered with, it is refused. They never read as clean.
   */
  lemma TearHidesLater(v: Env, evs: seq<Event>, e: Entry, k: nat, more: seq<Entry>)
    requires EnvOk(v) && Runs(v, evs) && Allowed(v, MachineAfter(v, evs), Append(e))
    requires 0 < k < |WalFormat.Record(v.wal, e)| && WalFormat.AllFit(v.wal, more)
    ensures var m, t := MachineAfter(v, evs), TraceOf(v, evs);
            var loaded := Load(v, m.snap, TornWal(v, m, e, k) + WalFormat.Records(v.wal, more));
            && t.base <= |t.hist|
            && (AtTear(v, e, k, more) == WalFormat.Stop(WalFormat.Corrupt) ==>
                  && loaded.Some? && Explains(v, Recovered(t), loaded.value.0, loaded.value.1)
                  && loaded.value.0.offset + |loaded.value.0.log| == |Recovered(t)|)
            && (AtTear(v, e, k, more) == WalFormat.Stop(WalFormat.Tampered) ==> loaded == None)
            && AtTear(v, e, k, more) != WalFormat.Stop(WalFormat.Clean)
  {
    hide Load, Replay, Explains, WalFormat.Record, WalFormat.ReadRecord, CacheOk, DiskOk, StageOk, Runs, MachineAfter,
         TraceOf;
    RunKeeps(v, evs);
    var m, t := MachineAfter(v, evs), TraceOf(v, evs);
    DiskHolds(v, m, t);
    TearReads(v, m, t, e, k, more);
    var file := TornWal(v, m, e, k) + WalFormat.Records(v.wal, more);
    if AtTear(v, e, k, more) == WalFormat.Stop(WalFormat.Corrupt) {
      HistoryLoads(v, m, t, file);
    } else if AtTear(v, e, k, more) == WalFormat.Stop(WalFormat.Tampered) {
      TamperedFails(v, m.snap, file);
    }
  }

  lemma DiskHolds(v: Env, m: Machine, t: Trace)
    requires DiskOk(v, m, t)
    ensures t.base <= |t.hist|
  {
    hide SnapOk, WalFormat.Image;
  }

  lemma TearReads(v: Env, m: Machine, t: Trace, e: Entry, k: nat, more: seq<Entry>)
    requires EnvOk(v) && DiskOk(v, m, t) && WalFormat.Fits(v.wal, e) && WalFormat.AllFit(v.wal, more)
    requires 0 < k < |WalFormat.Record(v.wal, e)|
    ensures AtTear(v, e, k, more) != WalFormat.Stop(WalFormat.Clean)
    ensures AtTear(v, e, k, more).Stop? ==>
              WalFormat.Read(v.wal, TornWal(v, m, e, k) + WalFormat.Records(v.wal, more))
              == WalFormat.Reading(t.records, AtTear(v, e, k, more).status)
  {
    hide WalFormat.Record, WalFormat.Read, SnapOk;
    var c, es := v.wal, t.records;
    var tail := WalFormat.Record(c, e)[..k] + WalFormat.Records(c, more);
    assert TornWal(v, m, e, k) + WalFormat.Records(c, more) == WalFormat.MAGIC + (WalFormat.Records(c, es) + tail);
    WalFormat.ReadPastMagic(c, WalFormat.Records(c, es) + tail);
    WalFormat.ReadsThrough(c, es, tail);
    if AtTear(v, e, k, more).Stop? {
      assert WalFormat.ReadRecords(c, tail) == WalFormat.Reading([], AtTear(v, e, k, more).status);
      assert es + [] == es;
    }
  }

  /**
   Unless the torn bytes happen to complete to a good record, entries appended after the crash are read
   back, behind what was read at the start, exactly when the crash fell between two records.
   */
  lemma LaterReadIff(v: Env, evs: seq<Event>, e: Entry, k: nat, more: seq<Entry>)
    requires EnvOk(v) && Runs(v, evs) && Allowed(v, MachineAfter(v, evs), Append(e))
    requires k <= |WalFormat.Record(v.wal, e)| && WalFormat.AllFit(v.wal, more) && more != []
    requires 0 < k < |WalFormat.Record(v.wal, e)| ==> AtTear(v, e, k, more).Stop?
    ensures var torn := TornWal(v, MachineAfter(v, evs), e, k);
            WalFormat.Read(v.wal, torn + WalFormat.Records(v.wal, more)).entries
                == WalFormat.Read(v.wal, torn).entries + more
            <==> k == 0 || k == |WalFormat.Record(v.wal, e)|
  {
    hide Load, Replay, WalFormat.Record, WalFormat.ReadRecord, WalFormat.Read, CacheOk, DiskOk, StageOk, Runs,
         MachineAfter, TraceOf;
    RunKeeps(v, evs);
    var m, t := MachineAfter(v, evs), TraceOf(v, evs);
    LaterRead(v, m, t, e, k, more);
  }

  lemma LaterRead(v: Env, m: Machine, t: Trace, e: Entry, k: nat, more: seq<Entry>)
    requires EnvOk(v) && DiskOk(v, m, t) && WalFormat.Fits(v.wal, e) && WalFormat.AllFit(v.wal, more) && more != []
    requires k <= |WalFormat.Record(v.wal, e)|
    requires 0 < k < |WalFormat.Record(v.wal, e)| ==> AtTear(v, e, k, more).Stop?
    ensures var torn := TornWal(v, m, e, k);
            WalFormat.Read(v.wal, torn + WalFormat.Records(v.wal, more)).entries
                == WalFormat.Read(v.wal, torn).entries + more
            <==> k == 0 || k == |WalFormat.Record(v.wal, e)|
  {
    hide WalFormat.Record, WalFormat.Read, WalFormat.Image, WalFormat.Records, SnapOk;
    var c, es, torn := v.wal, t.records, TornWal(v, m, e, k);
    TornReads(v, es, e, k);
    if 0 < k < |WalFormat.Record(c, e)| {
      TearReads(v, m, t, e, k, more);
    } else {
      var held := if k == |WalFormat.Record(c, e)| then es + [e] else es;
      Wal.ImageAppend(c, es, [e]);
      var record := WalFormat.Record(c, e);
      assert record[..0] == [] && record[..|record|] == record;
      assert torn == WalFormat.Image(c, held);
      Wal.ImageAppend(c, held, more);
      WalFormat.ReadBack(c, held + more);
      assert WalFormat.Read(c, torn).entries == held;
      assert WalFormat.Read(c, torn + WalFormat.Records(c, more)).entries == held + more;
    }
  }

  lemma HistoryLoads(v: Env, m: Machine, t: Trace, file: seq<Byte>)
    requires EnvOk(v) && DiskOk(v, m, t)
    requires WalFormat.Read(v.wal, file).status != WalFormat.Tampered
             && WalFormat.Read(v.wal, file).entries == t.records
    ensures var loaded := Load(v, m.snap, file);
            && t.base <= |t.hist| && loaded.Some? && Explains(v, Recovered(t), loaded.value.0, loaded.value.1)
            && loaded.value.0.offset + |loaded.value.0.log| == |Recovered(t)|
  {
    hide Replay, WalFormat.Read, Load, SnapOk, WalFormat.Image, Filter;
    var n := LoadsFrom(v, m.snap, file, t.hist, t.base, t.records);
    assert Recovered(t)[..t.base] == t.hist[..t.base] && Recovered(t)[t.base..] == Beyond(t.base, t.records);
  }

  lemma TamperedFails(v: Env, snap: Option<seq<Byte>>, file: seq<Byte>)
    requires WalFormat.Read(v.wal, file).status == WalFormat.Tampered
    ensures Load(v, snap, file) == None
  {
  }

  /**
   Whatever the hashes: with payloads of less than 256 bytes, a crash after the first byte of e hides
   the entry that is appended after the restart.
   */
  lemma OneByteTearLoses(v: Env, evs: seq<Event>, e: Entry, later: Entry)
    requires EnvOk(v) && Runs(v, evs) && Allowed(v, MachineAfter(v, evs), Append(e))
    requires WalFormat.Fits(v.wal, e) && WalFormat.Fits(v.wal, later)
    requires |v.wal.marshal(e).value| < 256 && |v.wal.marshal(later).value| < 256
    ensures var m, t := MachineAfter(v, evs), TraceOf(v, evs);
            && 1 <= |WalFormat.Record(v.wal, e)| && t.base <= |t.hist|
            && var loaded := Load(v, m.snap, Wal.FileAfter(v.wal, TornWal(v, m, e, 1), Wal.Append(later)));
               loaded.Some? && loaded.value.0.offset + |loaded.value.0.log| == |Recovered(t)|
  {
    hide Load, Runs, MachineAfter, TraceOf, Replay;
    ShortTear(v, e, later);
    TearHidesLater(v, evs, e, 1, [later]);
    assert WalFormat.Records(v.wal, [later]) == WalFormat.Record(v.wal, later) by {
      assert WalFormat.Records(v.wal, [later][1..]) == [];
    }
  }

  lemma ShortTear(v: Env, e: Entry, later: Entry)
    requires EnvOk(v) && WalFormat.Fits(v.wal, e) && WalFormat.Fits(v.wal, later)
    requires |v.wal.marshal(e).value| < 256 && |v.wal.marshal(later).value| < 256
    ensures 1 < |WalFormat.Record(v.wal, e)| && WalFormat.AllFit(v.wal, [later])
    ensures AtTear(v, e, 1, [later]) == WalFormat.Stop(WalFormat.Corrupt)
  {
    var p, q := v.wal.marshal(e).value, v.wal.marshal(later).value;
    var torn, r := WalFormat.Record(v.wal, e)[..1], WalFormat.Record(v.wal, later);
    assert WalFormat.Records(v.wal, [later]) == r + [] == r;
    WalFormat.FrameParts(v.wal, p, WalFormat.Frame(v.wal, p));
    WalFormat.FrameParts(v.wal, q, r);
    var s := torn + r;
    assert torn == Le(|p|, 4)[..1] && r[..3] == Le(|q|, 4)[..3];
    ShortLe(|p|);
    ShortLe(|q|);
    assert s[..4] == [|p|, |q|, 0, 0];
    ShiftedLength(|p|, |q|);
  }

  lemma ShortLe(n: nat)
    requires n < 256
    ensures Le(n, 4) == [n as Byte, 0, 0, 0]
  {
    assert Le(n, 4) == [n as Byte] + Le(0, 3);
  }

  lemma ShiftedLength(p: nat, q: nat)
    requires p < 256 && q < 256
    ensures UnLe([p as Byte, q as Byte, 0, 0]) == p + 256 * q
  {
    var s: seq<Byte> := [p, q, 0, 0];
    assert s[1..] == [q, 0, 0] && s[1..][1..] == [0, 0] && s[1..][1..][1..] == [0] && s[1..][1..][1..][1..] == [];
    assert UnLe(s[1..][1..]) == 0;
  }
}
