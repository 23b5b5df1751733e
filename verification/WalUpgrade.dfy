/** The offline conversion of a v2 log, which has no keyed hash, to v3 (internal/zero/raft/walupgrade/walupgrade.go). */
module WalUpgrade {
  import opened Options
  import opened Bytes
  import opened WalFormat
  import Wal

  const HEADER_V2: nat := 8

  type Step = (Word, Byte) -> Word

  datatype Records = Read(records: seq<seq<Byte>>) | ShortMagic | AlreadyV3 | NotV2

  function FrameV2(step: Step, p: seq<Byte>): (s: seq<Byte>)
    ensures |s| == HEADER_V2 + |p|
  {
    Le(|p|, 4) + Le(Fold(step, 0, p), 4) + p
  }

  function FramesV2(step: Step, ps: seq<seq<Byte>>): seq<Byte> {
    if ps == [] then [] else FrameV2(step, ps[0]) + FramesV2(step, ps[1..])
  }

  /** The payload of the record at the front of s, if that record is whole and its checksum matches. */
  function ReadRecordV2(step: Step, s: seq<Byte>): (r: Option<seq<Byte>>)
    ensures r.Some? ==> Framable(r.value) && HEADER_V2 + |r.value| <= |s|
  {
    if |s| < HEADER_V2 then None
    else
      var length := UnLe(s[..4]);
      if length == 0 || length > MAX_RECORD || |s| < HEADER_V2 + length then None
      else
        var p := s[HEADER_V2..HEADER_V2 + length];
        if Fold(step, 0, p) != UnLe(s[4..8]) then None else Some(p)
  }

  function ReadRecordsV2(step: Step, s: seq<Byte>): (ps: seq<seq<Byte>>)
    ensures forall i :: 0 <= i < |ps| ==> Framable(ps[i])
    decreases |s|
  {
    match ReadRecordV2(step, s)
    case None => []
    case Some(p) => [p] + ReadRecordsV2(step, s[HEADER_V2 + |p|..])
  }

  function ReadV2(step: Step, file: seq<Byte>): Records {
    if |file| < |MAGIC| then ShortMagic
    else if file[..|MAGIC|] == MAGIC then AlreadyV3
    else if file[..|MAGIC|] != Wal.MAGIC_V2 then NotV2
    else Read(ReadRecordsV2(step, file[|MAGIC|..]))
  }

  /** Every file is for one tool: the log opens it, the conversion reads it, or both refuse it. */
  lemma OpeningIff<E>(c: Codec<E>, step: Step, file: seq<Byte>)
    ensures Wal.Opened(file).Ready? <==> file == [] || ReadV2(step, file) == AlreadyV3
    ensures Wal.Opened(file).LegacyFormat? <==> ReadV2(step, file).Read?
    ensures Wal.Opened(file).BadFormat? <==> file != [] && ReadV2(step, file) in {ShortMagic, NotV2}
    ensures !Wal.Opened(file).Ready? ==> WalFormat.Read(c, file) == Reading([], Corrupt)
  {
    assert MAGIC != Wal.MAGIC_V2;
  }

  // ---- The v2 reader takes exactly the longest run of good records ----

  lemma RecordV2Iff(step: Step, s: seq<Byte>, p: seq<Byte>)
    ensures ReadRecordV2(step, s) == Some(p) <==> Framable(p) && FrameV2(step, p) <= s
  {
    if Framable(p) && FrameV2(step, p) <= s {
      var f := FrameV2(step, p);
      assert s[..|f|] == f;
      assert s[..4] == f[..4] == Le(|p|, 4) && s[4..8] == f[4..8] == Le(Fold(step, 0, p), 4);
      assert s[HEADER_V2..|f|] == f[HEADER_V2..] == p;
      Word4(|p|);
      Word4(Fold(step, 0, p));
    }
    if ReadRecordV2(step, s) == Some(p) {
      UnLeRoundTrip(s[..4]);
      UnLeRoundTrip(s[4..8]);
      assert s[..HEADER_V2 + |p|] == s[..4] + s[4..8] + p;
    }
  }

  /** s is the frames of ps followed by bytes on which no good record starts. */
  ghost predicate SplitsAs(step: Step, s: seq<Byte>, ps: seq<seq<Byte>>) {
    && (forall i :: 0 <= i < |ps| ==> Framable(ps[i]))
    && FramesV2(step, ps) <= s
    && forall p :: Framable(p) ==> !(FrameV2(step, p) <= s[|FramesV2(step, ps)|..])
  }

  lemma SplitsStart(step: Step, s: seq<Byte>, ps: seq<seq<Byte>>)
    ensures SplitsAs(step, s, ps) && ps != [] ==> Framable(ps[0]) && FrameV2(step, ps[0]) <= s
  {
  }

  lemma {:induction false} V2ReadIff(step: Step, s: seq<Byte>, ps: seq<seq<Byte>>)
    ensures ReadRecordsV2(step, s) == ps <==> SplitsAs(step, s, ps)
    decreases |s|
  {
    hide FrameV2, ReadRecordV2;
    forall p ensures ReadRecordV2(step, s) == Some(p) <==> Framable(p) && FrameV2(step, p) <= s {
      RecordV2Iff(step, s, p);
    }
    match ReadRecordV2(step, s) {
      case None =>
        SplitsStart(step, s, ps);
        assert s[0..] == s;
      case Some(p) =>
        V2Tail(step, s, p, ps);
    }
  }

  lemma SplitsTail(step: Step, s: seq<Byte>, ps: seq<seq<Byte>>)
    requires ps != [] && Framable(ps[0]) && FrameV2(step, ps[0]) <= s
    ensures SplitsAs(step, s, ps) <==> SplitsAs(step, s[|FrameV2(step, ps[0])|..], ps[1..])
  {
  }

  lemma V2Tail(step: Step, s: seq<Byte>, p: seq<Byte>, ps: seq<seq<Byte>>)
    requires ReadRecordV2(step, s) == Some(p)
    ensures ReadRecordsV2(step, s) == ps <==> SplitsAs(step, s, ps)
    decreases |s|, 0
  {
    hide FrameV2, ReadRecordV2;
    RecordV2Iff(step, s, p);
    SplitsStart(step, s, ps);
    if ps == [] {
      assert s[0..] == s;
    } else {
      var n := HEADER_V2 + |p|;
      V2ReadIff(step, s[n..], ps[1..]);
      RecordV2Iff(step, s, ps[0]);
      if ps[0] == p {
        SplitsTail(step, s, ps);
        assert ps == [p] + ps[1..];
      }
    }
  }

  // ---- The v3 file ----

  /** What the runtime reader makes of a list of payloads: it stops at the first that does not decode. */
  function DecodeAll<E>(c: Codec<E>, ps: seq<seq<Byte>>): Reading<E> {
    if ps == [] then Reading([], Clean)
    else match c.unmarshal(ps[0])
      case None => Reading([], Corrupt)
      case Some(e) => var rest := DecodeAll(c, ps[1..]); Reading([e] + rest.entries, rest.status)
  }

  lemma {:induction false} FramesDecode<E(!new)>(c: Codec<E>, ps: seq<seq<Byte>>)
    requires forall i :: 0 <= i < |ps| ==> Framable(ps[i])
    ensures ReadRecords(c, Frames(c, ps)) == DecodeAll(c, ps)
  {
    hide Frame, ReadRecord;
    var s := Frames(c, ps);
    if ps == [] {
      CutFrameStops(c, [0], 0);
      assert s == Frame(c, [0])[..0];
    } else {
      assert s[HEADER + |ps[0]|..] == Frames(c, ps[1..]);
      FramesDecode(c, ps[1..]);
      match c.unmarshal(ps[0])
      case Some(e) => FrameIsRead(c, ps[0], s, e);
      case None => FrameNotDecoded(c, ps[0], s);
    }
  }

  lemma FrameNotDecoded<E>(c: Codec<E>, p: seq<Byte>, s: seq<Byte>)
    requires Framable(p) && Frame(c, p) <= s && c.unmarshal(p) == None
    ensures ReadRecord(c, s) == Stop(Corrupt)
  {
    FrameParts(c, p, s);
    Word4(|p|);
    Word4(Crc(c, p));
  }

  method ReadFileV2(step: Step, file: seq<Byte>) returns (r: Records)
    ensures r == ReadV2(step, file)
  {
    if |file| < |MAGIC| { return ShortMagic; }
    var magic := file[..|MAGIC|];
    if magic == MAGIC { return AlreadyV3; }
    if magic != Wal.MAGIC_V2 { return NotV2; }
    var records, pos := [], |MAGIC|;
    while true
      invariant |MAGIC| <= pos <= |file|
      invariant ReadV2(step, file) == Read(records + ReadRecordsV2(step, file[pos..]))
      decreases |file| - pos
    {
      hide ReadRecordV2;
      var next := ReadOneV2(step, file[pos..]);
      if next.None? { return Read(records); }
      var size := HEADER_V2 + |next.value|;
      assert file[pos..][size..] == file[pos + size..];
      assert records + ([next.value] + ReadRecordsV2(step, file[pos + size..]))
          == records + [next.value] + ReadRecordsV2(step, file[pos + size..]);
      records := records + [next.value];
      pos := pos + size;
    }
  }

  method ReadOneV2(step: Step, left: seq<Byte>) returns (r: Option<seq<Byte>>)
    ensures r == ReadRecordV2(step, left)
  {
    if |left| < HEADER_V2 { return None; }
    var hdr := left[..HEADER_V2];
    assert hdr[..4] == left[..4] && hdr[4..] == left[4..8];
    var length := UnLe(hdr[..4]);
    if length == 0 || length > MAX_RECORD { return None; }
    if |left| < HEADER_V2 + length { return None; }
    var payload := left[HEADER_V2..HEADER_V2 + length];
    if Fold(step, 0, payload) != UnLe(hdr[4..]) { return None; }
    return Some(payload);
  }

  method WriteV3<E>(c: Codec<E>, records: seq<seq<Byte>>) returns (file: Option<seq<Byte>>)
    ensures file.Some? <==> forall i :: 0 <= i < |records| ==> |records[i]| <= MAX_RECORD
    ensures file.Some? ==> file.value == MAGIC + Frames(c, records)
  {
    var out := MAGIC;
    assert records[..0] == [] && MAGIC == MAGIC + [];
    for i := 0 to |records|
      invariant out == MAGIC + Frames(c, records[..i])
      invariant forall k :: 0 <= k < i ==> |records[k]| <= MAX_RECORD
    {
      var payload := records[i];
      if |payload| > MAX_RECORD { return None; }
      var hdr := Le(|payload|, 4) + Le(Fold(c.step, 0, payload), 4);
      FramesSnoc(c, records[..i], payload);
      assert records[..i + 1] == records[..i] + [payload];
      out := out + (hdr + c.mac(hdr + payload)) + payload;
      assert out == MAGIC + (Frames(c, records[..i]) + Frame(c, payload));
    }
    assert records[..|records|] == records;
    return Some(out);
  }

  lemma {:induction false} FramesSnoc<E>(c: Codec<E>, ps: seq<seq<Byte>>, p: seq<Byte>)
    ensures Frames(c, ps + [p]) == Frames(c, ps) + Frame(c, p)
  {
    hide Frame;
    if ps == [] {
      assert [p][1..] == [] && Frames(c, [p]) == Frame(c, p);
    } else {
      assert (ps + [p])[1..] == ps[1..] + [p];
      FramesSnoc(c, ps[1..], p);
    }
  }

  /** Read without decoding, the upgraded file holds the payloads themselves and is clean. */
  lemma {:induction false} RawDecode(c: Codec<seq<Byte>>, ps: seq<seq<Byte>>)
    requires forall p :: c.unmarshal(p) == Some(p)
    ensures DecodeAll(c, ps) == Reading(ps, Clean)
  {
    if ps != [] {
      RawDecode(c, ps[1..]);
      assert [ps[0]] + ps[1..] == ps;
    }
  }

  // ---- The upgrade of a directory ---------------------------------------------------------------

  /** raft.wal, raft.wal.upgrade and raft.wal.v2-backup. */
  datatype Dir = Dir(wal: Option<seq<Byte>>, upgrade: Option<seq<Byte>>, backup: Option<seq<Byte>>)

  /** A file operation that does not succeed returns an error, or is where the process dies. */
  datatype Stop = Error | Crash(torn: seq<Byte>)

  datatype Report = Report(records: nat, keptV2: bool)

  predicate Convertible(step: Step, d: Dir) {
    d.wal.Some? && ReadV2(step, d.wal.value).Read?
  }

  function Converted<E>(c: Codec<E>, d: Dir): seq<Byte>
    requires Convertible(c.step, d)
  {
    MAGIC + Frames(c, ReadV2(c.step, d.wal.value).records)
  }

  /** ops: how many of the three file operations (write the new log, move the old one away, rename) succeed. */
  function UpgradeAfter<E>(c: Codec<E>, d: Dir, keepV2: bool, ops: nat, stop: Stop): Dir {
    if !Convertible(c.step, d) then d
    else
      var aside := if keepV2 then d.wal else d.backup;
      var written := Some(Converted(c, d));
      match ops
      case 0 => d.(upgrade := if stop.Crash? then Some(stop.torn) else None)
      case 1 => d.(upgrade := if stop.Crash? then written else None)
      case 2 => Dir(None, written, aside)
      case _ => Dir(written, None, aside)
  }

  /** What the node finds when it is started on a directory: a missing log is created empty. */
  function Found<E>(c: Codec<E>, d: Dir): Option<Reading<E>> {
    var file := if d.wal.Some? then d.wal.value else [];
    match Wal.Opened(file)
    case Ready(bytes) => Some(WalFormat.Read(c, bytes))
    case _ => None
  }

  lemma ConvertedReads<E(!new)>(c: Codec<E>, d: Dir)
    requires Convertible(c.step, d)
    ensures var file := Converted(c, d);
            && Wal.Opened(file) == Wal.Ready(file)
            && WalFormat.Read(c, file) == DecodeAll(c, ReadV2(c.step, d.wal.value).records)
  {
    hide WalFormat.Read, ReadRecords, Frames;
    var records := ReadV2(c.step, d.wal.value).records;
    FramesDecode(c, records);
    ReadPastMagic(c, Frames(c, records));
    assert Converted(c, d)[..|MAGIC|] == MAGIC;
  }

  /**
   Wherever the upgrade stops, the payloads are still in the directory; the old log is untouched exactly
   when it stopped before moving that away, and a node is refused it then. A node finds the payloads
   exactly when the upgrade completed. In between it starts, without an error, on an empty log.
   */
  lemma UpgradeStops<E(!new)>(c: Codec<E>, d: Dir, keepV2: bool, ops: nat, stop: Stop)
    requires Convertible(c.step, d)
    ensures var d', ps := UpgradeAfter(c, d, keepV2, ops, stop), ReadV2(c.step, d.wal.value).records;
            && (d'.wal == d.wal <==> ops < 2)
            && (d'.wal == d.wal || d'.wal == Some(Converted(c, d))
               || (d'.wal == None && d'.upgrade == Some(Converted(c, d))))
            && Found(c, d') == (if ops <= 1 then None else if ops == 2 then Some(Reading([], Clean))
               else Some(DecodeAll(c, ps)))
  {
    hide WalFormat.Read, Converted, ReadV2;
    ConvertedReads(c, d);
    OpeningIff(c, c.step, d.wal.value);
    EmptyFound(c, UpgradeAfter(c, d, keepV2, ops, stop));
  }

  lemma EmptyFound<E>(c: Codec<E>, d: Dir)
    ensures d.wal == None ==> Found(c, d) == Some(Reading([], Clean))
  {
    assert MAGIC[|MAGIC|..] == [];
  }

  /** A log of one record, when the last rename fails: the node starts with nothing, and there is no backup. */
  lemma UpgradeHidesLog<E(!new)>(c: Codec<E>, p: seq<Byte>, stop: Stop)
    requires Framable(p)
    ensures var d := Dir(Some(Wal.MAGIC_V2 + FrameV2(c.step, p)), None, None);
            && Convertible(c.step, d) && ReadV2(c.step, d.wal.value).records == [p]
            && var d' := UpgradeAfter(c, d, false, 2, stop);
               d'.wal == None && d'.backup == None && Found(c, d') == Some(Reading([], Clean))
  {
    hide FrameV2;
    var file := Wal.MAGIC_V2 + FrameV2(c.step, p);
    var d := Dir(Some(file), None, None);
    assert file[..|MAGIC|] == Wal.MAGIC_V2 && file[|MAGIC|..] == FrameV2(c.step, p) && MAGIC != Wal.MAGIC_V2;
    RecordV2Iff(c.step, FrameV2(c.step, p), p);
    assert ReadRecordsV2(c.step, []) == [];
    assert FrameV2(c.step, p)[HEADER_V2 + |p|..] == [];
    EmptyFound(c, UpgradeAfter(c, d, false, 2, stop));
  }

  class Directory {
    var wal: Option<seq<Byte>>
    var upgrade: Option<seq<Byte>>
    var backup: Option<seq<Byte>>

    function View(): Dir
      reads this
    {
      Dir(wal, upgrade, backup)
    }

    /** A report means that the runtime reader gets exactly the payloads that the v2 reader accepted, in order. */
    method Upgrade<E(!new)>(c: Codec<E>, keepV2: bool, ops: nat, stop: Stop) returns (r: Option<Report>)
      modifies this
      ensures View() == UpgradeAfter(c, old(View()), keepV2, ops, stop)
      ensures r.Some? == (Convertible(c.step, old(View())) && ops >= 3)
      ensures r.Some? ==>
                var ps := ReadV2(c.step, old(wal).value).records;
                r.value == Report(|ps|, keepV2) && Found(c, View()) == Some(DecodeAll(c, ps))
    {
      hide WalFormat.Read, ReadRecords, Frames;
      if wal == None { return None; }
      var records := ReadFileV2(c.step, wal.value);
      if !records.Read? { return None; }
      ConvertedReads(c, View());
      var image := WriteV3(c, records.records);
      if ops == 0 {
        upgrade := if stop.Crash? then Some(stop.torn) else None;
        return None;
      }
      upgrade := image;
      if ops == 1 {
        if stop.Error? { upgrade := None; }
        return None;
      }
      if keepV2 { backup := wal; }
      wal := None;
      if ops == 2 { return None; }
      wal, upgrade := upgrade, None;
      r := Some(Report(|records.records|, keepV2));
    }
  }
}
