/**
 Bytes of the write-ahead log: a magic prefix, then records len(4) crc(4) hmac(32) payload.
 The keyed hash and the JSON codec are parameters (internal/zero/raft/wal.go, wal_append.go, wal_read.go).
 */
module WalFormat {
  import opened Options
  import opened Bytes

  // "MXKS_WAL_v3" and a zero byte.
  const MAGIC: seq<Byte> := [77, 88, 75, 83, 95, 87, 65, 76, 95, 118, 51, 0]
  const HEADER: nat := 40
  const MAX_RECORD: nat := 0x80_0000

  type Mac = s: seq<Byte> | |s| == 32 witness seq(32, _ => 0)

  datatype Codec<!E> = Codec(
    step: (Word, Byte) -> Word, mac: seq<Byte> -> Mac,
    marshal: E -> Option<seq<Byte>>, unmarshal: seq<Byte> -> Option<E>)

  /** What is marshalled is not empty and unmarshals to the same entry. */
  ghost predicate Sound<E(!new)>(c: Codec<E>) {
    forall e {:trigger c.marshal(e)} :: c.marshal(e).Some? ==>
      c.marshal(e).value != [] && c.unmarshal(c.marshal(e).value) == Some(e)
  }

  function Crc<E>(c: Codec<E>, payload: seq<Byte>): Word {
    Fold(c.step, 0, payload)
  }

  function Lead<E>(c: Codec<E>, payload: seq<Byte>): (s: seq<Byte>)
    ensures |s| == 8
  {
    Le(|payload|, 4) + Le(Crc(c, payload), 4)
  }

  function Frame<E>(c: Codec<E>, payload: seq<Byte>): (s: seq<Byte>)
    ensures |s| == HEADER + |payload|
  {
    Lead(c, payload) + c.mac(Lead(c, payload) + payload) + payload
  }

  predicate Framable(payload: seq<Byte>) {
    0 < |payload| <= MAX_RECORD
  }

  predicate Fits<E>(c: Codec<E>, e: E) {
    c.marshal(e).Some? && |c.marshal(e).value| <= MAX_RECORD
  }

  ghost predicate AllFit<E>(c: Codec<E>, es: seq<E>) {
    forall i :: 0 <= i < |es| ==> Fits(c, es[i])
  }

  function Record<E>(c: Codec<E>, e: E): seq<Byte>
    requires Fits(c, e)
  {
    Frame(c, c.marshal(e).value)
  }

  function Records<E>(c: Codec<E>, es: seq<E>): seq<Byte>
    requires AllFit(c, es)
  {
    if es == [] then [] else Record(c, es[0]) + Records(c, es[1..])
  }

  /** The file a clean log of es leaves on disk. */
  function Image<E>(c: Codec<E>, es: seq<E>): seq<Byte>
    requires AllFit(c, es)
  {
    MAGIC + Records(c, es)
  }

  datatype Status = Clean | Corrupt | Tampered

  datatype Reading<+E> = Reading(entries: seq<E>, status: Status)

  datatype Next<+E> = Stop(status: Status) | Got(entry: E, size: nat)

  /** One turn of the read loop on the bytes from the file position on. */
  function ReadRecord<E>(c: Codec<E>, s: seq<Byte>): (r: Next<E>)
    ensures r.Got? ==> 0 < r.size <= |s|
  {
    if s == [] then Stop(Clean)
    else if |s| < HEADER then Stop(Corrupt)
    else
      var length := UnLe(s[..4]);
      if length == 0 || length > MAX_RECORD || |s| < HEADER + length then Stop(Corrupt)
      else
        var payload := s[HEADER..HEADER + length];
        if Crc(c, payload) != UnLe(s[4..8]) then Stop(Corrupt)
        else if c.mac(s[..8] + payload) != s[8..HEADER] then Stop(Tampered)
        else match c.unmarshal(payload)
          case None => Stop(Corrupt)
          case Some(e) => Got(e, HEADER + length)
  }

  function ReadRecords<E>(c: Codec<E>, s: seq<Byte>): Reading<E>
    decreases |s|
  {
    match ReadRecord(c, s)
    case Stop(status) => Reading([], status)
    case Got(e, size) => var rest := ReadRecords(c, s[size..]); Reading([e] + rest.entries, rest.status)
  }

  function Read<E>(c: Codec<E>, file: seq<Byte>): Reading<E> {
    if file == [] then Reading([], Clean)
    else if |file| < |MAGIC| || file[..|MAGIC|] != MAGIC then Reading([], Corrupt)
    else ReadRecords(c, file[|MAGIC|..])
  }

  // ---- One record ----

  lemma SplitParts(a: seq<Byte>, b: seq<Byte>, m: seq<Byte>, p: seq<Byte>, s: seq<Byte>)
    requires |a| == 4 && |b| == 4 && |m| == 32 && a + b + m + p <= s
    ensures s[..4] == a && s[4..8] == b && s[..8] == a + b && s[8..HEADER] == m && s[HEADER..HEADER + |p|] == p
  {
  }

  lemma FrameParts<E>(c: Codec<E>, p: seq<Byte>, s: seq<Byte>)
    requires Frame(c, p) <= s
    ensures s[..4] == Le(|p|, 4) && s[4..8] == Le(Crc(c, p), 4) && s[..8] == Lead(c, p)
    ensures s[8..HEADER] == c.mac(Lead(c, p) + p) && s[HEADER..HEADER + |p|] == p
  {
    SplitParts(Le(|p|, 4), Le(Crc(c, p), 4), c.mac(Lead(c, p) + p), p, s);
  }

  lemma FrameIsRead<E>(c: Codec<E>, p: seq<Byte>, s: seq<Byte>, e: E)
    requires Framable(p) && Frame(c, p) <= s && c.unmarshal(p) == Some(e)
    ensures ReadRecord(c, s) == Got(e, HEADER + |p|)
  {
    FrameParts(c, p, s);
    Word4(|p|);
    Word4(Crc(c, p));
  }

  lemma ReadIsFrame<E>(c: Codec<E>, s: seq<Byte>) returns (p: seq<Byte>)
    requires ReadRecord(c, s).Got?
    ensures Framable(p) && Frame(c, p) <= s && c.unmarshal(p) == Some(ReadRecord(c, s).entry)
    ensures ReadRecord(c, s).size == HEADER + |p|
  {
    var length := UnLe(s[..4]);
    p := s[HEADER..HEADER + length];
    UnLeRoundTrip(s[..4]);
    UnLeRoundTrip(s[4..8]);
    assert s[..8] == s[..4] + s[4..8];
    assert s[..HEADER + length] == s[..8] + s[8..HEADER] + p;
  }

  /** The reader accepts a record exactly where a well-formed frame of a decodable payload starts. */
  lemma RecordReadIff<E(!new)>(c: Codec<E>, s: seq<Byte>, e: E, size: nat)
    ensures ReadRecord(c, s) == Got(e, size) <==>
            exists p :: Framable(p) && Frame(c, p) <= s && c.unmarshal(p) == Some(e) && size == HEADER + |p|
  {
    if ReadRecord(c, s) == Got(e, size) {
      var p := ReadIsFrame(c, s);
    } else if p :| Framable(p) && Frame(c, p) <= s && c.unmarshal(p) == Some(e) && size == HEADER + |p| {
      FrameIsRead(c, p, s, e);
    }
  }

  /** A proper cut of a record is corrupt unless nothing is left; it is never taken for tampering. */
  lemma CutFrameStops<E>(c: Codec<E>, p: seq<Byte>, k: nat)
    requires Framable(p) && k < HEADER + |p|
    ensures ReadRecord(c, Frame(c, p)[..k]) == Stop(if k == 0 then Clean else Corrupt)
  {
    if k >= HEADER {
      FrameParts(c, p, Frame(c, p));
      assert Frame(c, p)[..k][..4] == Frame(c, p)[..4];
      Word4(|p|);
    }
  }

  /** Tampering is found exactly where a record stands whole, with its checksum right and its keyed hash wrong. */
  lemma TamperedIff<E>(c: Codec<E>, s: seq<Byte>)
    ensures ReadRecord(c, s) == Stop(Tampered) <==>
            exists p, m: Mac :: Framable(p) && m != c.mac(Lead(c, p) + p) && Lead(c, p) + m + p <= s
  {
    if ReadRecord(c, s) == Stop(Tampered) {
      var length := UnLe(s[..4]);
      var p := s[HEADER..HEADER + length];
      UnLeRoundTrip(s[..4]);
      UnLeRoundTrip(s[4..8]);
      assert s[..8] == s[..4] + s[4..8] == Lead(c, p);
      assert s[..HEADER + length] == s[..8] + s[8..HEADER] + p;
      var m: Mac := s[8..HEADER];
      assert Framable(p) && m != c.mac(Lead(c, p) + p) && Lead(c, p) + m + p <= s;
    }
    if p, m: Mac :| Framable(p) && m != c.mac(Lead(c, p) + p) && Lead(c, p) + m + p <= s { WrongMac(c, p, m, s); }
  }

  lemma WrongMac<E>(c: Codec<E>, p: seq<Byte>, m: Mac, s: seq<Byte>)
    requires Framable(p) && m != c.mac(Lead(c, p) + p) && Lead(c, p) + m + p <= s
    ensures ReadRecord(c, s) == Stop(Tampered)
  {
    SplitParts(Le(|p|, 4), Le(Crc(c, p), 4), m, p, s);
    Word4(|p|);
    Word4(Crc(c, p));
  }

  // ---- Whole files ----

  function Frames<E>(c: Codec<E>, ps: seq<seq<Byte>>): seq<Byte> {
    if ps == [] then [] else Frame(c, ps[0]) + Frames(c, ps[1..])
  }

  /** es are what the payloads ps decode to. */
  ghost predicate Decode<E>(c: Codec<E>, ps: seq<seq<Byte>>, es: seq<E>) {
    |ps| == |es| && forall i :: 0 <= i < |ps| ==> Framable(ps[i]) && c.unmarshal(ps[i]) == Some(es[i])
  }

  lemma Rejoin(s: seq<Byte>, head: seq<Byte>, middle: seq<Byte>, rest: seq<Byte>)
    requires head <= s && s[|head|..] == middle + rest
    ensures s == head + middle + rest
  {
  }

  lemma WhereReadingStops<E(!new)>(c: Codec<E>, s: seq<Byte>)
    requires ReadRecord(c, s).Stop?
    ensures s == [] <==> ReadRecord(c, s).status == Clean
    ensures forall p :: Framable(p) && Frame(c, p) <= s ==> c.unmarshal(p) == None
  {
    forall p | Framable(p) && Frame(c, p) <= s ensures c.unmarshal(p) == None {
      if e :| c.unmarshal(p) == Some(e) { FrameIsRead(c, p, s, e); }
    }
  }

  /**
   The reader takes the longest run of good records and no more: the file is those frames followed
   by a rest that is empty exactly when the read is clean, and on which no good record starts.
   */
  lemma {:induction false} ReadIsExact<E(!new)>(c: Codec<E>, s: seq<Byte>) returns (ps: seq<seq<Byte>>, rest: seq<Byte>)
    ensures s == Frames(c, ps) + rest && Decode(c, ps, ReadRecords(c, s).entries)
    ensures rest == [] <==> ReadRecords(c, s).status == Clean
    ensures forall p :: Framable(p) && Frame(c, p) <= rest ==> c.unmarshal(p) == None
    decreases |s|
  {
    hide ReadRecord, Frame;
    if ReadRecord(c, s).Stop? {
      ps, rest := [], s;
      WhereReadingStops(c, s);
    } else {
      var n := ReadRecord(c, s).size;
      var p := ReadIsFrame(c, s);
      var ps', rest' := ReadIsExact(c, s[n..]);
      ps, rest := [p] + ps', rest';
      assert ps[1..] == ps';
      Rejoin(s, Frame(c, p), Frames(c, ps'), rest);
    }
  }

  /** How many records of es lie whole within the first k bytes. */
  function WholeIn<E>(c: Codec<E>, es: seq<E>, k: nat): (j: nat)
    requires AllFit(c, es)
    ensures j <= |es|
    decreases |es|
  {
    if es == [] || k < |Record(c, es[0])| then 0 else 1 + WholeIn(c, es[1..], k - |Record(c, es[0])|)
  }

  lemma {:induction false} WholeInIsLargest<E>(c: Codec<E>, es: seq<E>, k: nat)
    requires AllFit(c, es)
    ensures var j := WholeIn(c, es, k);
            |Records(c, es[..j])| <= k && (j < |es| ==> k < |Records(c, es[..j + 1])|)
    decreases |es|
  {
    if es != [] && k >= |Record(c, es[0])| {
      var j := WholeIn(c, es[1..], k - |Record(c, es[0])|);
      WholeInIsLargest(c, es[1..], k - |Record(c, es[0])|);
      assert es[..j + 1][1..] == es[1..][..j];
      if j + 1 < |es| { assert es[..j + 2][1..] == es[1..][..j + 1]; }
    } else if es != [] {
      assert es[..1][1..] == [];
    }
  }

  lemma {:induction false} CutRecords<E(!new)>(c: Codec<E>, es: seq<E>, k: nat)
    requires Sound(c) && AllFit(c, es) && k <= |Records(c, es)|
    ensures var j := WholeIn(c, es, k);
            ReadRecords(c, Records(c, es)[..k]) ==
            Reading(es[..j], if k == |Records(c, es[..j])| then Clean else Corrupt)
    decreases |es|
  {
    hide ReadRecord, Frame;
    var s := Records(c, es);
    if es == [] {
      CutFrameStops(c, [0], 0);
      assert s[..k] == Frame(c, [0])[..0];
    } else {
      var p := c.marshal(es[0]).value;
      var n := HEADER + |p|;
      if k < n {
        assert s[..k] == Frame(c, p)[..k];
        CutFrameStops(c, p, k);
      } else {
        assert s == Frame(c, p) + Records(c, es[1..]);
        assert Frame(c, p) <= s[..k];
        FrameIsRead(c, p, s[..k], es[0]);
        assert s[..k][n..] == Records(c, es[1..])[..k - n];
        CutRecords(c, es[1..], k - n);
        var j := WholeIn(c, es[1..], k - n);
        assert es[..j + 1][1..] == es[1..][..j];
        assert [es[0]] + es[1..][..j] == es[..j + 1];
      }
    }
  }

  /**
   Any cut of a clean file reads as the records that lie whole before the cut. It is flagged corrupt
   exactly when the cut leaves something and falls inside the magic or inside a record.
   */
  lemma CutReads<E(!new)>(c: Codec<E>, es: seq<E>, k: nat) returns (j: nat)
    requires Sound(c) && AllFit(c, es) && k <= |Image(c, es)|
    ensures j <= |es| && Read(c, Image(c, es)[..k]).entries == es[..j]
    ensures j > 0 ==> |Image(c, es[..j])| <= k
    ensures j < |es| ==> k < |Image(c, es[..j + 1])|
    ensures Read(c, Image(c, es)[..k]).status == if k == 0 || k == |Image(c, es[..j])| then Clean else Corrupt
  {
    hide Read, ReadRecords;
    var s := Records(c, es);
    if k < |MAGIC| {
      j := 0;
      assert Image(c, es)[..k] == MAGIC[..k];
      CutMagic(c, k);
    } else {
      j := WholeIn(c, es, k - |MAGIC|);
      assert Image(c, es)[..k] == MAGIC + s[..k - |MAGIC|];
      ReadPastMagic(c, s[..k - |MAGIC|]);
      CutRecords(c, es, k - |MAGIC|);
      WholeInIsLargest(c, es, k - |MAGIC|);
    }
  }

  lemma ReadPastMagic<E>(c: Codec<E>, s: seq<Byte>)
    ensures Read(c, MAGIC + s) == ReadRecords(c, s)
  {
  }

  lemma CutMagic<E>(c: Codec<E>, k: nat)
    requires k < |MAGIC|
    ensures Read(c, MAGIC[..k]) == Reading([], if k == 0 then Clean else Corrupt)
  {
  }

  lemma ReadBack<E(!new)>(c: Codec<E>, es: seq<E>)
    requires Sound(c) && AllFit(c, es)
    ensures Read(c, Image(c, es)) == Reading(es, Clean)
  {
    ReadPastMagic(c, Records(c, es));
    RecordsRead(c, es);
  }

  /** Reading gets past good records to whatever stands behind them. */
  lemma {:induction false} ReadsThrough<E(!new)>(c: Codec<E>, es: seq<E>, tail: seq<Byte>)
    requires Sound(c) && AllFit(c, es)
    ensures ReadRecords(c, Records(c, es) + tail)
            == Reading(es + ReadRecords(c, tail).entries, ReadRecords(c, tail).status)
  {
    hide ReadRecord, Frame;
    if es == [] {
      assert Records(c, es) + tail == tail && es + ReadRecords(c, tail).entries == ReadRecords(c, tail).entries;
    } else {
      var first, rest := Record(c, es[0]), Records(c, es[1..]);
      assert first + rest + tail == first + (rest + tail);
      FrameIsRead(c, c.marshal(es[0]).value, first + (rest + tail), es[0]);
      assert (first + (rest + tail))[|first|..] == rest + tail;
      ReadsThrough(c, es[1..], tail);
      assert [es[0]] + (es[1..] + ReadRecords(c, tail).entries) == es + ReadRecords(c, tail).entries;
    }
  }

  lemma RecordsRead<E(!new)>(c: Codec<E>, es: seq<E>)
    requires Sound(c) && AllFit(c, es)
    ensures ReadRecords(c, Records(c, es)) == Reading(es, Clean)
  {
    ReadsThrough(c, es, []);
    assert Records(c, es) + [] == Records(c, es) && es + [] == es;
  }

  lemma {:induction false} RecordsAppend<E>(c: Codec<E>, es: seq<E>, fs: seq<E>)
    requires AllFit(c, es) && AllFit(c, fs)
    ensures AllFit(c, es + fs) && Records(c, es + fs) == Records(c, es) + Records(c, fs)
  {
    if es == [] {
      assert es + fs == fs;
    } else {
      assert (es + fs)[1..] == es[1..] + fs;
      RecordsAppend(c, es[1..], fs);
    }
  }

  lemma RecordsSnoc<E>(c: Codec<E>, es: seq<E>, i: nat)
    requires i < |es| && AllFit(c, es[..i]) && Fits(c, es[i])
    ensures AllFit(c, es[..i + 1]) && Records(c, es[..i + 1]) == Records(c, es[..i]) + Record(c, es[i])
  {
    hide Record;
    RecordsAppend(c, es[..i], [es[i]]);
    assert es[..i + 1] == es[..i] + [es[i]];
    assert Records(c, [es[i]]) == Record(c, es[i]);
  }

  /** A record with a wrong keyed hash ends the reading with what stands before it, and not as a torn write does. */
  lemma TamperedStops<E(!new)>(c: Codec<E>, es: seq<E>, p: seq<Byte>, m: Mac, rest: seq<Byte>)
    requires Sound(c) && AllFit(c, es) && Framable(p) && m != c.mac(Lead(c, p) + p)
    ensures Read(c, Image(c, es) + (Lead(c, p) + m + p + rest)) == Reading(es, Tampered)
  {
    hide Read, ReadRecord, Lead;
    var tail := Lead(c, p) + m + p + rest;
    WrongMac(c, p, m, tail);
    ReadsThrough(c, es, tail);
    assert Image(c, es) + tail == MAGIC + (Records(c, es) + tail);
    ReadPastMagic(c, Records(c, es) + tail);
    assert es + [] == es;
  }
}
