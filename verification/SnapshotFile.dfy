/**
 The snapshot file: magic(4) index(8) term(8) length(4) crc(4) data
 (internal/zero/raft/snapshot.go, snapshot_load.go).
 */
module SnapshotFile {
  import opened Options
  import opened Bytes

  // "MXKS"
  const MAGIC: seq<Byte> := [77, 88, 75, 83]
  const HEADER: nat := 28
  const LENGTH_AT: nat := 20
  const MAX_SIZE: nat := 0x1000_0000

  type Step = (Word, Byte) -> Word

  datatype Snapshot = Snapshot(index: Long, term: Long, data: seq<Byte>)

  function Header(index: Long, term: Long, length: Word, crc: Word): (s: seq<Byte>)
    ensures |s| == HEADER
  {
    MAGIC + Le(index, 8) + Le(term, 8) + Le(length, 4) + Le(crc, 4)
  }

  function Image(step: Step, s: Snapshot): seq<Byte>
    requires |s.data| < 0x1_0000_0000
  {
    Header(s.index, s.term, |s.data|, Fold(step, 0, s.data)) + s.data
  }

  lemma HeaderParts(index: Long, term: Long, length: Word, crc: Word, file: seq<Byte>)
    requires Header(index, term, length, crc) <= file
    ensures file[..4] == MAGIC && UnLe(file[4..12]) == index && UnLe(file[12..20]) == term
    ensures UnLe(file[20..24]) == length && UnLe(file[24..28]) == crc
  {
    FiveParts(MAGIC, Le(index, 8), Le(term, 8), Le(length, 4), Le(crc, 4), file);
    Word8(index);
    Word8(term);
    Word4(length);
    Word4(crc);
  }

  lemma FiveParts(m: seq<Byte>, i: seq<Byte>, t: seq<Byte>, n: seq<Byte>, c: seq<Byte>, file: seq<Byte>)
    requires |m| == 4 && |i| == 8 && |t| == 8 && |n| == 4 && |c| == 4 && m + i + t + n + c <= file
    ensures file[..4] == m && file[4..12] == i && file[12..20] == t && file[20..24] == n && file[24..28] == c
  {
  }

  lemma FiveJoined(file: seq<Byte>)
    requires |file| >= HEADER
    ensures file[..HEADER] == file[..4] + file[4..12] + file[12..20] + file[20..24] + file[24..28]
  {
  }

  lemma HeaderRebuilt(file: seq<Byte>)
    requires |file| >= HEADER && file[..4] == MAGIC
    ensures UnLe(file[4..12]) < 0x1_0000_0000_0000_0000 && UnLe(file[12..20]) < 0x1_0000_0000_0000_0000
    ensures UnLe(file[20..24]) < 0x1_0000_0000 && UnLe(file[24..28]) < 0x1_0000_0000
    ensures file[..HEADER] == Header(UnLe(file[4..12]), UnLe(file[12..20]), UnLe(file[20..24]), UnLe(file[24..28]))
  {
    hide UnLe, Le;
    UnLe8(file[4..12]);
    UnLe8(file[12..20]);
    UnLe4(file[20..24]);
    UnLe4(file[24..28]);
    FiveJoined(file);
  }

  function Load(step: Step, file: seq<Byte>): Option<Snapshot> {
    if |file| < HEADER || file[..4] != MAGIC then None
    else
      HeaderRebuilt(file);
      var length := UnLe(file[20..24]);
      if |file| != HEADER + length || Fold(step, 0, file[HEADER..]) != UnLe(file[24..28]) then None
      else Some(Snapshot(UnLe(file[4..12]), UnLe(file[12..20]), file[HEADER..]))
  }

  /** A file loads as a snapshot exactly when it is, to the byte, what saving that snapshot writes. */
  lemma LoadIff(step: Step, file: seq<Byte>, s: Snapshot)
    ensures Load(step, file) == Some(s) <==> |s.data| < 0x1_0000_0000 && file == Image(step, s)
  {
    hide Header, UnLe;
    if |file| < HEADER || file[..4] != MAGIC {
      if |s.data| < 0x1_0000_0000 { NotAnImage(step, file, s); }
    } else {
      HeaderRebuilt(file);
      if |s.data| < 0x1_0000_0000 {
        OneImage(step, file, UnLe(file[4..12]), UnLe(file[12..20]), UnLe(file[20..24]), UnLe(file[24..28]), s);
      }
    }
  }

  /** LoadSnapshotReader: the size must match to the byte and the checksum is verified before any use. */
  method LoadSnapshotReader(step: Step, file: seq<Byte>) returns (r: Option<Snapshot>)
    ensures r == Load(step, file)
  {
    hide UnLe, Fold;
    if |file| < 4 { return None; }
    if file[..4] != MAGIC { return None; }
    if |file| < HEADER { return None; }
    HeaderRebuilt(file);
    var index, term := UnLe(file[4..12]), UnLe(file[12..20]);
    var length, crc := UnLe(file[20..24]), UnLe(file[24..28]);
    if |file| != HEADER + length { return None; }
    var data := file[HEADER..];
    if Fold(step, 0, data) != crc { return None; }
    return Some(Snapshot(index, term, data));
  }

  lemma NotAnImage(step: Step, file: seq<Byte>, s: Snapshot)
    requires |s.data| < 0x1_0000_0000 && (|file| < HEADER || file[..4] != MAGIC)
    ensures file != Image(step, s)
  {
  }

  /** The header names the size and the checksum of the one snapshot the file can be. */
  lemma OneImage(step: Step, file: seq<Byte>, index: Long, term: Long, length: Word, crc: Word, s: Snapshot)
    requires |file| >= HEADER && file[..HEADER] == Header(index, term, length, crc)
    requires |s.data| < 0x1_0000_0000
    ensures file == Image(step, s) <==>
              s == Snapshot(index, term, file[HEADER..]) && |s.data| == length && Fold(step, 0, s.data) == crc
  {
    hide Header;
    assert file == file[..HEADER] + file[HEADER..];
    if file == Image(step, s) {
      assert file[HEADER..] == s.data;
      HeaderParts(index, term, length, crc, file);
      HeaderParts(s.index, s.term, |s.data|, Fold(step, 0, s.data), file);
    }
  }

  /** SaveSnapshot: the bytes that the rename puts in place. */
  method SaveSnapshot(step: Step, s: Snapshot) returns (r: Option<seq<Byte>>)
    ensures r.Some? <==> |s.data| <= MAX_SIZE
    ensures r.Some? ==> r.value == Image(step, s)
  {
    var file := MAGIC;
    var hdr := Le(s.index, 8) + Le(s.term, 8);
    if |s.data| > MAX_SIZE { return None; }
    hdr := hdr + Le(|s.data|, 4);
    file := file + hdr;
    var crc := Le(Fold(step, 0, s.data), 4);
    file := file + crc;
    assert file == Header(s.index, s.term, |s.data|, Fold(step, 0, s.data));
    file := file + s.data;
    return Some(file);
  }
}
