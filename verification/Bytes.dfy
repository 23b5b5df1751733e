/** Byte strings, the little-endian fields of encoding/binary and the checksum fold of hash/crc32. */
module Bytes {

  type Byte = b: int | 0 <= b < 256

  type Word = w: int | 0 <= w < 0x1_0000_0000

  type Long = w: int | 0 <= w < 0x1_0000_0000_0000_0000

  function Pow256(width: nat): (p: nat)
    ensures p >= 1
  {
    if width == 0 then 1 else 256 * Pow256(width - 1)
  }

  function Le(v: nat, width: nat): (s: seq<Byte>)
    ensures |s| == width
  {
    if width == 0 then [] else [v % 256] + Le(v / 256, width - 1)
  }

  function UnLe(s: seq<Byte>): (v: nat)
    ensures v < Pow256(|s|)
  {
    if s == [] then 0 else s[0] + 256 * UnLe(s[1..])
  }

  lemma {:induction false} LeRoundTrip(v: nat, width: nat)
    requires v < Pow256(width)
    ensures UnLe(Le(v, width)) == v
  {
    if width > 0 {
      LeRoundTrip(v / 256, width - 1);
      assert Le(v, width)[1..] == Le(v / 256, width - 1);
    }
  }

  lemma {:induction false} UnLeRoundTrip(s: seq<Byte>)
    ensures Le(UnLe(s), |s|) == s
  {
    if s != [] {
      UnLeRoundTrip(s[1..]);
      assert UnLe(s) % 256 == s[0] && UnLe(s) / 256 == UnLe(s[1..]);
    }
  }

  lemma Word4(v: nat)
    requires v < 0x1_0000_0000
    ensures UnLe(Le(v, 4)) == v
  {
    assert Pow256(4) == 256 * Pow256(3) == 65536 * Pow256(2);
    LeRoundTrip(v, 4);
  }

  lemma Word8(v: nat)
    requires v < 0x1_0000_0000_0000_0000
    ensures UnLe(Le(v, 8)) == v
  {
    assert Pow256(8) == 65536 * Pow256(6) && Pow256(6) == 65536 * Pow256(4) && Pow256(4) == 65536 * Pow256(2);
    LeRoundTrip(v, 8);
  }

  lemma UnLe4(s: seq<Byte>)
    requires |s| == 4
    ensures UnLe(s) < 0x1_0000_0000 && Le(UnLe(s), 4) == s
  {
    assert Pow256(4) == 256 * Pow256(3) == 65536 * Pow256(2);
    UnLeRoundTrip(s);
  }

  lemma UnLe8(s: seq<Byte>)
    requires |s| == 8
    ensures UnLe(s) < 0x1_0000_0000_0000_0000 && Le(UnLe(s), 8) == s
  {
    assert Pow256(8) == 65536 * Pow256(6) && Pow256(6) == 65536 * Pow256(4) && Pow256(4) == 65536 * Pow256(2);
    UnLeRoundTrip(s);
  }

  /** Feeding the bytes of s one by one to a running checksum, as crc32.Update does. */
  function Fold(step: (Word, Byte) -> Word, crc: Word, s: seq<Byte>): Word
    decreases |s|
  {
    if s == [] then crc else Fold(step, step(crc, s[0]), s[1..])
  }

  lemma {:induction false} FoldAppend(step: (Word, Byte) -> Word, crc: Word, a: seq<Byte>, b: seq<Byte>)
    ensures Fold(step, crc, a + b) == Fold(step, Fold(step, crc, a), b)
    decreases |a|
  {
    if a == [] {
      assert a + b == b;
    } else {
      assert (a + b)[1..] == a[1..] + b;
      FoldAppend(step, step(crc, a[0]), a[1..], b);
    }
  }
}
