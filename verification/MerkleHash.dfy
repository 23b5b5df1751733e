/**
 Tree hashes: the recursive Merkle Tree Hash of section 2.1 of RFC 6962, and the levels of a tree
 built pair by pair with an odd last node promoted unchanged (internal/zero/merkle).
 */
module MerkleHash {

  type NodeHash<!H> = (H, H) -> H

  ghost predicate Injective<H(!new)>(h: NodeHash<H>) {
    forall a, b, c, d :: h(a, b) == h(c, d) ==> a == c && b == d
  }

  lemma SameChildren<H(!new)>(h: NodeHash<H>, a: H, b: H, c: H, d: H)
    requires Injective(h) && h(a, b) == h(c, d)
    ensures a == c && b == d
  {
  }

  ghost predicate IsPowerOfTwo(k: nat) {
    k == 1 || (k > 1 && k % 2 == 0 && IsPowerOfTwo(k / 2))
  }

  /** The largest power of two below n. */
  function Split(n: nat): (k: nat)
    requires n >= 2
    ensures 1 <= k < n <= 2 * k && IsPowerOfTwo(k)
  {
    if n == 2 then 1 else
    var half := Split((n + 1) / 2);
    assert (2 * half) / 2 == half && (2 * half) % 2 == 0;
    2 * half
  }

  /** Halving a size halves its split point. */
  lemma SplitHalves(n: nat)
    requires n > 2
    ensures Split(n) % 2 == 0 && Split((n + 1) / 2) == Split(n) / 2
  {
  }

  /** MTH of a non-empty list of leaf hashes. */
  function Mth<H>(h: NodeHash<H>, leaves: seq<H>): H
    requires leaves != []
    decreases |leaves|
  {
    if |leaves| == 1 then leaves[0] else
    var k := Split(|leaves|);
    h(Mth(h, leaves[..k]), Mth(h, leaves[k..]))
  }

  /** The level above: pairs hashed, an odd last node promoted. */
  function Pair<H>(h: NodeHash<H>, level: seq<H>): (up: seq<H>)
    ensures |up| == (|level| + 1) / 2
    decreases |level|
  {
    if |level| <= 1 then level else [h(level[0], level[1])] + Pair(h, level[2..])
  }

  lemma {:induction false} PairAt<H>(h: NodeHash<H>, level: seq<H>, i: nat)
    requires i < (|level| + 1) / 2
    ensures Pair(h, level)[i] == if 2 * i + 1 < |level| then h(level[2 * i], level[2 * i + 1]) else level[2 * i]
    decreases |level|
  {
    if |level| > 1 && i > 0 { PairAt(h, level[2..], i - 1); }
  }

  /** Pairing works on two halves separately when the first has an even number of nodes. */
  lemma {:induction false} PairSplit<H>(h: NodeHash<H>, level: seq<H>, k: nat)
    requires k % 2 == 0 && k <= |level|
    ensures Pair(h, level)[..k / 2] == Pair(h, level[..k])
    ensures Pair(h, level)[k / 2..] == Pair(h, level[k..])
    decreases |level|
  {
    if k == 0 {
      assert level[..k] == [] && level[k..] == level;
    } else {
      var rest := level[2..];
      PairSplit(h, rest, k - 2);
      assert rest[..k - 2] == level[..k][2..] && rest[k - 2..] == level[k..];
    }
  }

  lemma MthUnfold<H>(h: NodeHash<H>, leaves: seq<H>)
    requires |leaves| > 1
    ensures var k := Split(|leaves|); Mth(h, leaves) == h(Mth(h, leaves[..k]), Mth(h, leaves[k..]))
  {
  }

  /** Moving up one level does not change the tree hash. */
  lemma {:induction false} MthOfPair<H>(h: NodeHash<H>, leaves: seq<H>)
    requires leaves != []
    ensures Mth(h, Pair(h, leaves)) == Mth(h, leaves)
    decreases |leaves|
  {
    if |leaves| == 2 {
      assert Pair(h, leaves) == [h(leaves[0], leaves[1])];
      assert leaves[..1] == [leaves[0]] && leaves[1..] == [leaves[1]];
    } else if |leaves| > 2 {
      hide Mth, Pair, Split;
      var k, up := Split(|leaves|), Pair(h, leaves);
      SplitHalves(|leaves|);
      PairSplit(h, leaves, k);
      MthUnfold(h, leaves);
      MthUnfold(h, up);
      MthOfPair(h, leaves[..k]);
      MthOfPair(h, leaves[k..]);
    }
  }

  /** The levels of the tree, leaves first. */
  function Levels<H>(h: NodeHash<H>, leaves: seq<H>): (levels: seq<seq<H>>)
    requires leaves != []
    ensures levels != [] && levels[0] == leaves && |levels[|levels| - 1]| == 1
    decreases |leaves|
  {
    if |leaves| == 1 then [leaves] else [leaves] + Levels(h, Pair(h, leaves))
  }

  /** The top of the level-by-level tree is the recursive tree hash. */
  lemma {:induction false} TopIsMth<H>(h: NodeHash<H>, leaves: seq<H>)
    requires leaves != []
    ensures var levels := Levels(h, leaves); levels[|levels| - 1] == [Mth(h, leaves)]
    decreases |leaves|
  {
    if |leaves| > 1 {
      TopIsMth(h, Pair(h, leaves));
      MthOfPair(h, leaves);
    }
  }

  /** With an injective node hash, a tree hash determines the leaves of a list of known length. */
  lemma {:induction false} MthInjective<H(!new)>(h: NodeHash<H>, a: seq<H>, b: seq<H>)
    requires Injective(h) && a != [] && |a| == |b| && Mth(h, a) == Mth(h, b)
    ensures a == b
    decreases |a|
  {
    if |a| > 1 {
      var k := Split(|a|);
      MthInjective(h, a[..k], b[..k]);
      MthInjective(h, a[k..], b[k..]);
      assert a == a[..k] + a[k..] && b == b[..k] + b[k..];
    }
  }
}
