/**
 The consistency proofs that internal/zero/merkle/consistency.go generates, and when its own verifier
 accepts them.
 */
module MerkleGenerator {
  import opened Options
  import opened MerkleHash
  import opened MerkleInclusion
  import opened MerkleConsistency

  /** The nodes consistencyPath adds after the old root, from a level up. */
  function GeneratedTail<H>(m: nat, n: nat, levels: seq<seq<H>>): seq<H>
    decreases |levels|
  {
    if m >= n || |levels| <= 1 then []
    else Boundary(m, levels[0]) + GeneratedTail((m + 1) / 2, (n + 1) / 2, levels[1..])
  }

  function Boundary<H>(m: nat, level: seq<H>): seq<H> {
    if m < |level| && m % 2 == 0 then (if m + 1 < |level| then [level[m + 1]] else [level[m]]) else []
  }

  lemma TailUp<H>(m: nat, n: nat, levels: seq<seq<H>>)
    requires m < n && |levels| > 1
    ensures GeneratedTail(m, n, levels) == Boundary(m, levels[0]) + GeneratedTail((m + 1) / 2, (n + 1) / 2, levels[1..])
  {
  }

  lemma TailEnds<H>(m: nat, n: nat, levels: seq<seq<H>>)
    requires m >= n || |levels| <= 1
    ensures GeneratedTail(m, n, levels) == []
  {
  }

  function GeneratedPath<H>(h: NodeHash<H>, m: nat, leaves: seq<H>): seq<H>
    requires 1 <= m <= |leaves|
  {
    if m == |leaves| then [] else [Mth(h, leaves[..m])] + GeneratedTail(m, |leaves|, Levels(h, leaves))
  }

  function GeneratedProof<H>(h: NodeHash<H>, c: Codec<H>, m: nat, leaves: seq<H>): ConsistencyProof
    requires 1 <= m <= |leaves|
  {
    var path := GeneratedPath(h, m, leaves);
    ConsistencyProof(m, |leaves|, c.encode(Mth(h, leaves[..m])), c.encode(Mth(h, leaves)),
                     seq(|path|, k requires 0 <= k < |path| => c.encode(path[k])))
  }

  /** Hashing never leads back to where it started. */
  ghost predicate Raises<H(!new)>(h: NodeHash<H>, rank: H -> nat) {
    forall a, b :: rank(a) < rank(h(a, b)) && rank(b) < rank(h(a, b))
  }

  /** No leaf hash is a node hash: the two are computed under different prefixes. */
  ghost predicate Separated<H(!new)>(h: NodeHash<H>, leaves: seq<H>) {
    forall k, a, b :: 0 <= k < |leaves| ==> leaves[k] != h(a, b)
  }

  /** The verifier's main loop, run on the path that starts with the old root. */
  ghost predicate Accepts<H(!new)>(h: NodeHash<H>, m: nat, leaves: seq<H>, tail: seq<H>)
    requires 1 <= m <= |leaves|
  {
    var (fn, sn) := SkipOnes(m - 1, |leaves| - 1);
    var was := Mth(h, leaves[..m]);
    Climb(h, fn, sn, was, was, tail) == Some((was, Mth(h, leaves)))
  }

  // ---- An old size that is no power of two ----------------------------------------------------

  lemma {:induction false} ClimbKeepsRank<H(!new)>(h: NodeHash<H>, rank: H -> nat, fn: nat, sn: nat, fr: H, sr: H,
        path: seq<H>)
    requires Raises(h, rank)
    ensures var r := Climb(h, fn, sn, fr, sr, path);
            r.Some? ==> rank(r.value.0) >= rank(fr) && (0 < fn <= sn ==> rank(r.value.0) > rank(fr))
    decreases |path|
  {
    if path != [] && sn != 0 {
      if fn % 2 == 1 || fn == sn {
        var (f, s) := Promote(fn, sn);
        ClimbKeepsRank(h, rank, f / 2, s / 2, h(path[0], fr), h(path[0], sr), path[1..]);
      } else {
        ClimbKeepsRank(h, rank, fn / 2, sn / 2, fr, h(sr, path[0]), path[1..]);
      }
    }
  }

  lemma {:induction false} SkipOrder(fn: nat, sn: nat)
    requires fn <= sn
    ensures SkipOnes(fn, sn).0 <= SkipOnes(fn, sn).1
    decreases fn
  {
    if fn % 2 == 1 { SkipOrder(fn / 2, sn / 2); }
  }

  lemma {:induction false} SkipsToZero(m: nat, sn: nat)
    requires m > 0 && SkipOnes(m - 1, sn).0 == 0
    ensures IsPowerOfTwo(m)
    decreases m
  {
    if m > 1 {
      assert (m - 1) / 2 == m / 2 - 1;
      SkipsToZero(m / 2, sn / 2);
    }
  }

  /** A left sibling would change the old root, which the path starts with. */
  lemma AcceptedIsPower<H(!new)>(h: NodeHash<H>, rank: H -> nat, m: nat, leaves: seq<H>, tail: seq<H>)
    requires Raises(h, rank) && 1 <= m <= |leaves| && Accepts(h, m, leaves, tail)
    ensures IsPowerOfTwo(m)
  {
    hide Raises, Mth, Climb;
    var (fn, sn) := SkipOnes(m - 1, |leaves| - 1);
    var was := Mth(h, leaves[..m]);
    SkipOrder(m - 1, |leaves| - 1);
    ClimbKeepsRank(h, rank, fn, sn, was, was, tail);
    SkipsToZero(m, |leaves| - 1);
  }

  // ---- An old size that is one ----------------------------------------------------------------

  function Least(a: nat, b: nat): nat {
    if a < b then a else b
  }

  /** The node that an accepted path has to give first is the one beside the old tree. */
  lemma {:induction false} AcceptedFirst<H(!new)>(h: NodeHash<H>, m: nat, leaves: seq<H>, tail: seq<H>)
    requires Injective(h) && IsPowerOfTwo(m) && m < |leaves| && Accepts(h, m, leaves, tail)
    ensures tail != [] && tail[0] == Mth(h, leaves[m..Least(2 * m, |leaves|)])
    decreases m
  {
    hide Injective, Mth, Pair, Climb;
    if m == 1 {
      var was, up := leaves[0], Pair(h, leaves);
      assert leaves[..1] == [was] && leaves[1..2] == [leaves[1]];
      MthOfOne(h, leaves[..1]);
      MthOfOne(h, leaves[1..2]);
      ClimbRight(h, 0, |leaves| - 1, was, was, tail);
      MthOfPair(h, leaves);
      ClimbSound(h, [was], up, was, h(was, tail[0]), tail[1..]);
      PairAt(h, leaves, 0);
      SameChildren(h, was, tail[0], leaves[0], leaves[1]);
    } else {
      var up := Pair(h, leaves);
      PowerUp(h, m, leaves);
      assert Accepts(h, m / 2, up, tail);
      AcceptedFirst(h, m / 2, up, tail);
    }
  }

  /** One level up, the old tree, the new tree and the node between them have the same hashes. */
  lemma PowerUp<H(!new)>(h: NodeHash<H>, m: nat, leaves: seq<H>)
    requires m > 1 && m % 2 == 0 && m < |leaves|
    ensures var up := Pair(h, leaves);
            && m / 2 < |up| && Mth(h, up) == Mth(h, leaves) && Mth(h, up[..m / 2]) == Mth(h, leaves[..m])
            && SkipOnes(m - 1, |leaves| - 1) == SkipOnes(m / 2 - 1, |up| - 1)
            && Mth(h, up[m / 2..Least(m, |up|)]) == Mth(h, leaves[m..Least(2 * m, |leaves|)])
  {
    hide Mth, Pair, SkipOnes;
    SkipHalves(m, |leaves|);
    MthOfPair(h, leaves);
    PairSplit(h, leaves, m);
    MthOfPair(h, leaves[..m]);
    BesideUp(h, m, leaves);
    MthOfPair(h, leaves[m..Least(2 * m, |leaves|)]);
  }

  lemma SkipHalves(m: nat, n: nat)
    requires m > 1 && m % 2 == 0 && m < n
    ensures m / 2 < (n + 1) / 2 && SkipOnes(m - 1, n - 1) == SkipOnes(m / 2 - 1, (n + 1) / 2 - 1)
  {
    assert (m - 1) / 2 == m / 2 - 1 && (n - 1) / 2 == (n + 1) / 2 - 1;
  }

  lemma BesideUp<H>(h: NodeHash<H>, m: nat, leaves: seq<H>)
    requires m > 1 && m % 2 == 0 && m < |leaves| && m / 2 < |Pair(h, leaves)|
    ensures var up := Pair(h, leaves);
            up[m / 2..Least(m, |up|)] == Pair(h, leaves[m..Least(2 * m, |leaves|)])
  {
    hide Pair;
    var up, end := Pair(h, leaves), Least(2 * m, |leaves|);
    PairSplit(h, leaves, m);
    if end == 2 * m {
      PairSplit(h, leaves[m..], m);
      assert leaves[m..][..m] == leaves[m..end];
      assert up[m / 2..m] == up[m / 2..][..m / 2];
    } else {
      assert leaves[m..end] == leaves[m..];
      assert up[m / 2..Least(m, |up|)] == up[m / 2..];
    }
  }

  lemma {:induction false} NothingFromOne<H>(n: nat, levels: seq<seq<H>>)
    ensures GeneratedTail(1, n, levels) == []
    decreases |levels|
  {
    if |levels| > 1 && n > 1 { NothingFromOne((n + 1) / 2, levels[1..]); }
  }

  /** From an even size on, the generator gives a leaf first. */
  lemma EvenTail<H>(h: NodeHash<H>, m: nat, leaves: seq<H>)
    requires 1 < m < |leaves| && m % 2 == 0
    ensures var up := Pair(h, leaves);
            && GeneratedTail(m, |leaves|, Levels(h, leaves))
               == [leaves[if m + 1 < |leaves| then m + 1 else m]] + GeneratedTail(m / 2, |up|, Levels(h, up))
  {
    hide Pair;
    var levels := Levels(h, leaves);
    LevelsAbove(h, leaves);
    assert (m + 1) / 2 == m / 2;
    assert GeneratedTail(m, |leaves|, levels) == Boundary(m, leaves)
           + GeneratedTail(m / 2, (|leaves| + 1) / 2, levels[1..]);
  }

  lemma LevelsAbove<H>(h: NodeHash<H>, leaves: seq<H>)
    requires |leaves| > 1
    ensures var levels := Levels(h, leaves); |levels| > 1 && levels[1..] == Levels(h, Pair(h, leaves))
  {
  }

  lemma {:induction false} SkipBesideOne(m: nat)
    requires IsPowerOfTwo(m)
    ensures SkipOnes(m - 1, m) == (0, 1)
    decreases m
  {
    if m > 1 {
      assert (m - 1) / 2 == m / 2 - 1;
      SkipBesideOne(m / 2);
    }
  }

  /** That leaf is not the node the verifier needs, except beside an old tree of two leaves. */
  lemma OnlyTwoOfThree<H(!new)>(h: NodeHash<H>, m: nat, leaves: seq<H>)
    requires Injective(h) && Separated(h, leaves) && IsPowerOfTwo(m) && m < |leaves|
    requires Accepts(h, m, leaves, GeneratedTail(m, |leaves|, Levels(h, leaves)))
    ensures m == 2 && |leaves| == 3
  {
    hide Injective, Mth, Pair, Climb, Levels, GeneratedTail;
    var n, up := |leaves|, Pair(h, leaves);
    var tail := GeneratedTail(m, n, Levels(h, leaves));
    AcceptedFirst(h, m, leaves, tail);
    if m == 1 {
      NothingFromOne(n, Levels(h, leaves));
    } else {
      EvenTail(h, m, leaves);
      var beside := leaves[m..Least(2 * m, n)];
      if n > m + 1 {
        MthUnfold(h, beside);
        assert false;
      }
      if m > 2 {
        EvenTail(h, m / 2, up);
        SkipBesideOne(m);
        TooLong(h, Mth(h, leaves[..m]), tail);
      }
    }
  }

  lemma TooLong<H>(h: NodeHash<H>, root: H, path: seq<H>)
    requires |path| > 1
    ensures Climb(h, 0, 1, root, root, path) == None
  {
  }

  // ---- The exact condition --------------------------------------------------------------------

  /** The verifier accepts a generated proof exactly between equal sizes, and from two leaves to three. */
  lemma GeneratedAcceptedIff<H(!new)>(h: NodeHash<H>, c: Codec<H>, rank: H -> nat, m: nat, leaves: seq<H>)
    requires Injective(h) && Raises(h, rank) && Separated(h, leaves) && RoundTrips(c) && 1 <= m <= |leaves|
    ensures MerkleConsistency.Verdict(h, c, GeneratedProof(h, c, m, leaves)) == Checked(true) <==>
              m == |leaves| || (m == 2 && |leaves| == 3)
  {
    if m == |leaves| {
      assert leaves[..m] == leaves;
    } else {
      GeneratedVerdict(h, c, m, leaves);
      var tail := GeneratedTail(m, |leaves|, Levels(h, leaves));
      if Accepts(h, m, leaves, tail) {
        AcceptedIsPower(h, rank, m, leaves, tail);
        OnlyTwoOfThree(h, m, leaves);
      } else if m == 2 && |leaves| == 3 {
        TwoOfThree(h, leaves);
      }
    }
  }

  lemma GeneratedVerdict<H(!new)>(h: NodeHash<H>, c: Codec<H>, m: nat, leaves: seq<H>)
    requires RoundTrips(c) && 1 <= m < |leaves|
    ensures MerkleConsistency.Verdict(h, c, GeneratedProof(h, c, m, leaves))
         == Checked(Accepts(h, m, leaves, GeneratedTail(m, |leaves|, Levels(h, leaves))))
  {
    hide Mth, Climb, SkipOnes, GeneratedTail, Levels;
    var p, path := GeneratedProof(h, c, m, leaves), GeneratedPath(h, m, leaves);
    forall k | 0 <= k < |p.path| ensures c.decode(p.path[k]) == Some(path[k]) {
      assert p.path[k] == c.encode(path[k]);
    }
    assert Decoded(c, p.path) == path;
    assert path[1..] == GeneratedTail(m, |leaves|, Levels(h, leaves));
  }

  lemma TwoOfThree<H(!new)>(h: NodeHash<H>, leaves: seq<H>)
    requires |leaves| == 3
    ensures Accepts(h, 2, leaves, GeneratedTail(2, 3, Levels(h, leaves)))
  {
    var tail, was := GeneratedTail(2, 3, Levels(h, leaves)), Mth(h, leaves[..2]);
    EvenTail(h, 2, leaves);
    NothingFromOne(2, Levels(h, Pair(h, leaves)));
    assert tail == [leaves[2]];
    SkipBesideOne(2);
    assert SkipOnes(1, 2) == (0, 1);
    ClimbRight(h, 0, 1, was, was, tail);
    assert Split(3) == 2 && leaves[2..] == [leaves[2]];
    MthUnfold(h, leaves);
  }

  // ---- An input that shows it -----------------------------------------------------------------

  /** A hash without collisions: the term that was hashed. */
  datatype Term = Leaf(name: nat) | Node(left: Term, right: Term)

  function Join(a: Term, b: Term): Term {
    Node(a, b)
  }

  function Height(t: Term): nat {
    match t
    case Leaf(_) => 0
    case Node(a, b) => Height(a) + Height(b) + 1
  }

  /** A tree of one leaf that grows to two has its proof refused. */
  lemma OneToTwoRefused(c: Codec<Term>)
    requires RoundTrips(c)
    ensures MerkleConsistency.Verdict(Join, c, GeneratedProof(Join, c, 1, [Leaf(0), Leaf(1)])) == Checked(false)
  {
    var leaves := [Leaf(0), Leaf(1)];
    assert Separated(Join, leaves) && Raises(Join, Height);
    GeneratedVerdict(Join, c, 1, leaves);
    GeneratedAcceptedIff(Join, c, Height, 1, leaves);
  }
}
