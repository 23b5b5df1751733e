/**
 Consistency proofs: the bit-shifting verifier of internal/zero/merkle/consistency.go against the
 proofs of section 2.1.2 of RFC 6962.
 */
module MerkleConsistency {
  import opened Options
  import opened MerkleHash
  import opened MerkleInclusion

  datatype ConsistencyProof = ConsistencyProof(
    oldSize: int, newSize: int, oldRoot: string, newRoot: string, path: seq<string>)

  // ---- The verifier ---------------------------------------------------------------------------

  /** Both positions shifted down past the trailing ones of fn. */
  function SkipOnes(fn: nat, sn: nat): (nat, nat) {
    if fn % 2 == 1 then SkipOnes(fn / 2, sn / 2) else (fn, sn)
  }

  /** Both positions shifted while fn is even and not zero: levels on which the node is promoted. */
  function Promote(fn: nat, sn: nat): (nat, nat) {
    if fn != 0 && fn % 2 == 0 then Promote(fn / 2, sn / 2) else (fn, sn)
  }

  /** The main loop: the roots rebuilt from a path, unless it has too few or too many nodes. */
  function Climb<H>(h: NodeHash<H>, fn: nat, sn: nat, fr: H, sr: H, path: seq<H>): Option<(H, H)>
    decreases |path|
  {
    if path == [] then (if sn == 0 then Some((fr, sr)) else None)
    else if sn == 0 then None
    else if fn % 2 == 1 || fn == sn then
      var (f, s) := Promote(fn, sn);
      Climb(h, f / 2, s / 2, h(path[0], fr), h(path[0], sr), path[1..])
    else Climb(h, fn / 2, sn / 2, fr, h(sr, path[0]), path[1..])
  }

  predicate Readable<H>(c: Codec<H>, p: ConsistencyProof) {
    && c.decode(p.oldRoot).Some? && c.decode(p.newRoot).Some? && p.path != []
    && forall k :: 0 <= k < |p.path| ==> c.decode(p.path[k]).Some?
  }

  function Verdict<H(==)>(h: NodeHash<H>, c: Codec<H>, p: ConsistencyProof): Outcome {
    if p.oldSize <= 0 || p.newSize < p.oldSize then Invalid
    else if p.oldSize == p.newSize then Checked(p.oldRoot == p.newRoot && p.path == [])
    else if !Readable(c, p) then Invalid
    else
      var path := Decoded(c, p.path);
      var (fn, sn) := SkipOnes(p.oldSize - 1, p.newSize - 1);
      Checked(Climb(h, fn, sn, path[0], path[0], path[1..])
          == Some((c.decode(p.oldRoot).value, c.decode(p.newRoot).value)))
  }

  method VerifyConsistencyProof<H(==)>(h: NodeHash<H>, c: Codec<H>, p: ConsistencyProof) returns (r: Outcome)
    ensures r == Verdict(h, c, p)
  {
    if p.oldSize <= 0 || p.newSize < p.oldSize { return Invalid; }
    if p.oldSize == p.newSize { return Checked(p.oldRoot == p.newRoot && |p.path| == 0); }
    var oldRoot := c.decode(p.oldRoot);
    if oldRoot == None { return Invalid; }
    var newRoot := c.decode(p.newRoot);
    if newRoot == None { return Invalid; }
    if |p.path| == 0 { return Invalid; }
    var path: seq<H> := [];
    for i := 0 to |p.path|
      invariant |path| == i
      invariant forall k :: 0 <= k < i ==> c.decode(p.path[k]) == Some(path[k])
    {
      var b := c.decode(p.path[i]);
      if b == None { return Invalid; }
      path := path + [b.value];
    }
    assert path == Decoded(c, p.path);

    var fn, sn := p.oldSize - 1, p.newSize - 1;
    while fn % 2 == 1
      invariant fn >= 0 && sn >= 0
      invariant SkipOnes(fn, sn) == SkipOnes(p.oldSize - 1, p.newSize - 1)
      decreases fn
    {
      fn, sn := fn / 2, sn / 2;
    }
    var fr, sr := path[0], path[0];
    ghost var f0, s0 := fn, sn;
    var rest := path[1..];
    for i := 0 to |rest|
      invariant fn >= 0 && sn >= 0
      invariant Climb(h, fn, sn, fr, sr, rest[i..]) == Climb(h, f0, s0, path[0], path[0], rest)
    {
      var node := rest[i];
      assert rest[i..][1..] == rest[i + 1..];
      if sn == 0 { return Checked(false); }
      if fn % 2 == 1 || fn == sn {
        fr := h(node, fr);
        sr := h(node, sr);
        ghost var (f, s) := Promote(fn, sn);
        while fn != 0 && fn % 2 == 0
          invariant fn >= 0 && sn >= 0 && Promote(fn, sn) == (f, s)
          decreases fn
        {
          fn, sn := fn / 2, sn / 2;
        }
      } else {
        sr := h(sr, node);
      }
      fn, sn := fn / 2, sn / 2;
    }
    if sn != 0 { return Checked(false); }
    r := Checked(fr == oldRoot.value && sr == newRoot.value);
  }

  /** When both positions are the same even one, the loop may as well start one level up. */
  lemma PromotedTogether<H>(h: NodeHash<H>, n: nat, fr: H, sr: H, path: seq<H>)
    requires n != 0 && n % 2 == 0
    ensures Climb(h, n, n, fr, sr, path) == Climb(h, n / 2, n / 2, fr, sr, path)
  {
  }

  // ---- Soundness ------------------------------------------------------------------------------

  /** Levels that agree on their first nodes come from levels that do. */
  lemma PairsAgree<H(!new)>(h: NodeHash<H>, a: seq<H>, b: seq<H>, n: nat)
    requires Injective(h) && 2 * n <= |a| && 2 * n <= |b|
    requires Pair(h, a)[..n] == Pair(h, b)[..n]
    ensures a[..2 * n] == b[..2 * n]
  {
    hide Injective, Pair;
    forall k | 0 <= k < 2 * n ensures a[k] == b[k] {
      var j := k / 2;
      PairAt(h, a, j);
      PairAt(h, b, j);
      assert Pair(h, a)[..n][j] == Pair(h, b)[..n][j];
      SameChildren(h, a[2 * j], a[2 * j + 1], b[2 * j], b[2 * j + 1]);
    }
  }

  /**
   If the loop rebuilds the roots of an old level of fn + 1 nodes and a new level of sn + 1 nodes,
   it started from their nodes at fn, and they agree on everything before.
   */
  lemma {:induction false} ClimbSound<H(!new)>(h: NodeHash<H>, a: seq<H>, b: seq<H>, fr: H, sr: H, path: seq<H>)
    requires Injective(h) && 1 <= |a| <= |b|
    requires Climb(h, |a| - 1, |b| - 1, fr, sr, path) == Some((Mth(h, a), Mth(h, b)))
    ensures fr == a[|a| - 1] && sr == b[|a| - 1] && a[..|a| - 1] == b[..|a| - 1]
    decreases |b|
  {
    hide Injective, Mth, Pair, Promote;
    var fn, sn := |a| - 1, |b| - 1;
    if sn == 0 {
      MthOfOne(h, a);
      MthOfOne(h, b);
    } else {
      var a', b' := Pair(h, a), Pair(h, b);
      MthOfPair(h, a);
      MthOfPair(h, b);
      PairAt(h, a, fn / 2);
      PairAt(h, b, fn / 2);
      if fn % 2 == 1 {
        ClimbLeft(h, fn, sn, fr, sr, path);
        ClimbSound(h, a', b', h(path[0], fr), h(path[0], sr), path[1..]);
        SameChildren(h, path[0], fr, a[fn - 1], a[fn]);
        SameChildren(h, path[0], sr, b[fn - 1], b[fn]);
      } else if fn < sn {
        ClimbRight(h, fn, sn, fr, sr, path);
        ClimbSound(h, a', b', fr, h(sr, path[0]), path[1..]);
        SameChildren(h, sr, path[0], b[fn], b[fn + 1]);
      } else {
        PromotedTogether(h, fn, fr, sr, path);
        ClimbSound(h, a', b', fr, sr, path);
      }
      PairsAgree(h, a, b, fn / 2);
      if fn % 2 == 1 {
        assert a[..fn] == a[..fn - 1] + [a[fn - 1]] && b[..fn] == b[..fn - 1] + [b[fn - 1]];
      }
    }
  }

  lemma MthOfOne<H>(h: NodeHash<H>, leaves: seq<H>)
    requires |leaves| == 1
    ensures Mth(h, leaves) == leaves[0]
  {
  }

  /** A left sibling goes into both roots. */
  lemma ClimbLeft<H>(h: NodeHash<H>, fn: nat, sn: nat, fr: H, sr: H, path: seq<H>)
    requires fn % 2 == 1 && sn > 0
    ensures path == [] ==> Climb(h, fn, sn, fr, sr, path) == None
    ensures path != [] ==>
              Climb(h, fn, sn, fr, sr, path) == Climb(h, fn / 2, sn / 2, h(path[0], fr), h(path[0], sr), path[1..])
  {
  }

  /** A right sibling goes into the new root only. */
  lemma ClimbRight<H>(h: NodeHash<H>, fn: nat, sn: nat, fr: H, sr: H, path: seq<H>)
    requires fn % 2 == 0 && fn < sn
    ensures path == [] ==> Climb(h, fn, sn, fr, sr, path) == None
    ensures path != [] ==> Climb(h, fn, sn, fr, sr, path) == Climb(h, fn / 2, sn / 2, fr, h(sr, path[0]), path[1..])
  {
  }

  /** The same from below the skipped levels, where the two lists agree up to and including fn. */
  lemma {:induction false} SkipSound<H(!new)>(h: NodeHash<H>, a: seq<H>, b: seq<H>, first: H, path: seq<H>)
    requires Injective(h) && 1 <= |a| <= |b|
    requires var (fn, sn) := SkipOnes(|a| - 1, |b| - 1);
             Climb(h, fn, sn, first, first, path) == Some((Mth(h, a), Mth(h, b)))
    ensures a == b[..|a|]
    decreases |b|
  {
    hide Injective, Mth, Pair, Climb;
    if (|a| - 1) % 2 == 1 {
      MthOfPair(h, a);
      MthOfPair(h, b);
      SkipSound(h, Pair(h, a), Pair(h, b), first, path);
      PairsAgree(h, a, b, |a| / 2);
      assert a[..|a|] == a;
    } else {
      ClimbSound(h, a, b, first, first, path);
      assert a == a[..|a| - 1] + [a[|a| - 1]] && b[..|a|] == b[..|a| - 1] + [b[|a| - 1]];
    }
  }

  /** Soundness: an accepted proof between two tree hashes means the old leaves are the first of the new. */
  lemma AcceptedMeansPrefix<H(!new)>(h: NodeHash<H>, c: Codec<H>, p: ConsistencyProof, a: seq<H>, b: seq<H>)
    requires Injective(h) && a != [] && b != [] && p.oldSize == |a| && p.newSize == |b|
    requires c.decode(p.oldRoot) == Some(Mth(h, a)) && c.decode(p.newRoot) == Some(Mth(h, b))
    requires Verdict(h, c, p) == Checked(true)
    ensures |a| <= |b| && a == b[..|a|]
  {
    hide Mth, Injective, Climb, SkipOnes, Decoded;
    if |a| == |b| {
      MthInjective(h, a, b);
      assert b[..|a|] == b;
    } else {
      var path := Decoded(c, p.path);
      SkipSound(h, a, b, path[0], path[1..]);
    }
  }

  // ---- Completeness ---------------------------------------------------------------------------

  /** SUBPROOF(m, leaves, b) of RFC 6962; b says the old tree is known to the verifier as a whole. */
  function Subproof<H>(h: NodeHash<H>, m: nat, leaves: seq<H>, known: bool): seq<H>
    requires 1 <= m <= |leaves|
    decreases |leaves|
  {
    if m == |leaves| then (if known then [] else [Mth(h, leaves)]) else
    var k := Split(|leaves|);
    if m <= k then Subproof(h, m, leaves[..k], known) + [Mth(h, leaves[k..])]
    else Subproof(h, m - k, leaves[k..], false) + [Mth(h, leaves[..k])]
  }

  /** PROOF(m, leaves), with the old root in front when the old size is a power of two. */
  ghost function RfcProof<H>(h: NodeHash<H>, m: nat, leaves: seq<H>): seq<H>
    requires 1 <= m < |leaves|
  {
    (if IsPowerOfTwo(m) then [Mth(h, leaves[..m])] else []) + Subproof(h, m, leaves, true)
  }

  lemma {:induction false} PowerGap(m: nat, k: nat)
    requires IsPowerOfTwo(m) && IsPowerOfTwo(k) && m > k
    ensures m >= 2 * k
    decreases m
  {
    if k > 1 { PowerGap(m / 2, k / 2); }
  }

  /** Putting the old root in front is the same as asking for it with b = false. */
  lemma {:induction false} KnownOrNot<H>(h: NodeHash<H>, m: nat, leaves: seq<H>)
    requires 1 <= m <= |leaves| && (m == |leaves| ==> IsPowerOfTwo(m))
    ensures Subproof(h, m, leaves, false)
         == (if IsPowerOfTwo(m) then [Mth(h, leaves[..m])] else []) + Subproof(h, m, leaves, true)
    decreases |leaves|
  {
    if m == |leaves| {
      assert leaves[..m] == leaves;
    } else {
      var k := Split(|leaves|);
      if m <= k {
        KnownOrNot(h, m, leaves[..k]);
        assert leaves[..k][..m] == leaves[..m];
        var own := if IsPowerOfTwo(m) then [Mth(h, leaves[..m])] else [];
        assert own + Subproof(h, m, leaves[..k], true) + [Mth(h, leaves[k..])]
            == own + (Subproof(h, m, leaves[..k], true) + [Mth(h, leaves[k..])]);
      } else {
        if IsPowerOfTwo(m) { PowerGap(m, k); }
      }
    }
  }

  lemma SubproofWhole<H>(h: NodeHash<H>, leaves: seq<H>)
    requires leaves != []
    ensures Subproof(h, |leaves|, leaves, false) == [Mth(h, leaves)]
  {
  }

  lemma SubproofLeft<H>(h: NodeHash<H>, m: nat, leaves: seq<H>)
    requires |leaves| > 1 && 1 <= m <= Split(|leaves|)
    ensures var k := Split(|leaves|);
            Subproof(h, m, leaves, false) == Subproof(h, m, leaves[..k], false) + [Mth(h, leaves[k..])]
  {
  }

  lemma SubproofRight<H>(h: NodeHash<H>, m: nat, leaves: seq<H>)
    requires |leaves| > 1 && Split(|leaves|) < m < |leaves|
    ensures var k := Split(|leaves|);
            Subproof(h, m, leaves, false) == Subproof(h, m - k, leaves[k..], false) + [Mth(h, leaves[..k])]
  {
  }

  /** An old tree that ends with a whole pair has the same proof one level up. */
  lemma {:induction false} EvenProofUp<H>(h: NodeHash<H>, m: nat, leaves: seq<H>)
    requires 1 <= m <= |leaves| && m % 2 == 0
    ensures Subproof(h, m, leaves, false) == Subproof(h, m / 2, Pair(h, leaves), false)
    decreases |leaves|
  {
    hide Pair, Mth, Split, Subproof;
    var up := Pair(h, leaves);
    if m == |leaves| {
      Halves(m, 0);
      MthOfPair(h, leaves);
      SubproofWhole(h, leaves);
      SubproofWhole(h, up);
    } else {
      var k := Split(|leaves|);
      SplitHalves(|leaves|);
      Halves(m, k);
      if m <= k {
        EvenProofUp(h, m, leaves[..k]);
        EvenLeft(h, m, leaves);
      } else {
        EvenProofUp(h, m - k, leaves[k..]);
        EvenRight(h, m, leaves);
      }
    }
  }

  lemma Halves(m: nat, k: nat)
    requires m % 2 == 0 && k % 2 == 0
    ensures (m + 1) / 2 == m / 2 && (m - k) % 2 == 0 && (m - k) / 2 == m / 2 - k / 2
  {
  }

  lemma EvenLeft<H>(h: NodeHash<H>, m: nat, leaves: seq<H>)
    requires |leaves| > 2 && 1 <= m <= Split(|leaves|) && m % 2 == 0
    requires var left := leaves[..Split(|leaves|)];
             Subproof(h, m, left, false) == Subproof(h, m / 2, Pair(h, left), false)
    ensures Subproof(h, m, leaves, false) == Subproof(h, m / 2, Pair(h, leaves), false)
  {
    hide Pair, Mth, Split, Subproof;
    var k := Split(|leaves|);
    SplitHalves(|leaves|);
    PairSplit(h, leaves, k);
    var up, k2, m2 := Pair(h, leaves), k / 2, m / 2;
    assert Split(|up|) == k2 && 1 <= m2 <= k2;
    SubproofLeft(h, m, leaves);
    SubproofLeft(h, m2, up);
    assert up[..k2] == Pair(h, leaves[..k]) && up[k2..] == Pair(h, leaves[k..]);
    MthOfPair(h, leaves[k..]);
  }

  lemma EvenRight<H>(h: NodeHash<H>, m: nat, leaves: seq<H>)
    requires |leaves| > 2 && Split(|leaves|) < m < |leaves| && m % 2 == 0 && (m - Split(|leaves|)) % 2 == 0
    requires var k := Split(|leaves|);
             Subproof(h, m - k, leaves[k..], false) == Subproof(h, (m - k) / 2, Pair(h, leaves[k..]), false)
    ensures Subproof(h, m, leaves, false) == Subproof(h, m / 2, Pair(h, leaves), false)
  {
    hide Pair, Mth, Split, Subproof;
    var k := Split(|leaves|);
    SplitHalves(|leaves|);
    PairSplit(h, leaves, k);
    MthOfPair(h, leaves[..k]);
    SubproofRight(h, m, leaves);
    SubproofRight(h, m / 2, Pair(h, leaves));
    Halves(m, k);
  }

  /** An old tree that ends with half a pair: its last leaf, then that leaf's audit path. */
  lemma {:induction false} OddProof<H>(h: NodeHash<H>, m: nat, leaves: seq<H>)
    requires 1 <= m <= |leaves| && m % 2 == 1 && (m == |leaves| ==> m == 1)
    ensures Subproof(h, m, leaves, false) == [leaves[m - 1]] + RfcPath(h, m - 1, leaves)
    decreases |leaves|
  {
    hide Mth, Split, Subproof, RfcPath;
    if m == |leaves| {
      SubproofWhole(h, leaves);
      MthOfOne(h, leaves);
      PathOfOne(h, leaves);
    } else {
      var k := Split(|leaves|);
      if |leaves| > 2 { SplitHalves(|leaves|); }
      if m <= k {
        if m == k { OddPower(k); }
        OddProof(h, m, leaves[..k]);
        SubproofLeft(h, m, leaves);
        PathLeft(h, m - 1, leaves);
        var low, top := RfcPath(h, m - 1, leaves[..k]), [Mth(h, leaves[k..])];
        assert [leaves[m - 1]] + low + top == [leaves[m - 1]] + (low + top);
      } else {
        OddProof(h, m - k, leaves[k..]);
        SubproofRight(h, m, leaves);
        PathRight(h, m - 1, leaves);
        var low, top := RfcPath(h, m - 1 - k, leaves[k..]), [Mth(h, leaves[..k])];
        assert [leaves[m - 1]] + low + top == [leaves[m - 1]] + (low + top);
      }
    }
  }

  lemma OddPower(k: nat)
    requires IsPowerOfTwo(k) && k % 2 == 1
    ensures k == 1
  {
  }

  /** From the nodes at fn of two levels that agree before it, the audit path leads to both roots. */
  lemma {:induction false} ClimbComplete<H>(h: NodeHash<H>, a: seq<H>, b: seq<H>)
    requires 1 <= |a| <= |b| && a[..|a| - 1] == b[..|a| - 1]
    ensures Climb(h, |a| - 1, |b| - 1, a[|a| - 1], b[|a| - 1], RfcPath(h, |a| - 1, b)) == Some((Mth(h, a), Mth(h, b)))
    decreases |b|
  {
    hide Mth, Pair, RfcPath, Promote;
    var fn, path := |a| - 1, RfcPath(h, |a| - 1, b);
    if |b| == 1 {
      MthOfOne(h, a);
      MthOfOne(h, b);
      PathOfOne(h, b);
    } else {
      var up := Pair(h, b);
      PathUp(h, fn, b);
      PairAt(h, a, fn / 2);
      PairAt(h, b, fn / 2);
      AgreeUp(h, a, b);
      ClimbComplete(h, Pair(h, a), up);
      MthOfPair(h, a);
      MthOfPair(h, b);
      if fn % 2 == 1 {
        assert a[..fn][fn - 1] == b[..fn][fn - 1];
        assert path[1..] == RfcPath(h, fn / 2, up);
        ClimbLeft(h, fn, |b| - 1, a[fn], b[fn], path);
      } else if fn + 1 < |b| {
        assert path[1..] == RfcPath(h, fn / 2, up);
        ClimbRight(h, fn, |b| - 1, a[fn], b[fn], path);
      } else {
        assert path == RfcPath(h, fn / 2, up);
        PromotedTogether(h, fn, a[fn], b[fn], path);
      }
    }
  }

  lemma AgreeUp<H>(h: NodeHash<H>, a: seq<H>, b: seq<H>)
    requires 1 <= |a| <= |b| && a[..|a| - 1] == b[..|a| - 1]
    ensures var a', b' := Pair(h, a), Pair(h, b); a'[..|a'| - 1] == b'[..|a'| - 1]
  {
    var a', b' := Pair(h, a), Pair(h, b);
    forall k | 0 <= k < |a'| - 1 ensures a'[k] == b'[k] {
      PairAt(h, a, k);
      PairAt(h, b, k);
      assert a[2 * k] == a[..|a| - 1][2 * k] == b[2 * k];
      assert a[2 * k + 1] == a[..|a| - 1][2 * k + 1] == b[2 * k + 1];
    }
  }

  lemma {:induction false} SkipComplete<H>(h: NodeHash<H>, m: nat, leaves: seq<H>)
    requires 1 <= m < |leaves|
    ensures var proof := Subproof(h, m, leaves, false);
            var (fn, sn) := SkipOnes(m - 1, |leaves| - 1);
            proof != [] && Climb(h, fn, sn, proof[0], proof[0], proof[1..])
                == Some((Mth(h, leaves[..m]), Mth(h, leaves)))
    decreases |leaves|
  {
    hide Mth, Pair, RfcPath, Climb, Subproof;
    if m % 2 == 0 {
      EvenProofUp(h, m, leaves);
      PairSplit(h, leaves, m);
      MthOfPair(h, leaves[..m]);
      MthOfPair(h, leaves);
      SkipComplete(h, m / 2, Pair(h, leaves));
    } else {
      OddProof(h, m, leaves);
      assert leaves[..m][..m - 1] == leaves[..m - 1];
      ClimbComplete(h, leaves[..m], leaves);
    }
  }

  /** Completeness: the verifier accepts the RFC's proof between any two sizes of one tree. */
  lemma RfcProofAccepted<H(!new)>(h: NodeHash<H>, c: Codec<H>, p: ConsistencyProof, m: nat, leaves: seq<H>)
    requires 1 <= m < |leaves| && p.oldSize == m && p.newSize == |leaves|
    requires c.decode(p.oldRoot) == Some(Mth(h, leaves[..m])) && c.decode(p.newRoot) == Some(Mth(h, leaves))
    requires |p.path| == |RfcProof(h, m, leaves)|
    requires forall k :: 0 <= k < |p.path| ==> c.decode(p.path[k]) == Some(RfcProof(h, m, leaves)[k])
    ensures Verdict(h, c, p) == Checked(true)
  {
    hide Mth, Climb, Subproof, SkipOnes;
    KnownOrNot(h, m, leaves);
    SkipComplete(h, m, leaves);
    assert Decoded(c, p.path) == Subproof(h, m, leaves, false);
  }

  // ---- Exactness --------------------------------------------------------------------------------

  /** A path from which the loop rebuilds both roots is the audit path of the old level's last node. */
  lemma {:induction false} ClimbPath<H(!new)>(h: NodeHash<H>, a: seq<H>, b: seq<H>, fr: H, sr: H, path: seq<H>)
    requires Injective(h) && 1 <= |a| <= |b|
    requires Climb(h, |a| - 1, |b| - 1, fr, sr, path) == Some((Mth(h, a), Mth(h, b)))
    ensures path == RfcPath(h, |a| - 1, b)
    decreases |b|
  {
    hide Injective, Mth, Pair, Promote, RfcPath;
    var fn, sn := |a| - 1, |b| - 1;
    if sn == 0 {
      PathOfOne(h, b);
    } else {
      var a', b' := Pair(h, a), Pair(h, b);
      MthOfPair(h, a);
      MthOfPair(h, b);
      PathUp(h, fn, b);
      PairAt(h, b, fn / 2);
      if fn % 2 == 1 {
        ClimbLeft(h, fn, sn, fr, sr, path);
        ClimbSound(h, a', b', h(path[0], fr), h(path[0], sr), path[1..]);
        ClimbPath(h, a', b', h(path[0], fr), h(path[0], sr), path[1..]);
        SameChildren(h, path[0], sr, b[fn - 1], b[fn]);
        assert path == [path[0]] + path[1..];
      } else if fn < sn {
        ClimbRight(h, fn, sn, fr, sr, path);
        ClimbSound(h, a', b', fr, h(sr, path[0]), path[1..]);
        ClimbPath(h, a', b', fr, h(sr, path[0]), path[1..]);
        SameChildren(h, sr, path[0], b[fn], b[fn + 1]);
        assert path == [path[0]] + path[1..];
      } else {
        PromotedTogether(h, fn, fr, sr, path);
        ClimbPath(h, a', b', fr, sr, path);
        assert [] + path == path;
      }
    }
  }

  /** The same from below the skipped levels, with the node that the path starts from. */
  lemma {:induction false} SkipPath<H(!new)>(h: NodeHash<H>, a: seq<H>, b: seq<H>, first: H, path: seq<H>)
    requires Injective(h) && 1 <= |a| < |b|
    requires var (fn, sn) := SkipOnes(|a| - 1, |b| - 1);
             Climb(h, fn, sn, first, first, path) == Some((Mth(h, a), Mth(h, b)))
    ensures [first] + path == Subproof(h, |a|, b, false)
    decreases |b|
  {
    hide Injective, Mth, Pair, Climb, Subproof, RfcPath;
    if (|a| - 1) % 2 == 1 {
      MthOfPair(h, a);
      MthOfPair(h, b);
      SkipPath(h, Pair(h, a), Pair(h, b), first, path);
      EvenProofUp(h, |a|, b);
    } else {
      ClimbSound(h, a, b, first, first, path);
      ClimbPath(h, a, b, first, first, path);
      OddProof(h, |a|, b);
    }
  }

  /** The path of the proof decodes to these hashes. */
  ghost predicate Carries<H>(c: Codec<H>, p: ConsistencyProof, hashes: seq<H>) {
    |p.path| == |hashes| && forall k :: 0 <= k < |p.path| ==> c.decode(p.path[k]) == Some(hashes[k])
  }

  /**
   Between the hashes of two lists of leaves, the first shorter, exactly one path is accepted, that of the
   RFC, and only if the first is the beginning of the second.
   */
  lemma AcceptedIff<H(!new)>(h: NodeHash<H>, c: Codec<H>, p: ConsistencyProof, a: seq<H>, b: seq<H>)
    requires Injective(h) && 1 <= |a| < |b| && p.oldSize == |a| && p.newSize == |b|
    requires c.decode(p.oldRoot) == Some(Mth(h, a)) && c.decode(p.newRoot) == Some(Mth(h, b))
    ensures Verdict(h, c, p) == Checked(true) <==> a == b[..|a|] && Carries(c, p, RfcProof(h, |a|, b))
  {
    hide Mth, Injective, Climb, SkipOnes, Subproof;
    if Verdict(h, c, p) == Checked(true) {
      AcceptedMeansPrefix(h, c, p, a, b);
      var path := Decoded(c, p.path);
      SkipPath(h, a, b, path[0], path[1..]);
      KnownOrNot(h, |a|, b);
      assert path == [path[0]] + path[1..];
    }
    if a == b[..|a|] && Carries(c, p, RfcProof(h, |a|, b)) { RfcProofAccepted(h, c, p, |a|, b); }
  }

  /**
   A proof is malformed exactly when its sizes are not those of a tree and a beginning of it, or the tree
   has grown and the path is empty or some hash does not decode. Of a tree that has not grown, a proof is
   accepted exactly when it names one root and has no path.
   */
  lemma MalformedIff<H(!new)>(h: NodeHash<H>, c: Codec<H>, p: ConsistencyProof)
    ensures Verdict(h, c, p) == Invalid <==>
            || !(1 <= p.oldSize <= p.newSize)
            || (p.oldSize < p.newSize
                && (|| p.path == [] || c.decode(p.oldRoot) == None || c.decode(p.newRoot) == None
                    || exists k :: 0 <= k < |p.path| && c.decode(p.path[k]) == None))
    ensures 1 <= p.oldSize == p.newSize ==> Verdict(h, c, p) == Checked(p.oldRoot == p.newRoot && p.path == [])
  {
    hide Climb, SkipOnes;
  }
}
