/** Inclusion proofs: internal/zero/merkle/proof.go against the audit paths of section 2.1.1 of RFC 6962. */
module MerkleInclusion {
  import opened Options
  import opened MerkleHash

  /** A malformed proof is an error; a well-formed one is accepted or not. */
  datatype Outcome = Invalid | Checked(ok: bool)

  /** Hashes travel as hex; decoding refuses anything that is not one whole hash. */
  datatype Codec<!H> = Codec(encode: H -> string, decode: string -> Option<H>)

  ghost predicate RoundTrips<H(!new)>(c: Codec<H>) {
    forall x: H :: c.decode(c.encode(x)) == Some(x)
  }

  datatype Proof = Proof(
    leafIndex: int, leafHash: string, treeSize: int, rootHash: string,
    auditPath: seq<string>, directions: seq<int>)

  const LEFT_SIBLING := 0
  const RIGHT_SIBLING := 1

  // ---- Paths ----------------------------------------------------------------------------------

  /** PATH(i, leaves) of RFC 6962. */
  function RfcPath<H>(h: NodeHash<H>, i: nat, leaves: seq<H>): seq<H>
    requires i < |leaves|
    decreases |leaves|
  {
    if |leaves| == 1 then [] else
    var k := Split(|leaves|);
    if i < k then RfcPath(h, i, leaves[..k]) + [Mth(h, leaves[k..])]
    else RfcPath(h, i - k, leaves[k..]) + [Mth(h, leaves[..k])]
  }

  /** The sibling of node i on its level; a promoted node has none. */
  function Sibling<H>(i: nat, level: seq<H>): seq<H>
    requires i < |level|
  {
    if i % 2 == 1 then [level[i - 1]] else if i + 1 < |level| then [level[i + 1]] else []
  }

  /** On which side the siblings stand, level by level, in a tree of n leaves. */
  function Sides(i: nat, n: nat): seq<int>
    decreases n
  {
    if n <= 1 then []
    else (if i % 2 == 1 then [LEFT_SIBLING] else if i + 1 < n then [RIGHT_SIBLING] else []) + Sides(i / 2, (n + 1) / 2)
  }

  /** The first step of a path is on the leaves' own level, the rest is the path of the level above. */
  lemma {:induction false} PathUp<H>(h: NodeHash<H>, i: nat, leaves: seq<H>)
    requires i < |leaves| && |leaves| >= 2
    ensures RfcPath(h, i, leaves) == Sibling(i, leaves) + RfcPath(h, i / 2, Pair(h, leaves))
    decreases |leaves|
  {
    if |leaves| == 2 {
      assert leaves[..1] == [leaves[0]] && leaves[1..] == [leaves[1]];
    } else {
      var k := Split(|leaves|);
      if i < k {
        PathUp(h, i, leaves[..k]);
        PathUpLeft(h, i, leaves);
      } else {
        if |leaves| > k + 1 { PathUp(h, i - k, leaves[k..]); }
        PathUpRight(h, i, leaves);
      }
    }
  }

  lemma PathUpLeft<H>(h: NodeHash<H>, i: nat, leaves: seq<H>)
    requires |leaves| > 2 && i < Split(|leaves|)
    requires var left := leaves[..Split(|leaves|)];
             RfcPath(h, i, left) == Sibling(i, left) + RfcPath(h, i / 2, Pair(h, left))
    ensures RfcPath(h, i, leaves) == Sibling(i, leaves) + RfcPath(h, i / 2, Pair(h, leaves))
  {
    hide RfcPath, Mth, Pair, Split, Sibling;
    var k, up := Split(|leaves|), Pair(h, leaves);
    SplitHalves(|leaves|);
    PairSplit(h, leaves, k);
    MthOfPair(h, leaves[k..]);
    PathLeft(h, i, leaves);
    PathLeft(h, i / 2, up);
    SiblingInside(i, k, leaves);
    Joined(RfcPath(h, i, leaves), Sibling(i, leaves), RfcPath(h, i / 2, up[..k / 2]), [Mth(h, leaves[k..])]);
  }

  lemma Joined<T>(whole: seq<T>, own: seq<T>, low: seq<T>, top: seq<T>)
    requires whole == own + low + top
    ensures whole == own + (low + top)
  {
  }

  lemma SiblingInside<H>(i: nat, k: nat, leaves: seq<H>)
    requires i < k <= |leaves| && k % 2 == 0
    ensures Sibling(i, leaves[..k]) == Sibling(i, leaves)
  {
  }

  lemma PathLeft<H>(h: NodeHash<H>, i: nat, leaves: seq<H>)
    requires |leaves| > 1 && i < Split(|leaves|)
    ensures RfcPath(h, i, leaves) == RfcPath(h, i, leaves[..Split(|leaves|)]) + [Mth(h, leaves[Split(|leaves|)..])]
  {
  }

  lemma PathRight<H>(h: NodeHash<H>, i: nat, leaves: seq<H>)
    requires |leaves| > 1 && Split(|leaves|) <= i < |leaves|
    ensures RfcPath(h, i, leaves)
         == RfcPath(h, i - Split(|leaves|), leaves[Split(|leaves|)..]) + [Mth(h, leaves[..Split(|leaves|)])]
  {
  }

  lemma PathUpRight<H>(h: NodeHash<H>, i: nat, leaves: seq<H>)
    requires |leaves| > 2 && Split(|leaves|) <= i < |leaves|
    requires var k := Split(|leaves|);
             |leaves| > k + 1 ==>
               RfcPath(h, i - k, leaves[k..]) == Sibling(i - k, leaves[k..])
                   + RfcPath(h, (i - k) / 2, Pair(h, leaves[k..]))
    ensures RfcPath(h, i, leaves) == Sibling(i, leaves) + RfcPath(h, i / 2, Pair(h, leaves))
  {
    hide RfcPath, Mth, Pair, Split;
    var k, up := Split(|leaves|), Pair(h, leaves);
    SplitHalves(|leaves|);
    PairSplit(h, leaves, k);
    MthOfPair(h, leaves[..k]);
    PathRight(h, i, leaves);
    PathRight(h, i / 2, up);
    assert Sibling(i - k, leaves[k..]) == Sibling(i, leaves);
    if |leaves| == k + 1 {
      PathOfOne(h, leaves[k..]);
      PathOfOne(h, Pair(h, leaves[k..]));
    }
  }

  lemma PathOfOne<H>(h: NodeHash<H>, leaves: seq<H>)
    requires |leaves| == 1
    ensures RfcPath(h, 0, leaves) == []
  {
  }

  /** The hash a path leads to from a leaf. */
  function Fold<H>(h: NodeHash<H>, leaf: H, path: seq<H>, sides: seq<int>): H
    requires |path| == |sides|
    decreases |path|
  {
    if path == [] then leaf
    else Fold(h, if sides[0] == LEFT_SIBLING then h(path[0], leaf) else h(leaf, path[0]), path[1..], sides[1..])
  }

  /** One step up: the leaf and its sibling make the node above, a promoted node stays what it is. */
  lemma FoldUp<H>(h: NodeHash<H>, i: nat, level: seq<H>, path: seq<H>, sides: seq<int>)
    requires i < |level| && |level| > 1 && |path| == |sides|
    ensures var own := if i % 2 == 1 then [LEFT_SIBLING] else if i + 1 < |level| then [RIGHT_SIBLING] else [];
            |own| == |Sibling(i, level)|
            && Fold(h, level[i], Sibling(i, level) + path, own + sides) == Fold(h, Pair(h, level)[i / 2], path, sides)
  {
    PairAt(h, level, i / 2);
    var own := if i % 2 == 1 then [LEFT_SIBLING] else if i + 1 < |level| then [RIGHT_SIBLING] else [];
    if own == [] {
      assert Sibling(i, level) + path == path && own + sides == sides;
    } else {
      assert (Sibling(i, level) + path)[1..] == path && (own + sides)[1..] == sides;
    }
  }

  /** Completeness: the audit path of any leaf leads to the tree hash. */
  lemma {:induction false} PathLeadsToRoot<H>(h: NodeHash<H>, i: nat, leaves: seq<H>)
    requires i < |leaves|
    ensures |RfcPath(h, i, leaves)| == |Sides(i, |leaves|)|
    ensures Fold(h, leaves[i], RfcPath(h, i, leaves), Sides(i, |leaves|)) == Mth(h, leaves)
    decreases |leaves|
  {
    if |leaves| > 1 {
      var up := Pair(h, leaves);
      PathUp(h, i, leaves);
      PathLeadsToRoot(h, i / 2, up);
      FoldUp(h, i, leaves, RfcPath(h, i / 2, up), Sides(i / 2, |up|));
      MthOfPair(h, leaves);
    }
  }

  /** With an injective node hash, a root and the sides determine the leaf and the whole path. */
  lemma {:induction false} FoldInjective<H(!new)>(h: NodeHash<H>, a: H, b: H, p: seq<H>, q: seq<H>, sides: seq<int>)
    requires Injective(h) && |p| == |q| == |sides| && Fold(h, a, p, sides) == Fold(h, b, q, sides)
    ensures a == b && p == q
    decreases |p|
  {
    if p != [] {
      var a', b' := if sides[0] == LEFT_SIBLING then h(p[0], a) else h(a, p[0]),
                    if sides[0] == LEFT_SIBLING then h(q[0], b) else h(b, q[0]);
      FoldInjective(h, a', b', p[1..], q[1..], sides[1..]);
      assert p == [p[0]] + p[1..] && q == [q[0]] + q[1..];
    }
  }

  // ---- Verification ---------------------------------------------------------------------------

  predicate WellFormed<H>(c: Codec<H>, p: Proof) {
    && |p.auditPath| == |p.directions|
    && 0 <= p.leafIndex < p.treeSize
    && c.decode(p.leafHash).Some? && c.decode(p.rootHash).Some?
    && (forall k :: 0 <= k < |p.directions| ==> p.directions[k] == LEFT_SIBLING || p.directions[k] == RIGHT_SIBLING)
    && (forall k :: 0 <= k < |p.auditPath| ==> c.decode(p.auditPath[k]).Some?)
  }

  function Decoded<H>(c: Codec<H>, path: seq<string>): (r: seq<H>)
    requires forall k :: 0 <= k < |path| ==> c.decode(path[k]).Some?
    ensures |r| == |path| && forall k :: 0 <= k < |path| ==> r[k] == c.decode(path[k]).value
  {
    seq(|path|, k requires 0 <= k < |path| => c.decode(path[k]).value)
  }

  function Verdict<H(==)>(h: NodeHash<H>, c: Codec<H>, p: Proof): Outcome {
    if !WellFormed(c, p) then Invalid
    else Checked(Fold(h, c.decode(p.leafHash).value, Decoded(c, p.auditPath), p.directions)
        == c.decode(p.rootHash).value)
  }

  /** The verifier's loop: it decodes siblings as it goes and stops at the first bad one. */
  method VerifyProof<H(==)>(h: NodeHash<H>, c: Codec<H>, p: Proof) returns (r: Outcome)
    ensures r == Verdict(h, c, p)
  {
    if |p.auditPath| != |p.directions| { return Invalid; }
    if p.leafIndex < 0 || p.treeSize <= 0 || p.leafIndex >= p.treeSize { return Invalid; }
    var leaf := c.decode(p.leafHash);
    if leaf == None { return Invalid; }
    var root := c.decode(p.rootHash);
    if root == None { return Invalid; }
    for k := 0 to |p.directions|
      invariant forall j :: 0 <= j < k ==> p.directions[j] == LEFT_SIBLING || p.directions[j] == RIGHT_SIBLING
    {
      if p.directions[k] != LEFT_SIBLING && p.directions[k] != RIGHT_SIBLING { return Invalid; }
    }
    var current := leaf.value;
    for i := 0 to |p.auditPath|
      invariant forall j :: 0 <= j < i ==> c.decode(p.auditPath[j]).Some?
      invariant WellFormed(c, p) ==>
                  (Fold(h, current, Decoded(c, p.auditPath)[i..], p.directions[i..])
                   == Fold(h, leaf.value, Decoded(c, p.auditPath), p.directions))
    {
      var sibling := c.decode(p.auditPath[i]);
      if sibling == None { return Invalid; }
      if WellFormed(c, p) {
        assert Decoded(c, p.auditPath)[i..][1..] == Decoded(c, p.auditPath)[i + 1..];
        assert p.directions[i..][1..] == p.directions[i + 1..];
      }
      if p.directions[i] == LEFT_SIBLING {
        current := h(sibling.value, current);
      } else {
        current := h(current, sibling.value);
      }
    }
    r := Checked(current == root.value);
  }

  /** The proof that belongs to leaf i of a tree. */
  function ProofOf<H>(h: NodeHash<H>, c: Codec<H>, i: nat, leaves: seq<H>): Proof
    requires i < |leaves|
  {
    var path := RfcPath(h, i, leaves);
    Proof(i, c.encode(leaves[i]), |leaves|, c.encode(Mth(h, leaves)),
          seq(|path|, k requires 0 <= k < |path| => c.encode(path[k])), Sides(i, |leaves|))
  }

  lemma {:induction false} SidesAreSides(i: nat, n: nat, k: nat)
    requires k < |Sides(i, n)|
    ensures Sides(i, n)[k] == LEFT_SIBLING || Sides(i, n)[k] == RIGHT_SIBLING
    decreases n
  {
    var own := if i % 2 == 1 then [LEFT_SIBLING] else if i + 1 < n then [RIGHT_SIBLING] else [];
    if k >= |own| { SidesAreSides(i / 2, (n + 1) / 2, k - |own|); }
  }

  /** Every leaf's proof is accepted, promoted levels and all. */
  lemma ProofsAccepted<H(!new)>(h: NodeHash<H>, c: Codec<H>, i: nat, leaves: seq<H>)
    requires RoundTrips(c) && i < |leaves|
    ensures Verdict(h, c, ProofOf(h, c, i, leaves)) == Checked(true)
  {
    var p := ProofOf(h, c, i, leaves);
    PathLeadsToRoot(h, i, leaves);
    forall k | 0 <= k < |p.directions| ensures p.directions[k] == LEFT_SIBLING || p.directions[k] == RIGHT_SIBLING {
      SidesAreSides(i, |leaves|, k);
    }
    assert Decoded(c, p.auditPath) == RfcPath(h, i, leaves);
  }

  /** Two accepted proofs of one root with the same directions carry the same leaf and path. */
  lemma AcceptedProofsAgree<H(!new)>(h: NodeHash<H>, c: Codec<H>, p: Proof, q: Proof)
    requires Injective(h) && Verdict(h, c, p) == Checked(true) && Verdict(h, c, q) == Checked(true)
    requires c.decode(p.rootHash) == c.decode(q.rootHash) && p.directions == q.directions
    ensures c.decode(p.leafHash) == c.decode(q.leafHash) && Decoded(c, p.auditPath) == Decoded(c, q.auditPath)
  {
    FoldInjective(h, c.decode(p.leafHash).value, c.decode(q.leafHash).value,
                  Decoded(c, p.auditPath), Decoded(c, q.auditPath), p.directions);
  }

  /** An accepted proof with the directions of position i in a tree of that size proves leaf i. */
  lemma AcceptedProofIsInclusion<H(!new)>(h: NodeHash<H>, c: Codec<H>, p: Proof, i: nat, leaves: seq<H>)
    requires Injective(h) && i < |leaves| && Verdict(h, c, p) == Checked(true)
    requires c.decode(p.rootHash) == Some(Mth(h, leaves)) && p.directions == Sides(i, |leaves|)
    ensures c.decode(p.leafHash) == Some(leaves[i]) && Decoded(c, p.auditPath) == RfcPath(h, i, leaves)
  {
    PathLeadsToRoot(h, i, leaves);
    FoldInjective(h, c.decode(p.leafHash).value, leaves[i], Decoded(c, p.auditPath), RfcPath(h, i, leaves),
        p.directions);
  }

  /** The index and size a proof names are only range-checked: any other position in range is accepted too. */
  lemma NamedPositionUnchecked<H>(h: NodeHash<H>, c: Codec<H>, p: Proof, i: int, n: int)
    requires Verdict(h, c, p) == Checked(true)
    ensures Verdict(h, c, p.(leafIndex := i, treeSize := n)) == Checked(true) <==> 0 <= i < n
  {
  }

  /**
   With the directions of position i, a proof against the hash of a list of leaves is accepted exactly when
   it names a position in range and carries leaf i and its audit path.
   */
  lemma AcceptedIff<H(!new)>(h: NodeHash<H>, c: Codec<H>, p: Proof, i: nat, leaves: seq<H>)
    requires Injective(h) && i < |leaves| && c.decode(p.rootHash) == Some(Mth(h, leaves))
    requires p.directions == Sides(i, |leaves|) && |p.auditPath| == |p.directions|
    ensures Verdict(h, c, p) == Checked(true) <==>
            && 0 <= p.leafIndex < p.treeSize && c.decode(p.leafHash) == Some(leaves[i])
            && |p.auditPath| == |RfcPath(h, i, leaves)|
            && forall k :: 0 <= k < |p.auditPath| ==> c.decode(p.auditPath[k]) == Some(RfcPath(h, i, leaves)[k])
  {
    hide Mth, RfcPath, Sides, Fold, Injective;
    PathLeadsToRoot(h, i, leaves);
    if Verdict(h, c, p) == Checked(true) {
      AcceptedProofIsInclusion(h, c, p, i, leaves);
      assert forall k :: 0 <= k < |p.auditPath| ==> c.decode(p.auditPath[k]) == Some(Decoded(c, p.auditPath)[k]);
    }
    if && 0 <= p.leafIndex < p.treeSize && c.decode(p.leafHash) == Some(leaves[i])
       && |p.auditPath| == |RfcPath(h, i, leaves)|
       && forall k :: 0 <= k < |p.auditPath| ==> c.decode(p.auditPath[k]) == Some(RfcPath(h, i, leaves)[k]) {
      forall k | 0 <= k < |p.directions| ensures p.directions[k] == LEFT_SIBLING || p.directions[k] == RIGHT_SIBLING {
        SidesAreSides(i, |leaves|, k);
      }
      assert Decoded(c, p.auditPath) == RfcPath(h, i, leaves);
    }
  }

  /**
   A proof is malformed exactly when path and directions differ in length, the position is not one of the
   tree, a direction is neither side, or some hash does not decode.
   */
  lemma MalformedIff<H(!new)>(h: NodeHash<H>, c: Codec<H>, p: Proof)
    ensures Verdict(h, c, p) == Invalid <==>
            || |p.auditPath| != |p.directions| || p.leafIndex < 0 || p.leafIndex >= p.treeSize
            || c.decode(p.leafHash) == None || c.decode(p.rootHash) == None
            || (exists k :: 0 <= k < |p.directions| && p.directions[k] !in {LEFT_SIBLING, RIGHT_SIBLING})
            || (exists k :: 0 <= k < |p.auditPath| && c.decode(p.auditPath[k]) == None)
  {
  }
}
