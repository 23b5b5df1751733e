/** The tree object of internal/zero/merkle/tree.go, rebuilt level by level after every change. */
module MerkleTree {
  import opened Options
  import opened MerkleHash
  import opened MerkleInclusion
  import opened MerkleGenerator
  import MerkleConsistency

  /** D is what callers add, H a node hash. */
  class Tree<!D, !H> {
    const h: NodeHash<H>
    const hashLeaf: D -> H
    const codec: Codec<H>
    var leaves: seq<H>
    var levels: seq<seq<H>>
    var root: Option<H>

    /** The levels and the root are those of the leaves. */
    ghost predicate Valid()
      reads this
    {
      if leaves == [] then levels == [] && root == None
      else levels == Levels(h, leaves) && root == Some(Mth(h, leaves))
    }

    constructor (h: NodeHash<H>, hashLeaf: D -> H, codec: Codec<H>)
      ensures Valid() && leaves == [] && this.h == h && this.hashLeaf == hashLeaf && this.codec == codec
    {
      this.h, this.hashLeaf, this.codec := h, hashLeaf, codec;
      leaves, levels, root := [], [], None;
    }

    constructor FromHashes(h: NodeHash<H>, hashLeaf: D -> H, codec: Codec<H>, hashes: seq<H>)
      ensures Valid() && leaves == hashes && this.h == h && this.hashLeaf == hashLeaf && this.codec == codec
    {
      this.h, this.hashLeaf, this.codec := h, hashLeaf, codec;
      leaves, levels, root := hashes, [], None;
      new;
      Rebuild();
    }

    method Add(data: D) returns (index: nat)
      requires Valid()
      modifies this
      ensures Valid() && leaves == old(leaves) + [hashLeaf(data)] && index == |old(leaves)|
    {
      leaves := leaves + [hashLeaf(data)];
      Rebuild();
      index := |leaves| - 1;
    }

    method AddHash(hash: H) returns (index: nat)
      requires Valid()
      modifies this
      ensures Valid() && leaves == old(leaves) + [hash] && index == |old(leaves)|
    {
      leaves := leaves + [hash];
      Rebuild();
      index := |leaves| - 1;
    }

    method Rebuild()
      modifies this`levels, this`root
      ensures Valid()
    {
      if |leaves| == 0 {
        levels, root := [], None;
        return;
      }
      hide Levels, Mth, Pair;
      levels := [leaves];
      var current := leaves;
      ghost var below: seq<seq<H>> := [];
      while |current| > 1
        invariant current != [] && levels == below + [current]
        invariant below + Levels(h, current) == Levels(h, leaves)
        decreases |current|
      {
        var next := NextLevel(h, current);
        LevelsUp(h, current);
        Regroup(below, [current], Levels(h, next));
        below := levels;
        levels := levels + [next];
        current := next;
      }
      root := Some(current[0]);
      LevelsUp(h, current);
      TopIsMth(h, leaves);
    }

    /** Walks up the levels collecting siblings; the result is the audit path of the RFC. */
    method GetProof(index: int) returns (r: Option<Proof>)
      requires Valid()
      ensures r == if 0 <= index < |leaves| then Some(ProofOf(h, codec, index, leaves)) else None
    {
      if |leaves| == 0 || index < 0 || index >= |leaves| { return None; }
      var path, sides := CollectPath(h, levels, leaves, index);
      r := Some(Proof(index, codec.encode(leaves[index]), |leaves|, codec.encode(root.value),
                      seq(|path|, k requires 0 <= k < |path| => codec.encode(path[k])), sides));
    }

    method GetConsistencyProof(oldSize: int) returns (r: Option<MerkleConsistency.ConsistencyProof>)
      requires Valid()
      ensures r == if 1 <= oldSize <= |leaves| then Some(GeneratedProof(h, codec, oldSize, leaves)) else None
    {
      if oldSize <= 0 || oldSize > |leaves| { return None; }
      var oldTree := new Tree.FromHashes(h, hashLeaf, codec, leaves[..oldSize]);
      var path := ConsistencyPath(oldSize, |leaves|);
      r := Some(MerkleConsistency.ConsistencyProof(
                  oldSize, |leaves|, codec.encode(oldTree.root.value), codec.encode(root.value),
                  seq(|path|, k requires 0 <= k < |path| => codec.encode(path[k]))));
    }

    /** The old root, and then what the boundary between the old and the new leaves gives on each level. */
    method ConsistencyPath(m: nat, n: nat) returns (path: seq<H>)
      requires Valid() && 1 <= m <= n == |leaves|
      ensures path == GeneratedPath(h, m, leaves)
    {
      if m == n || |levels| == 0 { return []; }
      hide Mth, Levels, GeneratedTail;
      var oldTree := new Tree.FromHashes(h, hashLeaf, codec, levels[0][..m]);
      path := [oldTree.root.value];
      var subM: nat, subN: nat, level: nat := m, n, 0;
      while subM < subN && level < |levels| - 1
        invariant level < |levels|
        invariant path + GeneratedTail(subM, subN, levels[level..]) == GeneratedPath(h, m, leaves)
        decreases |levels| - level
      {
        var nodes := levels[level];
        TailUp(subM, subN, levels[level..]);
        assert levels[level..][1..] == levels[level + 1..];
        Regroup(path, Boundary(subM, nodes), GeneratedTail((subM + 1) / 2, (subN + 1) / 2, levels[level + 1..]));
        if subM < |nodes| && subM % 2 == 0 && subM + 1 <= |nodes| {
          if subM + 1 < |nodes| {
            path := path + [nodes[subM + 1]];
          } else if subM < |nodes| {
            path := path + [nodes[subM]];
          }
        } else {
          assert path == path + Boundary(subM, nodes);
        }
        subM, subN, level := (subM + 1) / 2, (subN + 1) / 2, level + 1;
      }
      TailEnds(subM, subN, levels[level..]);
    }
  }

  method NextLevel<H>(h: NodeHash<H>, current: seq<H>) returns (next: seq<H>)
    ensures next == Pair(h, current)
  {
    next := [];
    var i := 0;
    while i < |current|
      invariant i % 2 == 0 && i / 2 <= (|current| + 1) / 2
      invariant next == Pair(h, current)[..i / 2]
    {
      PairAt(h, current, i / 2);
      if i + 1 < |current| {
        next := next + [h(current[i], current[i + 1])];
      } else {
        next := next + [current[i]];
      }
      i := i + 2;
    }
  }

  method CollectPath<H>(h: NodeHash<H>, levels: seq<seq<H>>, ghost leaves: seq<H>, index: nat)
    returns (path: seq<H>, sides: seq<int>)
    requires index < |leaves| && levels == Levels(h, leaves)
    ensures path == RfcPath(h, index, leaves) && sides == Sides(index, |leaves|)
  {
    hide RfcPath, Sides, Pair, Levels, Mth;
    path, sides := [], [];
    var idx: nat := index;
    ghost var here := leaves;
    for level := 0 to |levels| - 1
      invariant here != [] && idx < |here| && levels[level..] == Levels(h, here)
      invariant path + RfcPath(h, idx, here) == RfcPath(h, index, leaves)
      invariant sides + Sides(idx, |here|) == Sides(index, |leaves|)
    {
      var nodes := levels[level];
      LevelsUp(h, here);
      assert levels[level..][0] == nodes && levels[level..][1..] == levels[level + 1..];
      ghost var up := Pair(h, here);
      PathUp(h, idx, here);
      SidesUp(idx, |here|);
      Regroup(path, Sibling(idx, here), RfcPath(h, idx / 2, up));
      Regroup(sides, OwnSide(idx, |here|), Sides(idx / 2, |up|));
      var sibling := if idx % 2 == 0 then idx + 1 else idx - 1;
      if sibling < |nodes| {
        path := path + [nodes[sibling]];
        sides := sides + [if idx % 2 == 0 then RIGHT_SIBLING else LEFT_SIBLING];
      } else {
        assert path == path + Sibling(idx, here) && sides == sides + OwnSide(idx, |here|);
      }
      here := up;
      idx := idx / 2;
    }
    LevelsUp(h, here);
    PathOfOne(h, here);
    SidesOfOne(idx);
  }

  lemma LevelsUp<H>(h: NodeHash<H>, level: seq<H>)
    requires level != []
    ensures var levels := Levels(h, level);
            levels[0] == level && (|levels| == 1 <==> |level| == 1)
                && (|level| > 1 ==> levels[1..] == Levels(h, Pair(h, level)))
  {
  }

  ghost function OwnSide(i: nat, n: nat): seq<int> {
    if i % 2 == 1 then [LEFT_SIBLING] else if i + 1 < n then [RIGHT_SIBLING] else []
  }

  lemma SidesUp(i: nat, n: nat)
    requires n > 1
    ensures Sides(i, n) == OwnSide(i, n) + Sides(i / 2, (n + 1) / 2)
  {
  }

  lemma SidesOfOne(i: nat)
    ensures Sides(i, 1) == []
  {
  }

  lemma Regroup<T>(a: seq<T>, b: seq<T>, c: seq<T>)
    ensures a + (b + c) == a + b + c
  {
  }
}
