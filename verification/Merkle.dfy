/**
 The Merkle tree of a block: a flat vector of levels, branches read out of it, and what the root
 commits to (src/main.h CBlock, src/main.cpp CheckBlock).
 */
module Merkle {

  type uint256 = nat

  type Hash2 = (uint256, uint256) -> uint256

  ghost predicate Injective(H: Hash2) {
    forall a, b, c, d :: H(a, b) == H(c, d) ==> a == c && b == d
  }

  function Min(a: int, b: int): int { if a < b then a else b }

  /** The level above: pairs are hashed, a last odd node with itself. */
  function Up(H: Hash2, s: seq<uint256>): (u: seq<uint256>)
    ensures |u| == (|s| + 1) / 2
  {
    seq((|s| + 1) / 2, i requires 0 <= i < (|s| + 1) / 2 => H(s[2 * i], s[Min(2 * i + 1, |s| - 1)]))
  }

  lemma UpAt(H: Hash2, s: seq<uint256>, i: nat)
    requires 2 * i < |s|
    ensures Up(H, s)[i] == H(s[2 * i], s[Min(2 * i + 1, |s| - 1)])
  {
  }

  lemma Inject(H: Hash2, a: uint256, b: uint256, c: uint256, d: uint256)
    requires Injective(H)
    ensures H(a, b) == H(c, d) <==> a == c && b == d
  {
  }

  /** The root a list of leaves stands for; 0 for none. */
  function Root(H: Hash2, s: seq<uint256>): uint256
    decreases |s|
  {
    if |s| == 0 then 0 else if |s| == 1 then s[0] else Root(H, Up(H, s))
  }

  /** All levels, leaves first. */
  function Flat(H: Hash2, s: seq<uint256>): (f: seq<uint256>)
    ensures |s| > 0 ==> |f| > 0 && f[|f| - 1] == Root(H, s)
    decreases |s|
  {
    if |s| <= 1 then s else s + Flat(H, Up(H, s))
  }

  /** One level further up. */
  lemma Step(H: Hash2, s: seq<uint256>)
    ensures |Up(H, s)| == (|s| + 1) / 2
    ensures |s| > 1 ==> |Up(H, s)| < |s| && Up(H, s) != []
    ensures |s| > 1 ==> Root(H, s) == Root(H, Up(H, s)) && Flat(H, s) == s + Flat(H, Up(H, s))
    ensures |s| > 1 ==> Height(|s|) == 1 + Height(|Up(H, s)|) && Pow2(Height(|s|)) == 2 * Pow2(Height(|Up(H, s)|))
    ensures |s| <= 1 ==> Flat(H, s) == s && Height(|s|) == 0 && Pow2(Height(|s|)) == 1
    ensures |s| == 1 ==> Root(H, s) == s[0]
    ensures s == [] ==> Root(H, s) == 0
  {
  }

  lemma BranchStep(H: Hash2, s: seq<uint256>, i: nat)
    requires |s| > 1
    ensures Branch(H, s, i) == [s[Min(Xor1(i), |s| - 1)]] + Branch(H, Up(H, s), i / 2)
  {
  }

  lemma ClimbStep(H: Hash2, hash: uint256, branch: seq<uint256>, i: nat)
    ensures branch == [] ==> Climb(H, hash, branch, i) == hash
    ensures branch != [] ==> (
      var node := if i % 2 == 1 then H(branch[0], hash) else H(hash, branch[0]);
      Climb(H, hash, branch, i) == Climb(H, node, branch[1..], i / 2))
  {
  }

  lemma FlatStarts(H: Hash2, s: seq<uint256>, i: nat)
    requires i < |s|
    ensures |Flat(H, s)| >= |s| && Flat(H, s)[i] == s[i]
    ensures |s| > 1 ==> Flat(H, s)[|s|..] == Flat(H, Up(H, s))
  {
  }

  /** The siblings on the way up from leaf `i`. */
  function Branch(H: Hash2, s: seq<uint256>, i: nat): (b: seq<uint256>)
    ensures |b| == Height(|s|)
    decreases |s|
  {
    if |s| <= 1 then [] else [s[Min(Xor1(i), |s| - 1)]] + Branch(H, Up(H, s), i / 2)
  }

  function Xor1(i: nat): nat { if i % 2 == 0 then i + 1 else i - 1 }

  function Height(n: nat): nat { if n <= 1 then 0 else 1 + Height((n + 1) / 2) }

  function Pow2(k: nat): (p: nat)
    ensures p >= 1
  {
    if k == 0 then 1 else 2 * Pow2(k - 1)
  }

  /** Hashing a leaf up along its siblings. */
  function Climb(H: Hash2, hash: uint256, branch: seq<uint256>, i: nat): uint256
    decreases |branch|
  {
    if branch == [] then hash
    else Climb(H, if i % 2 == 1 then H(branch[0], hash) else H(hash, branch[0]), branch[1..], i / 2)
  }

  class CBlock {
    const H: Hash2
    const vtx: seq<uint256>
    var vMerkleTree: seq<uint256>

    constructor (H: Hash2, vtx: seq<uint256>)
      ensures this.H == H && this.vtx == vtx && vMerkleTree == []
    {
      this.H, this.vtx, vMerkleTree := H, vtx, [];
    }

    predicate Cached()
      reads this
    {
      vMerkleTree == [] || vMerkleTree == Flat(H, vtx)
    }

    /** Append the level above the one that starts at `j`. */
    method AddLevel(j: nat, nSize: nat, ghost level: seq<uint256>)
      requires nSize == |level| && |vMerkleTree| == j + nSize && vMerkleTree[j..] == level
      modifies this
      ensures vMerkleTree == old(vMerkleTree) + Up(H, level)
    {
      hide Up;
      ghost var u := Up(H, level);
      var i := 0;
      while i < nSize
        invariant i % 2 == 0 && 0 <= i <= nSize + 1
        invariant vMerkleTree == old(vMerkleTree) + u[..(i + 1) / 2]
      {
        var i2 := Min(i + 1, nSize - 1);
        assert vMerkleTree[j + i] == level[i] && vMerkleTree[j + i2] == level[i2];
        UpAt(H, level, i / 2);
        assert u[..i / 2] + [u[i / 2]] == u[..i / 2 + 1];
        vMerkleTree := vMerkleTree + [H(vMerkleTree[j + i], vMerkleTree[j + i2])];
        i := i + 2;
      }
      assert u[..|u|] == u;
    }

    method BuildMerkleTree() returns (root: uint256)
      modifies this
      ensures vMerkleTree == Flat(H, vtx) && root == Root(H, vtx)
    {
      hide Up, Root, Flat, Height;
      vMerkleTree := vtx;
      var j := 0;
      var nSize := |vtx|;
      ghost var done, level := [], vtx;
      Step(H, level);
      while nSize > 1
        invariant nSize == |level| && |done| == j && vMerkleTree == done + level
        invariant vtx != [] ==> level != []
        invariant Flat(H, vtx) == done + Flat(H, level) && Root(H, vtx) == Root(H, level)
        decreases nSize
      {
        Step(H, level);
        assert vMerkleTree[j..] == level;
        AddLevel(j, nSize, level);
        Regroup(done, level, Flat(H, Up(H, level)));
        j := j + nSize;
        done, level := done + level, Up(H, level);
        nSize := (nSize + 1) / 2;
      }
      Step(H, level);
      root := if vMerkleTree == [] then 0 else vMerkleTree[|vMerkleTree| - 1];
    }

    method GetMerkleBranch(nIndex: nat) returns (vMerkleBranch: seq<uint256>)
      requires Cached()
      modifies this
      ensures Cached() && vMerkleBranch == Branch(H, vtx, nIndex)
    {
      hide Up, Root, Flat, Height, Branch, Xor1;
      if vMerkleTree == [] {
        var _ := BuildMerkleTree();
      }
      vMerkleBranch := [];
      var nAt := nIndex;
      var j := 0;
      var nSize := |vtx|;
      ghost var done, level := [], vtx;
      while nSize > 1
        invariant nSize == |level| && |done| == j && vMerkleTree == done + Flat(H, level)
        invariant vMerkleTree == Flat(H, vtx)
        invariant Branch(H, vtx, nIndex) == vMerkleBranch + Branch(H, level, nAt)
        decreases nSize
      {
        OneLevel(H, level, nAt, done, vMerkleBranch);
        var i := Min(Xor1(nAt), nSize - 1);
        vMerkleBranch := vMerkleBranch + [vMerkleTree[j + i]];
        nAt := nAt / 2;
        j := j + nSize;
        done, level := done + level, Up(H, level);
        nSize := (nSize + 1) / 2;
      }
      BranchEnds(H, level, nAt);
    }
  }

  /** Where the sibling stands in the flat tree, and what remains one level up. */
  lemma OneLevel(H: Hash2, level: seq<uint256>, nAt: nat, done: seq<uint256>, branch: seq<uint256>)
    requires |level| > 1
    ensures var u, i := Up(H, level), Min(Xor1(nAt), |level| - 1);
      && |u| == (|level| + 1) / 2 < |level| && |done| + i < |done + Flat(H, level)|
      && done + Flat(H, level) == done + level + Flat(H, u)
      && branch + Branch(H, level, nAt) == branch + [(done + Flat(H, level))[|done| + i]] + Branch(H, u, nAt / 2)
  {
    hide Up, Root, Flat, Height, Branch, Xor1;
    Step(H, level);
    BranchStep(H, level, nAt);
    var i := Min(Xor1(nAt), |level| - 1);
    FlatStarts(H, level, i);
    Regroup(branch, [level[i]], Branch(H, Up(H, level), nAt / 2));
    Regroup(done, level, Flat(H, Up(H, level)));
  }

  lemma Regroup(a: seq<uint256>, b: seq<uint256>, c: seq<uint256>)
    ensures a + (b + c) == a + b + c
  {
  }

  lemma BranchEnds(H: Hash2, s: seq<uint256>, i: nat)
    requires |s| <= 1
    ensures Branch(H, s, i) == []
  {
  }

  method CheckMerkleBranch(H: Hash2, leaf: uint256, vMerkleBranch: seq<uint256>, nIndex: int) returns (hash: uint256)
    requires nIndex >= -1
    ensures hash == if nIndex == -1 then 0 else Climb(H, leaf, vMerkleBranch, nIndex)
  {
    if nIndex == -1 { return 0; }
    hash := leaf;
    var nAt: nat := nIndex;
    assert vMerkleBranch[0..] == vMerkleBranch;
    for k := 0 to |vMerkleBranch|
      invariant Climb(H, leaf, vMerkleBranch, nIndex) == Climb(H, hash, vMerkleBranch[k..], nAt)
    {
      var otherside := vMerkleBranch[k];
      assert vMerkleBranch[k..][1..] == vMerkleBranch[k + 1..];
      if nAt % 2 == 1 {
        hash := H(otherside, hash);
      } else {
        hash := H(hash, otherside);
      }
      nAt := nAt / 2;
    }
  }

  /** Every leaf is led to the root by its branch. */
  lemma {:induction false} BranchLeadsToRoot(H: Hash2, s: seq<uint256>, i: nat)
    requires i < |s|
    ensures Climb(H, s[i], Branch(H, s, i), i) == Root(H, s)
    decreases |s|
  {
    hide Up, Root, Branch, Climb, Flat, Height;
    Step(H, s);
    if |s| == 1 {
      BranchEnds(H, s, i);
      ClimbStep(H, s[i], [], i);
    } else {
      var u := Up(H, s);
      BranchStep(H, s, i);
      ClimbStep(H, s[i], Branch(H, s, i), i);
      var b := Branch(H, s, i);
      assert b[0] == s[Min(Xor1(i), |s| - 1)] && b[1..] == Branch(H, u, i / 2);
      BranchLeadsToRoot(H, u, i / 2);
      NodeAbove(H, s, i);
    }
  }

  /** The node above a leaf, computed from the leaf and its sibling. */
  lemma NodeAbove(H: Hash2, s: seq<uint256>, i: nat)
    requires i < |s|
    ensures 2 * (i / 2) < |s|
    ensures var other := s[Min(Xor1(i), |s| - 1)]; Up(H, s)[i / 2] == if i % 2 == 1 then H(other, s[i]) else H(s[i], other)
  {
    hide Up;
    var k := i / 2;
    UpAt(H, s, k);
    if i % 2 == 1 {
      assert i == 2 * k + 1;
    } else {
      assert i == 2 * k;
    }
  }

  // ----- what a root commits to -----------------------------------------------------------------------

  /** Which leaf stands at place `i` of the full tree over `n` leaves. */
  function Place(n: nat, i: nat): (p: nat)
    requires n > 0
    ensures p < n
    decreases n
  {
    if n == 1 then 0 else Min(2 * Place((n + 1) / 2, i / 2) + i % 2, n - 1)
  }

  /** The leaves of the full tree: the last ones repeat. */
  function Padded(s: seq<uint256>): (p: seq<uint256>)
    requires s != []
    ensures |p| == Pow2(Height(|s|))
  {
    seq(Pow2(Height(|s|)), i requires 0 <= i => s[Place(|s|, i)])
  }

  lemma {:induction false} PlaceOfLeaf(n: nat, i: nat)
    requires i < n
    ensures Place(n, i) == i
    decreases n
  {
    if n > 1 { PlaceOfLeaf((n + 1) / 2, i / 2); }
  }

  lemma {:induction false} LeavesFit(n: nat)
    requires n > 0
    ensures n <= Pow2(Height(n))
  {
    if n > 1 { LeavesFit((n + 1) / 2); }
  }

  /** A node of the full tree hashes its two children. */
  lemma PaddedUp(H: Hash2, s: seq<uint256>, j: nat)
    requires |s| > 1 && j < Pow2(Height(|Up(H, s)|))
    ensures 2 * j + 1 < |Padded(s)| && Up(H, s) != []
    ensures Padded(Up(H, s))[j] == H(Padded(s)[2 * j], Padded(s)[2 * j + 1])
  {
    hide Up;
    var n := |s|;
    var p := Place((n + 1) / 2, j);
    UpAt(H, s, p);
    assert (2 * j) / 2 == j && (2 * j + 1) / 2 == j && (2 * j) % 2 == 0 && (2 * j + 1) % 2 == 1;
    assert Place(n, 2 * j) == 2 * p && Place(n, 2 * j + 1) == Min(2 * p + 1, n - 1);
  }

  lemma HeightOne(n: nat)
    requires n > 0
    ensures Height(n) == 0 <==> n == 1
  {
  }

  /** Of lists with trees of one height, those and only those with the same full tree share a root. */
  lemma {:induction false} SameRootIff(H: Hash2, a: seq<uint256>, b: seq<uint256>)
    requires Injective(H) && a != [] && b != [] && Height(|a|) == Height(|b|)
    ensures Root(H, a) == Root(H, b) <==> Padded(a) == Padded(b)
    decreases |a|
  {
    HeightOne(|a|);
    HeightOne(|b|);
    if |a| == 1 {
      assert Padded(a) == a && Padded(b) == b;
    } else {
      hide Up, Injective, Padded, Place, Root, Height, Pow2, Flat;
      Step(H, a);
      Step(H, b);
      var ua, ub := Up(H, a), Up(H, b);
      SameRootIff(H, ua, ub);
      forall j: nat | j < |Padded(ua)|
        ensures 2 * j + 1 < |Padded(a)| == |Padded(b)|
        ensures Padded(ua)[j] == Padded(ub)[j] <==>
          Padded(a)[2 * j] == Padded(b)[2 * j] && Padded(a)[2 * j + 1] == Padded(b)[2 * j + 1]
      {
        PaddedUp(H, a, j);
        PaddedUp(H, b, j);
        Inject(H, Padded(a)[2 * j], Padded(a)[2 * j + 1], Padded(b)[2 * j], Padded(b)[2 * j + 1]);
      }
      ByPairs(Padded(a), Padded(b), Padded(ua), Padded(ub));
    }
  }

  /** The level `k` steps above the leaves. */
  function UpBy(H: Hash2, s: seq<uint256>, k: nat): seq<uint256>
    decreases k
  {
    if k == 0 then s else UpBy(H, Up(H, s), k - 1)
  }

  /** Lists with trees of different heights share a root exactly when the shorter list's full tree is
      that of the other's level of the same height: the root does not say how high its tree is. */
  lemma {:induction false} RootAcrossHeights(H: Hash2, a: seq<uint256>, b: seq<uint256>)
    requires Injective(H) && a != [] && b != [] && Height(|a|) <= Height(|b|)
    ensures var level := UpBy(H, b, Height(|b|) - Height(|a|));
      level != [] && (Root(H, a) == Root(H, b) <==> Padded(a) == Padded(level))
    decreases |b|
  {
    hide Up, Root, Padded, Injective;
    if Height(|a|) == Height(|b|) {
      SameRootIff(H, a, b);
    } else {
      Step(H, b);
      RootAcrossHeights(H, a, Up(H, b));
    }
  }

  /** The smallest case: a pair, and the list of the one hash above it. */
  lemma HeightUnknown(H: Hash2, x: uint256, y: uint256)
    ensures Root(H, [x, y]) == Root(H, [H(x, y)]) && Height(2) == 1 && Height(1) == 0
  {
    Step(H, [x, y]);
    Step(H, [H(x, y)]);
    assert Up(H, [x, y]) == [H(x, y)] by { UpAt(H, [x, y], 0); }
  }

  lemma ByPairs(a: seq<uint256>, b: seq<uint256>, ua: seq<uint256>, ub: seq<uint256>)
    requires |a| == |b| == 2 * |ua| && |ub| == |ua|
    requires forall j {:trigger ua[j]} :: 0 <= j < |ua| ==> (ua[j] == ub[j] <==> a[2 * j] == b[2 * j] && a[2 * j + 1] == b[2 * j + 1])
    ensures ua == ub <==> a == b
  {
    if ua == ub {
      forall i | 0 <= i < |a| ensures a[i] == b[i] {
        assert ua[i / 2] == ub[i / 2];
        assert i == 2 * (i / 2) || i == 2 * (i / 2) + 1;
      }
    }
  }

  predicate NoDuplicates(s: seq<uint256>) { forall i, j :: 0 <= i < j < |s| ==> s[i] != s[j] }

  lemma PaddedStarts(s: seq<uint256>)
    requires s != []
    ensures |s| <= |Padded(s)| == Pow2(Height(|s|)) && forall i :: 0 <= i < |s| ==> Padded(s)[i] == s[i]
  {
    LeavesFit(|s|);
    forall i | 0 <= i < |s| ensures Padded(s)[i] == s[i] { PlaceOfLeaf(|s|, i); }
  }

  /** What the duplicate check of CheckBlock secures: without duplicates the root determines the list. */
  lemma RootDeterminesList(H: Hash2, a: seq<uint256>, b: seq<uint256>)
    requires Injective(H) && a != [] && b != [] && Height(|a|) == Height(|b|)
    requires NoDuplicates(a) && NoDuplicates(b) && Root(H, a) == Root(H, b)
    ensures a == b
  {
    SameRootIff(H, a, b);
    SamePadded(a, b);
    SamePadded(b, a);
  }

  lemma SamePadded(a: seq<uint256>, b: seq<uint256>)
    requires a != [] && b != [] && NoDuplicates(b) && Padded(a) == Padded(b)
    ensures |a| >= |b| && forall i :: 0 <= i < |b| && i < |a| ==> a[i] == b[i]
  {
    PaddedStarts(a);
    PaddedStarts(b);
    if |a| < |b| {
      RepeatsLater(a, |a|);
    }
  }

  /** Beyond the list the full tree repeats leaves. */
  lemma RepeatsLater(a: seq<uint256>, i: nat)
    requires a != [] && |a| <= i < |Padded(a)|
    ensures exists p :: 0 <= p < |a| && Padded(a)[p] == Padded(a)[i]
  {
    PaddedStarts(a);
    var p := Place(|a|, i);
    assert Padded(a)[p] == a[p] == Padded(a)[i];
  }

  /** Why it is needed: an odd list of at least three and the list with its last entry repeated share
      their root, whatever the hash. */
  lemma RepeatedLastSameRoot(H: Hash2, s: seq<uint256>)
    requires |s| % 2 == 1 && |s| >= 3
    ensures Root(H, s + [s[|s| - 1]]) == Root(H, s) && Height(|s| + 1) == Height(|s|)
    ensures !NoDuplicates(s + [s[|s| - 1]])
  {
    var t := s + [s[|s| - 1]];
    assert Up(H, t) == Up(H, s);
    assert t[|s| - 1] == t[|s|];
  }

  /** A branch of full length that leads some hash to the root proves the hash is a leaf, at the
      place the index says. */
  lemma {:induction false} BranchProvesLeaf(H: Hash2, s: seq<uint256>, leaf: uint256, branch: seq<uint256>, i: nat)
    requires Injective(H) && s != [] && |branch| == Height(|s|) && i < Pow2(Height(|s|))
    requires Climb(H, leaf, branch, i) == Root(H, s)
    ensures leaf == Padded(s)[i] && leaf in s
    ensures i < |s| ==> leaf == s[i]
    decreases |s|
  {
    hide Up, Injective, Padded, Place, Root, Height, Pow2, Flat, Climb;
    Step(H, s);
    ClimbStep(H, leaf, branch, i);
    PaddedStarts(s);
    PaddedIn(s, i);
    if |s| > 1 {
      var u, k := Up(H, s), i / 2;
      PaddedUp(H, s, k);
      if i % 2 == 1 {
        BranchProvesLeaf(H, u, H(branch[0], leaf), branch[1..], k);
        Inject(H, branch[0], leaf, Padded(s)[2 * k], Padded(s)[2 * k + 1]);
        assert i == 2 * k + 1;
      } else {
        BranchProvesLeaf(H, u, H(leaf, branch[0]), branch[1..], k);
        Inject(H, leaf, branch[0], Padded(s)[2 * k], Padded(s)[2 * k + 1]);
        assert i == 2 * k;
      }
    }
  }

  lemma PaddedIn(s: seq<uint256>, i: nat)
    requires s != [] && i < |Padded(s)|
    ensures Padded(s)[i] in s
  {
  }
}
