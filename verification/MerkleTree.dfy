/**
 The append-only tree: a stack of perfect subtrees ("peaks") gives the current root in O(log n), and a table keeps
 the root of every prefix.
 */
module MerkleTree {
  import opened Wrappers
  import opened Hashing
  import opened Merkle
  import opened MerkleVerify

  datatype Peak = Peak(height: nat, hash: Digest)

  function Pow2(n: nat): (p: nat)
    ensures p > 0
  {
    if n == 0 then 1 else 2 * Pow2(n - 1)
  }

  lemma {:induction false} Pow2IsPow2(n: nat)
    ensures IsPow2(Pow2(n))
  {
    if n > 0 {
      Pow2IsPow2(n - 1);
    }
  }

  /** The peaks are, left to right, the roots of perfect subtrees that make up the leaves. */
  predicate Covers(h: Sha, peaks: seq<Peak>, d: seq<Digest>) {
    if peaks == [] then d == []
    else
      var w := Pow2(peaks[0].height);
      w <= |d| && peaks[0].hash == RootOf(h, d[..w]) && Covers(h, peaks[1..], d[w..])
  }

  predicate Decreasing(peaks: seq<Peak>) {
    forall i, j :: 0 <= i < j < |peaks| ==> peaks[i].height > peaks[j].height
  }

  /** Peaks below height `top` cover fewer than `2^top` leaves. */
  lemma {:induction false} CoverSize(h: Sha, peaks: seq<Peak>, d: seq<Digest>, top: nat)
    requires Covers(h, peaks, d) && Decreasing(peaks)
    requires peaks != [] ==> peaks[0].height < top
    ensures |d| < Pow2(top)
    decreases top
  {
    if peaks != [] {
      if peaks[0].height == top - 1 {
        CoverSize(h, peaks[1..], d[Pow2(top - 1)..], top - 1);
      } else {
        CoverSize(h, peaks, d, top - 1);
      }
    }
  }

  /** Folding the peaks from the right. */
  function PeakRoot(h: Sha, peaks: seq<Peak>): Digest {
    if peaks == [] then EmptyRoot(h)
    else if |peaks| == 1 then peaks[0].hash
    else NodeHash(h, peaks[0].hash, PeakRoot(h, peaks[1..]))
  }

  /** The fold of the peaks is the recursive root. */
  lemma {:induction false} PeakRootIsRoot(h: Sha, peaks: seq<Peak>, d: seq<Digest>)
    requires Covers(h, peaks, d) && Decreasing(peaks)
    ensures PeakRoot(h, peaks) == RootOf(h, d)
  {
    if peaks != [] {
      var w := Pow2(peaks[0].height);
      if |peaks| == 1 {
        assert d[..w] == d;
      } else {
        PeakRootIsRoot(h, peaks[1..], d[w..]);
        CoverSize(h, peaks[1..], d[w..], peaks[0].height);
        Pow2IsPow2(peaks[0].height);
        SplitUnique(|d|, w);
      }
    }
  }

  /** A new leaf is a peak of height zero. */
  lemma {:induction false} CoverLeaf(h: Sha, peaks: seq<Peak>, d: seq<Digest>, leaf: Digest)
    requires Covers(h, peaks, d)
    ensures Covers(h, peaks + [Peak(0, leaf)], d + [leaf])
  {
    var more := peaks + [Peak(0, leaf)];
    if peaks == [] {
      assert more[1..] == [] && (d + [leaf])[1..] == [];
    } else {
      var w := Pow2(peaks[0].height);
      CoverLeaf(h, peaks[1..], d[w..], leaf);
      assert more[1..] == peaks[1..] + [Peak(0, leaf)];
      assert (d + [leaf])[..w] == d[..w] && (d + [leaf])[w..] == d[w..] + [leaf];
    }
  }

  /** Two peaks of one height at the end are one peak of the next height. */
  lemma {:induction false} CoverMerge(h: Sha, peaks: seq<Peak>, a: Peak, b: Peak, d: seq<Digest>)
    requires a.height == b.height && Covers(h, peaks + [a, b], d)
    ensures Covers(h, peaks + [Peak(a.height + 1, NodeHash(h, a.hash, b.hash))], d)
  {
    var two, one := peaks + [a, b], peaks + [Peak(a.height + 1, NodeHash(h, a.hash, b.hash))];
    if peaks == [] {
      assert two == [a, b];
      MergePair(h, a, b, d);
    } else {
      var w := Pow2(peaks[0].height);
      assert two[1..] == peaks[1..] + [a, b] && one[1..] == peaks[1..] + [one[|one| - 1]];
      CoverMerge(h, peaks[1..], a, b, d[w..]);
    }
  }

  /** Two perfect trees of one height are the halves of the perfect tree above. */
  lemma {:induction false} MergePair(h: Sha, a: Peak, b: Peak, d: seq<Digest>)
    requires a.height == b.height && Covers(h, [a, b], d)
    ensures Covers(h, [Peak(a.height + 1, NodeHash(h, a.hash, b.hash))], d)
  {
    var w := Pow2(a.height);
    assert [a, b][1..] == [b] && [b][1..] == [];
    assert Covers(h, [b], d[w..]) && Covers(h, [], d[w..][w..]);
    assert |d| == 2 * w && d[w..][..w] == d[w..];
    Pow2IsPow2(a.height);
    SplitUnique(2 * w, w);
    assert d[..2 * w] == d && d[2 * w..] == [];
  }

  /** One carry: the last peak and a pending one of the same height merge. */
  lemma MergeStep(h: Sha, peaks: seq<Peak>, hash: Digest, d: seq<Digest>)
    requires peaks != [] && Decreasing(peaks)
    requires Covers(h, peaks + [Peak(peaks[|peaks| - 1].height, hash)], d)
    ensures var init, last := peaks[..|peaks| - 1], peaks[|peaks| - 1];
            && Decreasing(init)
            && (init != [] ==> last.height + 1 <= init[|init| - 1].height)
            && Covers(h, init + [Peak(last.height + 1, NodeHash(h, last.hash, hash))], d)
  {
    var init, last := peaks[..|peaks| - 1], peaks[|peaks| - 1];
    assert peaks + [Peak(last.height, hash)] == init + [last, Peak(last.height, hash)];
    CoverMerge(h, init, last, Peak(last.height, hash), d);
  }

  // ----- The heights are the binary digits of the size -----

  function Sum(heights: seq<nat>): nat {
    if heights == [] then 0 else Pow2(heights[0]) + Sum(heights[1..])
  }

  function Heights(peaks: seq<Peak>): seq<nat> {
    seq(|peaks|, i requires 0 <= i < |peaks| => peaks[i].height)
  }

  /** Digit `k` of `n` in base two. */
  function Digit(n: nat, k: nat): nat {
    if k == 0 then n % 2 else Digit(n / 2, k - 1)
  }

  predicate Descending(heights: seq<nat>) {
    forall i, j :: 0 <= i < j < |heights| ==> heights[i] > heights[j]
  }

  lemma DigitShift(n: nat, half: nat, c: nat, k: nat)
    requires n == 2 * half + c && c < 2
    ensures Digit(n, k) == if k == 0 then c else Digit(half, k - 1)
  {
    assert n / 2 == half && n % 2 == c;
  }

  /** Shifting right: the heights above zero, one lower. */
  function Lower(heights: seq<nat>): (lower: seq<nat>)
    ensures |lower| <= |heights|
    ensures forall i :: 0 <= i < |lower| ==> lower[i] + 1 == heights[i]
  {
    if heights == [] || heights[0] == 0 then [] else [heights[0] - 1] + Lower(heights[1..])
  }

  /** Only the last height can be zero. */
  lemma {:induction false} LowerLength(heights: seq<nat>)
    requires Descending(heights)
    ensures |heights| - |Lower(heights)| == if 0 in heights then 1 else 0
  {
    if heights != [] {
      LowerLength(heights[1..]);
      assert heights == [heights[0]] + heights[1..];
    }
  }

  /** Halving the sum lowers the heights. */
  lemma {:induction false} SumLower(heights: seq<nat>)
    requires Descending(heights)
    ensures Sum(heights) == 2 * Sum(Lower(heights)) + |heights| - |Lower(heights)|
  {
    if heights != [] {
      if heights[0] == 0 {
        LowerLength(heights);
        assert heights[1..] == [];
      } else {
        SumLower(heights[1..]);
        assert Lower(heights)[1..] == Lower(heights[1..]);
      }
    }
  }

  lemma LowerMember(heights: seq<nat>, k: nat)
    requires Descending(heights)
    ensures k in Lower(heights) <==> k + 1 in heights
  {
    LowerLength(heights);
    if k + 1 in heights {
      var i :| 0 <= i < |heights| && heights[i] == k + 1;
      assert Lower(heights)[i] == k;
    }
  }

  /**
   The lowest digit of the sum says whether a height is zero; the others are the digits of the lowered heights' sum.
   */
  lemma DigitOfLower(heights: seq<nat>, k: nat)
    requires Descending(heights)
    ensures Descending(Lower(heights))
    ensures k == 0 ==> (Digit(Sum(heights), 0) == 1 <==> 0 in heights)
    ensures k > 0 ==> Digit(Sum(heights), k) == Digit(Sum(Lower(heights)), k - 1)
  {
    LowerLength(heights);
    SumLower(heights);
    DigitShift(Sum(heights), Sum(Lower(heights)), |heights| - |Lower(heights)|, k);
  }

  /** A strictly descending list of heights is the list of ones of its sum. */
  lemma {:induction false} DigitsOfSum(heights: seq<nat>, k: nat)
    requires Descending(heights)
    ensures Digit(Sum(heights), k) == 1 <==> k in heights
    decreases k
  {
    DigitOfLower(heights, k);
    if k > 0 {
      DigitsOfSum(Lower(heights), k - 1);
      LowerMember(heights, k - 1);
    }
  }

  lemma {:induction false} CoverSum(h: Sha, peaks: seq<Peak>, d: seq<Digest>)
    requires Covers(h, peaks, d)
    ensures Sum(Heights(peaks)) == |d|
  {
    if peaks != [] {
      CoverSum(h, peaks[1..], d[Pow2(peaks[0].height)..]);
      assert Heights(peaks)[1..] == Heights(peaks[1..]);
    }
  }

  /** The peaks of a tree of `n` leaves stand exactly at the ones of `n`. */
  lemma PeaksAreDigits(h: Sha, peaks: seq<Peak>, d: seq<Digest>, k: nat)
    requires Covers(h, peaks, d) && Decreasing(peaks)
    ensures Digit(|d|, k) == 1 <==> k in Heights(peaks)
  {
    CoverSum(h, peaks, d);
    DigitsOfSum(Heights(peaks), k);
  }

  // ----- The tree object -----

  /** A carry is added to the peaks: together they cover the leaves, and it is not above the last of them. */
  ghost predicate Carrying(h: Sha, peaks: seq<Peak>, carry: Peak, d: seq<Digest>) {
    && Covers(h, peaks + [carry], d) && Decreasing(peaks)
    && (peaks != [] ==> carry.height <= peaks[|peaks| - 1].height)
  }

  lemma CarryEnds(h: Sha, peaks: seq<Peak>, carry: Peak, d: seq<Digest>)
    requires Carrying(h, peaks, carry, d) && (peaks != [] ==> carry.height != peaks[|peaks| - 1].height)
    ensures Covers(h, peaks + [carry], d) && Decreasing(peaks + [carry])
  {
  }

  lemma CarryOn(h: Sha, peaks: seq<Peak>, hash: Digest, d: seq<Digest>)
    requires peaks != [] && Carrying(h, peaks, Peak(peaks[|peaks| - 1].height, hash), d)
    ensures var last := peaks[|peaks| - 1];
            Carrying(h, peaks[..|peaks| - 1], Peak(last.height + 1, NodeHash(h, last.hash, hash)), d)
  {
    MergeStep(h, peaks, hash, d);
  }

  class Tree {
    const h: Sha
    var leaves: seq<Digest>
    var roots: seq<Digest>
    var peaks: seq<Peak>

    ghost predicate Valid()
      reads this
    {
      && Covers(h, peaks, leaves)
      && Decreasing(peaks)
      && |roots| == |leaves|
      && forall n :: 0 < n <= |leaves| ==> roots[n - 1] == RootOf(h, leaves[..n])
    }

    constructor (h: Sha)
      ensures Valid() && leaves == [] && this.h == h
    {
      this.h := h;
      leaves, roots, peaks := [], [], [];
    }

    /** The current root, folded from the peaks. */
    method Root() returns (root: Digest)
      requires Valid()
      ensures root == RootOf(h, leaves) && IsHead(h, leaves, root)
    {
      root := FoldPeaks(h, peaks);
      PeakRootIsRoot(h, peaks, leaves);
      RootIsHead(h, leaves, root);
    }

    static method FoldPeaks(h: Sha, peaks: seq<Peak>) returns (acc: Digest)
      ensures acc == PeakRoot(h, peaks)
    {
      if peaks == [] {
        return EmptyRoot(h);
      }
      acc := peaks[|peaks| - 1].hash;
      assert peaks[|peaks| - 1..] == [peaks[|peaks| - 1]];
      for i := |peaks| - 1 downto 0
        invariant acc == PeakRoot(h, peaks[i..])
      {
        acc := NodeHash(h, peaks[i].hash, acc);
        assert peaks[i..][1..] == peaks[i + 1..];
      }
    }

    /** Merges a new leaf into the peaks, as a carry runs through a binary counter. */
    static method MergeLeaf(h: Sha, before: seq<Peak>, leaf: Digest, ghost d: seq<Digest>)
      returns (peaks: seq<Peak>)
      requires Covers(h, before, d) && Decreasing(before)
      ensures Covers(h, peaks, d + [leaf]) && Decreasing(peaks)
    {
      peaks := before;
      CoverLeaf(h, peaks, d, leaf);
      var height, hash := 0, leaf;
      while peaks != [] && peaks[|peaks| - 1].height == height
        invariant Carrying(h, peaks, Peak(height, hash), d + [leaf])
        decreases |peaks|
      {
        var last := peaks[|peaks| - 1];
        CarryOn(h, peaks, hash, d + [leaf]);
        peaks := peaks[..|peaks| - 1];
        hash := NodeHash(h, last.hash, hash);
        height := height + 1;
      }
      CarryEnds(h, peaks, Peak(height, hash), d + [leaf]);
      peaks := peaks + [Peak(height, hash)];
    }

    /** Appends an already-hashed leaf. */
    method Push(leaf: Digest)
      requires Valid()
      modifies this
      ensures Valid() && leaves == old(leaves) + [leaf]
      ensures roots == old(roots) + [RootOf(h, leaves)]
      ensures forall k: nat :: Digit(|leaves|, k) == 1 <==> k in Heights(peaks)
    {
      peaks := MergeLeaf(h, peaks, leaf, leaves);
      leaves := leaves + [leaf];
      var root := FoldPeaks(h, peaks);
      roots := roots + [root];
      PeakRootIsRoot(h, peaks, leaves);
      PrefixRoots(h, old(leaves), leaf, old(roots), roots);
      forall k: nat ensures Digit(|leaves|, k) == 1 <==> k in Heights(peaks) {
        PeaksAreDigits(h, peaks, leaves, k);
      }
    }

    /** The root of the first `size` leaves. */
    method RootAt(size: nat) returns (root: Option<Digest>)
      requires Valid()
      ensures root == if size <= |leaves| then Some(RootOf(h, leaves[..size])) else None
      ensures root.Some? ==> IsHead(h, leaves[..size], root.value)
    {
      if size == 0 {
        root := Some(EmptyRoot(h));
      } else if size <= |leaves| {
        root := Some(roots[size - 1]);
      } else {
        return None;
      }
      RootIsHead(h, leaves[..size], root.value);
    }

    /** Audit path of a leaf; every verifier that knows the root of the first `size` leaves accepts it. */
    method InclusionProof(index: nat, size: nat) returns (proof: Option<seq<Digest>>)
      requires Valid()
      ensures proof.Some? <==> index < size <= |leaves|
      ensures proof.Some? ==> Includes(h, leaves[index], index, size, proof.value, RootOf(h, leaves[..size]))
    {
      if size > |leaves| || index >= size {
        return None;
      }
      InclusionComplete(h, index, leaves[..size]);
      proof := Some(Path(h, index, leaves[..size]));
    }

    /** Consistency proof between two sizes; every verifier that knows the two roots accepts it. */
    method ConsistencyProofOf(first: nat, second: nat) returns (proof: Option<seq<Digest>>)
      requires Valid()
      ensures proof.Some? <==> first <= second <= |leaves|
      ensures proof.Some? ==> Consistent(h, first, second, RootOf(h, leaves[..first]), RootOf(h, leaves[..second]),
                                         proof.value)
    {
      if second > |leaves| || first > second {
        return None;
      }
      ConsistencyComplete(h, first, leaves[..second]);
      assert leaves[..second][..first] == leaves[..first];
      if first == 0 || first == second {
        return Some([]);
      }
      proof := Some(Subproof(h, first, leaves[..second], true));
    }
  }

  /** One more entry in the table of prefix roots. */
  lemma PrefixRoots(h: Sha, d: seq<Digest>, leaf: Digest, roots: seq<Digest>, more: seq<Digest>)
    requires |roots| == |d| && forall n :: 0 < n <= |d| ==> roots[n - 1] == RootOf(h, d[..n])
    requires more == roots + [RootOf(h, d + [leaf])]
    ensures forall n :: 0 < n <= |d| + 1 ==> more[n - 1] == RootOf(h, (d + [leaf])[..n])
  {
    forall n | 0 < n <= |d| + 1 ensures more[n - 1] == RootOf(h, (d + [leaf])[..n]) {
      if n <= |d| {
        assert (d + [leaf])[..n] == d[..n];
      } else {
        assert (d + [leaf])[..n] == d + [leaf];
      }
    }
  }
}
