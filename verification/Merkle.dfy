/**
 The Merkle tree of RFC 9162 section 2.1, by its recursive definition: the root of a list of leaf hashes, audit
 paths (section 2.1.3.1) and consistency proofs (section 2.1.4.1).
 */
module Merkle {
  import opened Hashing

  predicate IsPow2(n: nat) {
    n == 1 || (n > 0 && n % 2 == 0 && IsPow2(n / 2))
  }

  /** The highest set bit of `n`. */
  function HighBit(n: nat): (b: nat)
    requires n > 0
    ensures b <= n < 2 * b
  {
    if n == 1 then 1 else 2 * HighBit(n / 2)
  }

  lemma {:induction false} HighBitIsPow2(n: nat)
    requires n > 0
    ensures IsPow2(HighBit(n))
  {
    if n > 1 {
      HighBitIsPow2(n / 2);
    }
  }

  /** The largest power of two strictly smaller than `n`. */
  function Split(n: nat): (k: nat)
    requires n >= 2
    ensures 0 < k < n <= 2 * k
  {
    HighBit(n - 1)
  }

  /** No other power of two splits `n`. */
  lemma {:induction false} SplitUnique(n: nat, k: nat)
    requires n >= 2
    requires IsPow2(k) && k < n <= 2 * k
    ensures Split(n) == k
  {
    if k > 1 {
      SplitUnique((n + 1) / 2, k / 2);
    }
  }

  /** Halving the tree (pairing its leaves) halves the split. */
  lemma SplitHalves(n: nat)
    requires n >= 3
    ensures Split(n) == 2 * Split((n + 1) / 2)
  {
    assert (n + 1) / 2 - 1 == (n - 1) / 2;
  }

  /** Root of the tree over `leaves`. */
  function RootOf(h: Sha, leaves: seq<Digest>): Digest {
    if |leaves| == 0 then EmptyRoot(h)
    else if |leaves| == 1 then leaves[0]
    else
      var k := Split(|leaves|);
      NodeHash(h, RootOf(h, leaves[..k]), RootOf(h, leaves[k..]))
  }

  /** Audit path of leaf `m`. */
  function Path(h: Sha, m: nat, d: seq<Digest>): seq<Digest>
    requires m < |d|
  {
    if |d| == 1 then []
    else
      var k := Split(|d|);
      if m < k then Path(h, m, d[..k]) + [RootOf(h, d[k..])]
      else Path(h, m - k, d[k..]) + [RootOf(h, d[..k])]
  }

  /**
   Consistency proof between the first `m` leaves and all of `d`; `b` says the verifier knows the root of `d[..m]`.
   */
  function Subproof(h: Sha, m: nat, d: seq<Digest>, b: bool): seq<Digest>
    requires 0 < m <= |d|
    decreases |d|
  {
    if m == |d| then if b then [] else [RootOf(h, d)]
    else
      var k := Split(|d|);
      if m <= k then Subproof(h, m, d[..k], b) + [RootOf(h, d[k..])]
      else Subproof(h, m - k, d[k..], false) + [RootOf(h, d[..k])]
  }

  /** The root of a longer prefix is split where the whole list is. */
  lemma {:induction false} RootOfPrefix(h: Sha, d: seq<Digest>, m: nat)
    requires |d| >= 2 && Split(|d|) < m <= |d|
    ensures var k := Split(|d|);
            RootOf(h, d[..m]) == NodeHash(h, RootOf(h, d[..k]), RootOf(h, d[k..][..m - k]))
  {
    var k := Split(|d|);
    HighBitIsPow2(|d| - 1);
    SplitUnique(m, k);
    var p := d[..m];
    assert p[..k] == d[..k];
    assert p[k..] == d[k..][..m - k];
  }

  // ----- The equations of the RFC, which have one solution each -----

  /** `k` is the power of two at which a list of this length is split. */
  predicate SplitsAt(n: nat, k: nat) {
    IsPow2(k) && k < n <= 2 * k
  }

  lemma SplitSplits(n: nat)
    requires n >= 2
    ensures SplitsAt(n, Split(n))
  {
    HighBitIsPow2(n - 1);
  }

  /** What section 2.1.1 of RFC 9162 says of the tree head, in terms of the bytes that are hashed. */
  ghost predicate HeadEquations(h: Sha, root: seq<Digest> -> Digest) {
    && root([]) == h([])
    && (forall x: Digest :: root([x]) == x)
    && forall d: seq<Digest>, k: nat :: HeadEquation(h, root, d, k)
  }

  predicate HeadEquation(h: Sha, root: seq<Digest> -> Digest, d: seq<Digest>, k: nat) {
    k <= |d| && SplitsAt(|d|, k) ==> root(d) == h([1] + root(d[..k]) + root(d[k..]))
  }

  /** `root` is the tree head of `d`: whatever satisfies the equations gives it. */
  ghost predicate IsHead(h: Sha, d: seq<Digest>, root: Digest) {
    forall f: seq<Digest> -> Digest :: HeadEquations(h, f) ==> f(d) == root
  }

  lemma {:induction false} HeadIsUnique(h: Sha, f: seq<Digest> -> Digest, d: seq<Digest>)
    requires HeadEquations(h, f)
    ensures f(d) == RootOf(h, d)
    decreases |d|
  {
    if |d| == 1 {
      assert d == [d[0]];
    } else if |d| >= 2 {
      var k := Split(|d|);
      SplitSplits(|d|);
      assert HeadEquation(h, f, d, k);
      HeadIsUnique(h, f, d[..k]);
      HeadIsUnique(h, f, d[k..]);
    }
  }

  function RootFunction(h: Sha): seq<Digest> -> Digest {
    d => RootOf(h, d)
  }

  lemma HeadSolves(h: Sha)
    ensures HeadEquations(h, RootFunction(h))
  {
    forall d: seq<Digest>, k: nat ensures HeadEquation(h, RootFunction(h), d, k) {
      if k <= |d| && SplitsAt(|d|, k) {
        SplitUnique(|d|, k);
      }
    }
  }

  /** The root of the tree is the tree head of RFC 9162: the equations have a solution, and it is the only one. */
  lemma RootIsHead(h: Sha, d: seq<Digest>, root: Digest)
    ensures IsHead(h, d, root) <==> root == RootOf(h, d)
  {
    HeadSolves(h);
    forall f: seq<Digest> -> Digest | HeadEquations(h, f) ensures f(d) == RootOf(h, d) {
      HeadIsUnique(h, f, d);
    }
    if IsHead(h, d, root) {
      assert RootFunction(h)(d) == root;
    }
  }

  /** Audit paths, as section 2.1.3.1 defines them. */
  ghost predicate PathEquations(h: Sha, path: (nat, seq<Digest>) -> seq<Digest>) {
    && (forall x: Digest :: path(0, [x]) == [])
    && forall m: nat, d: seq<Digest>, k: nat :: PathEquation(h, path, m, d, k)
  }

  predicate PathEquation(h: Sha, path: (nat, seq<Digest>) -> seq<Digest>, m: nat, d: seq<Digest>, k: nat) {
    m < |d| && k <= |d| && SplitsAt(|d|, k) ==>
      path(m, d) == if m < k then path(m, d[..k]) + [RootOf(h, d[k..])]
                    else path(m - k, d[k..]) + [RootOf(h, d[..k])]
  }

  lemma PathSolves(h: Sha)
    ensures PathEquations(h, PathFunction(h))
  {
    forall m: nat, d: seq<Digest>, k: nat ensures PathEquation(h, PathFunction(h), m, d, k) {
      if m < |d| && k <= |d| && SplitsAt(|d|, k) {
        SplitUnique(|d|, k);
      }
    }
  }

  function PathFunction(h: Sha): (nat, seq<Digest>) -> seq<Digest> {
    (m: nat, d: seq<Digest>) => if m < |d| then Path(h, m, d) else []
  }

  /** There is one way to satisfy those equations. */
  lemma {:induction false} PathIsUnique(h: Sha, path: (nat, seq<Digest>) -> seq<Digest>, m: nat, d: seq<Digest>)
    requires PathEquations(h, path) && m < |d|
    ensures path(m, d) == Path(h, m, d)
    decreases |d|
  {
    if |d| == 1 {
      assert d == [d[0]];
    } else {
      var k := Split(|d|);
      SplitSplits(|d|);
      assert PathEquation(h, path, m, d, k);
      if m < k {
        PathIsUnique(h, path, m, d[..k]);
      } else {
        PathIsUnique(h, path, m - k, d[k..]);
      }
    }
  }

  /** Subproofs, as section 2.1.4.1 defines them. */
  ghost predicate SubproofEquations(h: Sha, subproof: (nat, seq<Digest>, bool) -> seq<Digest>) {
    && (forall d: seq<Digest>, b: bool :: WholeEquation(h, subproof, d, b))
    && forall m: nat, d: seq<Digest>, b: bool, k: nat :: SubproofEquation(h, subproof, m, d, b, k)
  }

  predicate WholeEquation(h: Sha, subproof: (nat, seq<Digest>, bool) -> seq<Digest>, d: seq<Digest>, b: bool) {
    d != [] ==> subproof(|d|, d, b) == if b then [] else [RootOf(h, d)]
  }

  predicate SubproofEquation(h: Sha, subproof: (nat, seq<Digest>, bool) -> seq<Digest>, m: nat, d: seq<Digest>, b: bool,
                             k: nat)
  {
    0 < m < |d| && k <= |d| && SplitsAt(|d|, k) ==>
      subproof(m, d, b) == if m <= k then subproof(m, d[..k], b) + [RootOf(h, d[k..])]
                           else subproof(m - k, d[k..], false) + [RootOf(h, d[..k])]
  }

  lemma SubproofSolves(h: Sha)
    ensures SubproofEquations(h, SubproofFunction(h))
  {
    forall m: nat, d: seq<Digest>, b: bool, k: nat ensures SubproofEquation(h, SubproofFunction(h), m, d, b, k) {
      if 0 < m < |d| && k <= |d| && SplitsAt(|d|, k) {
        SplitUnique(|d|, k);
      }
    }
  }

  function SubproofFunction(h: Sha): (nat, seq<Digest>, bool) -> seq<Digest> {
    (m: nat, d: seq<Digest>, b: bool) => if 0 < m <= |d| then Subproof(h, m, d, b) else []
  }

  lemma {:induction false} SubproofIsUnique(h: Sha, subproof: (nat, seq<Digest>, bool) -> seq<Digest>, m: nat,
                                            d: seq<Digest>, b: bool)
    requires SubproofEquations(h, subproof) && 0 < m <= |d|
    ensures subproof(m, d, b) == Subproof(h, m, d, b)
    decreases |d|
  {
    if m == |d| {
      assert WholeEquation(h, subproof, d, b);
    } else {
      var k := Split(|d|);
      SplitSplits(|d|);
      assert SubproofEquation(h, subproof, m, d, b, k);
      if m <= k {
        SubproofIsUnique(h, subproof, m, d[..k], b);
      } else {
        SubproofIsUnique(h, subproof, m - k, d[k..], false);
      }
    }
  }
}
