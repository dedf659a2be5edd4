/**
 The proof verifiers of RFC 9162 sections 2.1.3.2 and 2.1.4.2, which shift node indices level by level, and the
 theorems that they accept exactly what the recursive definition of the tree entails.

 `Turns` is the meeting point: the way from a leaf to the root, defined from the bottom up, one shift of the index per
 level, as the loops follow it. `TurnsLeft` and `TurnsRight` show that it is the way along the recursive split.
 */
module MerkleVerify {
  import opened Wrappers
  import opened Hashing
  import opened Merkle

  /** The last node of a level of odd size has no sibling there. */
  predicate Lonely(i: nat, n: nat) {
    i == n - 1 && i % 2 == 0
  }

  /**
   For each step from leaf `i` of `n` up to the root: whether the node reached so far is a right child. A level at a
   time: a node's parity tells which child it is, and a lonely node moves up unchanged.
   */
  function Turns(i: nat, n: nat): seq<bool>
    requires i < n
    decreases n
  {
    if n == 1 then []
    else if Lonely(i, n) then Turns(i / 2, (n + 1) / 2)
    else [i % 2 == 1] + Turns(i / 2, (n + 1) / 2)
  }

  /** The last turn is taken at the split of the whole tree; the ones before it lead through the left subtree ... */
  lemma {:induction false} TurnsLeft(i: nat, n: nat)
    requires n >= 2 && i < Split(n)
    ensures Turns(i, n) == Turns(i, Split(n)) + [false]
    decreases n
  {
    if n >= 3 {
      var half := Split((n + 1) / 2);
      SplitHalves(n);
      TurnsLeft(i / 2, (n + 1) / 2);
      assert (2 * half + 1) / 2 == half;
      assert Turns(i, 2 * half) == [i % 2 == 1] + Turns(i / 2, half);
    }
  }

  /** ... or through the right one. */
  lemma {:induction false} TurnsRight(i: nat, n: nat)
    requires n >= 2 && Split(n) <= i < n
    ensures Turns(i, n) == Turns(i - Split(n), n - Split(n)) + [true]
    decreases n
  {
    if n >= 3 {
      SplitHalves(n);
      TurnsRight(i / 2, (n + 1) / 2);
      TurnsRightStep(i, n, Split((n + 1) / 2));
    }
  }

  lemma TurnsRightStep(i: nat, n: nat, half: nat)
    requires n >= 3 && 2 * half <= i < n && n - 2 * half < n && i / 2 >= half
    requires Turns(i / 2, (n + 1) / 2) == Turns(i / 2 - half, (n + 1) / 2 - half) + [true]
    ensures Turns(i, n) == Turns(i - 2 * half, n - 2 * half) + [true]
  {
    ShiftedTurns(i, n, half);
    OneMoreTurn(if Lonely(i, n) then [] else [i % 2 == 1], Turns(i / 2 - half, (n + 1) / 2 - half));
  }

  lemma OneMoreTurn(a: seq<bool>, b: seq<bool>)
    ensures a + (b + [true]) == a + b + [true]
  {
  }

  /** A subtree of even size to the left does not change the first turn. */
  lemma ShiftedTurns(i: nat, n: nat, half: nat)
    requires 2 * half <= i < n && n >= 3 && n - 2 * half < n
    ensures i / 2 >= half && i / 2 - half < (n + 1) / 2 - half
    ensures n - 2 * half >= 2 ==>
              Turns(i - 2 * half, n - 2 * half) ==
              (if Lonely(i, n) then [] else [i % 2 == 1]) + Turns(i / 2 - half, (n + 1) / 2 - half)
    ensures n - 2 * half == 1 ==> Turns(i - 2 * half, 1) == [] && Turns(i / 2 - half, (n + 1) / 2 - half) == []
    ensures n - 2 * half == 1 ==> Lonely(i, n)
  {
    var j, m := i - 2 * half, n - 2 * half;
    assert j / 2 == i / 2 - half && (m + 1) / 2 == (n + 1) / 2 - half && j % 2 == i % 2;
  }

  /** Only the root itself is reached without a turn. */
  lemma TurnsNonempty(i: nat, n: nat)
    requires i < n && n >= 2
    ensures Turns(i, n) != []
  {
    if i < Split(n) {
      TurnsLeft(i, n);
    } else {
      TurnsRight(i, n);
    }
  }

  /** Roots of the tree cut off after one of its nodes, and of the whole tree. */
  datatype Roots = Roots(first: Digest, second: Digest)

  /** The roots one level up. A sibling on the right lies beyond the cut, so it enters the second root only. */
  function Parent(h: Sha, rightChild: bool, r: Roots, p: Digest): Roots {
    if rightChild then Roots(NodeHash(h, p, r.first), NodeHash(h, p, r.second))
    else Roots(r.first, NodeHash(h, r.second, p))
  }

  /** Follows the turns upwards from `r`, hashing in one proof node per turn. */
  function Climb(h: Sha, turns: seq<bool>, r: Roots, proof: seq<Digest>): Roots
    requires |turns| == |proof|
  {
    if turns == [] then r else Climb(h, turns[1..], Parent(h, turns[0], r, proof[0]), proof[1..])
  }

  /** The last step of a climb. */
  lemma {:induction false} ClimbLast(h: Sha, turns: seq<bool>, r: Roots, proof: seq<Digest>)
    requires |turns| == |proof| > 0
    ensures var n := |turns| - 1;
            Climb(h, turns, r, proof) == Parent(h, turns[n], Climb(h, turns[..n], r, proof[..n]), proof[n])
  {
    var n := |turns| - 1;
    if n > 0 {
      ClimbLast(h, turns[1..], Parent(h, turns[0], r, proof[0]), proof[1..]);
      assert turns[1..][..n - 1] == turns[..n][1..];
      assert proof[1..][..n - 1] == proof[..n][1..];
    }
  }

  /** The roots a proof yields from node `i` of a level of `n` nodes, if it has one node per turn. */
  function Ascend(h: Sha, i: nat, n: nat, r: Roots, proof: seq<Digest>): Option<Roots>
    requires i < n
  {
    if |proof| == |Turns(i, n)| then Some(Climb(h, Turns(i, n), r, proof)) else None
  }

  /** One turn of the verifiers' loops: a node with a sibling takes it from the proof and shifts. */
  lemma AscendOnce(h: Sha, f: nat, s: nat, r: Roots, proof: seq<Digest>)
    requires f <= s && s > 0 && !Lonely(f, s + 1) && proof != []
    ensures f / 2 <= s / 2
    ensures Ascend(h, f, s + 1, r, proof) ==
            Ascend(h, f / 2, s / 2 + 1, Parent(h, f % 2 == 1, r, proof[0]), proof[1..])
  {
    assert (s + 2) / 2 == s / 2 + 1;
    var rest := Turns(f / 2, s / 2 + 1);
    assert Turns(f, s + 1) == [f % 2 == 1] + rest;
    assert Turns(f, s + 1)[1..] == rest;
  }

  /** The verifiers' inner loop: shifts a lonely node up to the level where it is a right child. */
  method ShiftLonely(fnode: nat, snode: nat) returns (f: nat, s: nat)
    requires fnode == snode > 0
    ensures f == s && f % 2 == 1
    ensures Turns(f, s + 1) == Turns(fnode, snode + 1)
  {
    f, s := fnode, snode;
    while f % 2 == 0 && f != 0
      invariant 0 < f == s
      invariant Turns(f, s + 1) == Turns(fnode, snode + 1)
      decreases f
    {
      assert (s + 2) / 2 == s / 2 + 1;
      f, s := f / 2, s / 2;
    }
  }

  // ----- Inclusion -----

  /** What an audit path proves: it leads from `leaf` to `root`. */
  predicate Includes(h: Sha, leaf: Digest, i: nat, n: nat, proof: seq<Digest>, root: Digest) {
    i < n &&
    var end := Ascend(h, i, n, Roots(leaf, leaf), proof);
    end.Some? && end.value.second == root
  }

  /** The verifier's loop decides `Includes`. */
  method VerifyInclusion(h: Sha, leaf: Digest, index: nat, size: nat, proof: seq<Digest>, root: Digest)
    returns (ok: bool)
    ensures ok <==> Includes(h, leaf, index, size, proof, root)
  {
    if index >= size {
      return false;
    }
    var fnode: nat, snode: nat := index, size - 1;
    var r := leaf;
    ghost var cut := leaf;
    for j := 0 to |proof|
      invariant fnode <= snode
      invariant Ascend(h, index, size, Roots(leaf, leaf), proof) ==
                Ascend(h, fnode, snode + 1, Roots(cut, r), proof[j..])
    {
      var p := proof[j];
      if snode == 0 {
        return false;
      }
      ghost var before := Roots(cut, r);
      if fnode % 2 == 1 || fnode == snode {
        r := NodeHash(h, p, r);
        cut := NodeHash(h, p, cut);
        if fnode % 2 == 0 {
          fnode, snode := ShiftLonely(fnode, snode);
        }
      } else {
        r := NodeHash(h, r, p);
      }
      AscendOnce(h, fnode, snode, before, proof[j..]);
      assert proof[j..][1..] == proof[j + 1..];
      fnode, snode := fnode / 2, snode / 2;
    }
    if snode > 0 {
      TurnsNonempty(fnode, snode + 1);
    }
    ok := snode == 0 && r == root;
  }

  /** The last step of an ascent, at the split of the whole tree. */
  lemma AscendLast(h: Sha, i: nat, n: nat, r: Roots, proof: seq<Digest>)
    requires i < n && n >= 2
    ensures var k := Split(n);
            Ascend(h, i, n, r, proof) ==
            if proof == [] then None
            else
              var below := if i < k then Ascend(h, i, k, r, proof[..|proof| - 1])
                           else Ascend(h, i - k, n - k, r, proof[..|proof| - 1]);
              if below.None? then None else Some(Parent(h, i >= k, below.value, proof[|proof| - 1]))
  {
    TurnsNonempty(i, n);
    if i < Split(n) {
      TurnsLeft(i, n);
    } else {
      TurnsRight(i, n);
    }
    if |proof| == |Turns(i, n)| {
      ClimbLast(h, Turns(i, n), r, proof);
    }
  }

  /** Completeness: the audit path of every leaf verifies against the root. */
  lemma {:induction false} InclusionComplete(h: Sha, i: nat, d: seq<Digest>)
    requires i < |d|
    ensures Includes(h, d[i], i, |d|, Path(h, i, d), RootOf(h, d))
    decreases |d|
  {
    if |d| > 1 {
      var k := Split(|d|);
      var left, right := RootOf(h, d[..k]), RootOf(h, d[k..]);
      if i < k {
        InclusionComplete(h, i, d[..k]);
        assert d[..k][i] == d[i];
        IncludesFromLeft(h, d[i], i, |d|, Path(h, i, d[..k]), left, right);
      } else {
        InclusionComplete(h, i - k, d[k..]);
        assert d[k..][i - k] == d[i];
        IncludesFromRight(h, d[i], i, |d|, Path(h, i - k, d[k..]), left, right);
      }
    }
  }

  /** A proof for the left subtree and the root of the right one are a proof for the whole ... */
  lemma IncludesFromLeft(h: Sha, leaf: Digest, i: nat, n: nat, init: seq<Digest>, left: Digest, right: Digest)
    requires n >= 2 && i < Split(n) && Includes(h, leaf, i, Split(n), init, left)
    ensures Includes(h, leaf, i, n, init + [right], NodeHash(h, left, right))
  {
    assert (init + [right])[..|init|] == init;
    AscendLast(h, i, n, Roots(leaf, leaf), init + [right]);
  }

  /** ... and so the other way round. */
  lemma IncludesFromRight(h: Sha, leaf: Digest, i: nat, n: nat, init: seq<Digest>, left: Digest, right: Digest)
    requires n >= 2 && Split(n) <= i < n && Includes(h, leaf, i - Split(n), n - Split(n), init, right)
    ensures Includes(h, leaf, i, n, init + [left], NodeHash(h, left, right))
  {
    assert (init + [left])[..|init|] == init;
    AscendLast(h, i, n, Roots(leaf, leaf), init + [left]);
  }

  /**
   Soundness, as a reduction: from an accepted proof for a leaf that is not leaf `i` of the tree, computes two
   messages with the same hash. The two are the first nodes, from the top, where the proof and the tree differ.
   */
  function InclusionForgery(h: Sha, leaf: Digest, i: nat, d: seq<Digest>, proof: seq<Digest>): (c: Collision)
    requires Includes(h, leaf, i, |d|, proof, RootOf(h, d))
    requires leaf != d[i]
    ensures Collides(h, c)
    decreases |d|
  {
    var r := Roots(leaf, leaf);
    var k := Split(|d|);
    AscendLast(h, i, |d|, r, proof);
    var last, init := proof[|proof| - 1], proof[..|proof| - 1];
    var left, right := RootOf(h, d[..k]), RootOf(h, d[k..]);
    var j, sub := if i < k then i else i - k, if i < k then d[..k] else d[k..];
    var below := Ascend(h, j, |sub|, r, init).value.second;
    var (a, b) := if i < k then (below, last) else (last, below);
    NodeHashBinds(h, a, b, left, right);
    if below == RootOf(h, sub) then InclusionForgery(h, leaf, j, sub, init)
    else NodeCollision(a, b, left, right)
  }

  /** Every accepted proof for a tree of `n` leaves has the length of the audit path. */
  lemma InclusionLength(h: Sha, leaf: Digest, i: nat, d: seq<Digest>, proof: seq<Digest>, root: Digest)
    requires Includes(h, leaf, i, |d|, proof, root)
    ensures |proof| == |Path(h, i, d)|
  {
    InclusionComplete(h, i, d);
  }

  // ----- Consistency -----

  /**
   The way from the subtree that ends the first `m` leaves up to the root over `n`: trailing zeros of `m` are levels
   inside that subtree.
   */
  function BaseTurns(m: nat, n: nat): seq<bool>
    requires 0 < m <= n
  {
    if m % 2 == 1 then Turns(m - 1, n) else BaseTurns(m / 2, (n + 1) / 2)
  }

  /** Where the base turns enter the subtrees: `TurnsLeft` and `TurnsRight` at an odd size ... */
  lemma {:induction false} BaseTurnsOdd(m: nat, n: nat)
    requires 0 < m < n && m % 2 == 1
    ensures var k := Split(n);
            BaseTurns(m, n) == if m <= k then BaseTurns(m, k) + [false] else BaseTurns(m - k, n - k) + [true]
  {
    var k := Split(n);
    if m <= k {
      TurnsLeft(m - 1, n);
    } else {
      TurnsRight(m - 1, n);
      EvenSplit(m, n);
    }
  }

  lemma EvenSplit(m: nat, n: nat)
    requires 0 < m < n && m % 2 == 1 && Split(n) < m
    ensures (m - Split(n)) % 2 == 1
  {
    SplitHalves(n);
  }

  /** ... and the step to an even one. */
  lemma {:induction false} BaseTurnsEven(m: nat, n: nat, half: nat)
    requires 0 < m < n && m % 2 == 0 && Split(n) == 2 * half
    requires BaseTurns(m / 2, (n + 1) / 2) ==
             if m / 2 <= half then BaseTurns(m / 2, half) + [false]
             else BaseTurns(m / 2 - half, (n + 1) / 2 - half) + [true]
    ensures BaseTurns(m, n) ==
            if m <= 2 * half then BaseTurns(m, 2 * half) + [false] else BaseTurns(m - 2 * half, n - 2 * half) + [true]
  {
    assert (2 * half + 1) / 2 == half;
    if m > 2 * half {
      assert (m - 2 * half) / 2 == m / 2 - half && (n - 2 * half + 1) / 2 == (n + 1) / 2 - half;
    }
  }

  /** The last base turn is taken at the split of the whole tree. */
  lemma {:induction false} BaseTurnsLast(m: nat, n: nat)
    requires 0 < m < n
    ensures var k := Split(n);
            BaseTurns(m, n) == if m <= k then BaseTurns(m, k) + [false] else BaseTurns(m - k, n - k) + [true]
    decreases n
  {
    if m % 2 == 1 {
      BaseTurnsOdd(m, n);
    } else {
      var half := Split((n + 1) / 2);
      SplitHalves(n);
      BaseTurnsLast(m / 2, (n + 1) / 2);
      BaseTurnsEven(m, n, half);
    }
  }

  /** A perfect subtree is its own root. */
  lemma {:induction false} BaseTurnsPerfect(k: nat)
    requires IsPow2(k)
    ensures BaseTurns(k, k) == []
  {
    if k > 1 {
      assert (k + 1) / 2 == k / 2;
      BaseTurnsPerfect(k / 2);
    }
  }

  /** The roots of the first `m` and of all `n` leaves that the nodes of a consistency proof yield. */
  function ConsistencyRoots(h: Sha, m: nat, n: nat, nodes: seq<Digest>): Option<Roots>
    requires 0 < m <= n
  {
    if |nodes| == 1 + |BaseTurns(m, n)| then Some(Climb(h, BaseTurns(m, n), Roots(nodes[0], nodes[0]), nodes[1..]))
    else None
  }

  /** The nodes the verifier works with: it knows the first root, which is a node itself when `m` is a power of two. */
  function ConsistencyNodes(m: nat, first: Digest, proof: seq<Digest>): seq<Digest> {
    (if IsPow2(m) then [first] else []) + proof
  }

  /** What a consistency proof proves about the roots of two sizes. */
  predicate Consistent(h: Sha, m: nat, n: nat, first: Digest, second: Digest, proof: seq<Digest>) {
    if m == 0 || m >= n then
      proof == [] && m <= n && first == if m == n then second else EmptyRoot(h)
    else
      ConsistencyRoots(h, m, n, ConsistencyNodes(m, first, proof)) == Some(Roots(first, second))
  }

  /** The verifier's loops decide `Consistent`. */
  method VerifyConsistency(h: Sha, first: nat, second: nat, firstRoot: Digest, secondRoot: Digest,
                           proof: seq<Digest>)
    returns (ok: bool)
    ensures ok <==> Consistent(h, first, second, firstRoot, secondRoot, proof)
  {
    if first > second {
      return false;
    }
    if first == second {
      return proof == [] && firstRoot == secondRoot;
    }
    if first == 0 {
      return proof == [] && firstRoot == EmptyRoot(h);
    }
    var nodes := if IsPow2(first) then [firstRoot] else [];
    nodes := nodes + proof;
    if nodes == [] {
      return false;
    }
    var fnode: nat, snode: nat := first - 1, second - 1;
    while fnode % 2 == 1
      invariant fnode <= snode
      invariant BaseTurns(fnode + 1, snode + 1) == BaseTurns(first, second)
      decreases fnode
    {
      assert (fnode + 1) / 2 == fnode / 2 + 1 && (snode + 2) / 2 == snode / 2 + 1;
      fnode, snode := fnode / 2, snode / 2;
    }
    ok := ConsistencyLoop(h, fnode, snode, nodes, firstRoot, secondRoot);
  }

  /** The main loop of the consistency verifier. */
  method ConsistencyLoop(h: Sha, f: nat, s: nat, nodes: seq<Digest>, firstRoot: Digest, secondRoot: Digest)
    returns (ok: bool)
    requires f <= s && nodes != []
    ensures ok <==> Ascend(h, f, s + 1, Roots(nodes[0], nodes[0]), nodes[1..]) == Some(Roots(firstRoot, secondRoot))
  {
    var fnode, snode := f, s;
    var fr, sr := nodes[0], nodes[0];
    ghost var start := Roots(nodes[0], nodes[0]);
    for j := 1 to |nodes|
      invariant fnode <= snode
      invariant Ascend(h, f, s + 1, start, nodes[1..]) == Ascend(h, fnode, snode + 1, Roots(fr, sr), nodes[j..])
    {
      var c := nodes[j];
      if snode == 0 {
        return false;
      }
      ghost var before := Roots(fr, sr);
      if fnode % 2 == 1 || fnode == snode {
        fr, sr := NodeHash(h, c, fr), NodeHash(h, c, sr);
        if fnode % 2 == 0 {
          fnode, snode := ShiftLonely(fnode, snode);
        }
      } else {
        sr := NodeHash(h, sr, c);
      }
      AscendOnce(h, fnode, snode, before, nodes[j..]);
      assert nodes[j..][1..] == nodes[j + 1..];
      fnode, snode := fnode / 2, snode / 2;
    }
    if snode > 0 {
      TurnsNonempty(fnode, snode + 1);
    }
    ok := fr == firstRoot && sr == secondRoot && snode == 0;
  }

  /** The last step of the climb of a consistency proof. */
  lemma ConsistencyLast(h: Sha, m: nat, n: nat, nodes: seq<Digest>)
    requires 0 < m < n
    ensures var k := Split(n);
            ConsistencyRoots(h, m, n, nodes) ==
            if |nodes| < 2 then None
            else
              var below := if m <= k then ConsistencyRoots(h, m, k, nodes[..|nodes| - 1])
                           else ConsistencyRoots(h, m - k, n - k, nodes[..|nodes| - 1]);
              if below.None? then None else Some(Parent(h, m > k, below.value, nodes[|nodes| - 1]))
  {
    BaseTurnsLast(m, n);
    if |nodes| == 1 + |BaseTurns(m, n)| {
      ClimbLast(h, BaseTurns(m, n), Roots(nodes[0], nodes[0]), nodes[1..]);
      var init := nodes[..|nodes| - 1];
      assert init[1..] == nodes[1..][..|nodes| - 2];
    }
  }

  /** Sizes met while splitting: only a perfect subtree is reached whole. */
  predicate Proper(m: nat, n: nat) {
    0 < m <= n && (m == n ==> IsPow2(m))
  }

  lemma SplitProper(m: nat, n: nat)
    requires 0 < m < n
    ensures m <= Split(n) ==> Proper(m, Split(n))
    ensures m > Split(n) ==> Proper(m - Split(n), n - Split(n)) && !IsPow2(m)
  {
    HighBitIsPow2(n - 1);
    if m > Split(n) && IsPow2(m) {
      SplitUnique(m, Split(n));
      HalfOfPow2(m, Split(n));
    }
  }

  /** There is no power of two strictly between one and its double. */
  lemma {:induction false} HalfOfPow2(m: nat, k: nat)
    requires IsPow2(m) && IsPow2(k) && k < m
    ensures m >= 2 * k
  {
    if k > 1 {
      HalfOfPow2(m / 2, k / 2);
    }
  }

  /** The nodes a verifier of `Subproof(h, m, d, b)` works with. */
  function SubproofNodes(h: Sha, m: nat, d: seq<Digest>, b: bool): seq<Digest>
    requires 0 < m <= |d|
  {
    (if b && IsPow2(m) then [RootOf(h, d[..m])] else []) + Subproof(h, m, d, b)
  }

  /** How a subproof that ends in the left subtree extends the one for that subtree ... */
  lemma SubproofLeft(h: Sha, m: nat, d: seq<Digest>, b: bool)
    requires 0 < m < |d| && m <= Split(|d|)
    ensures var k := Split(|d|);
            var below := ConsistencyRoots(h, m, k, SubproofNodes(h, m, d[..k], b));
            below.Some? ==> ConsistencyRoots(h, m, |d|, SubproofNodes(h, m, d, b)) ==
                            Some(Parent(h, false, below.value, RootOf(h, d[k..])))
  {
    var k, nodes := Split(|d|), SubproofNodes(h, m, d, b);
    assert d[..k][..m] == d[..m];
    ConsistencyLast(h, m, |d|, nodes);
    assert nodes == SubproofNodes(h, m, d[..k], b) + [RootOf(h, d[k..])];
    assert nodes[..|nodes| - 1] == SubproofNodes(h, m, d[..k], b);
  }

  /** ... and one that ends in the right subtree. */
  lemma SubproofRight(h: Sha, m: nat, d: seq<Digest>, b: bool)
    requires |d| >= 2 && Split(|d|) < m < |d|
    ensures var k := Split(|d|);
            var below := ConsistencyRoots(h, m - k, |d| - k, SubproofNodes(h, m - k, d[k..], false));
            below.Some? ==> ConsistencyRoots(h, m, |d|, SubproofNodes(h, m, d, b)) ==
                            Some(Parent(h, true, below.value, RootOf(h, d[..k])))
  {
    var k, nodes := Split(|d|), SubproofNodes(h, m, d, b);
    SplitProper(m, |d|);
    ConsistencyLast(h, m, |d|, nodes);
    assert nodes == SubproofNodes(h, m - k, d[k..], false) + [RootOf(h, d[..k])];
    assert nodes[..|nodes| - 1] == SubproofNodes(h, m - k, d[k..], false);
  }

  /** Completeness of `Subproof` for the verifier's climb. */
  lemma {:induction false} SubproofComplete(h: Sha, m: nat, d: seq<Digest>, b: bool)
    requires Proper(m, |d|)
    ensures ConsistencyRoots(h, m, |d|, SubproofNodes(h, m, d, b)) == Some(Roots(RootOf(h, d[..m]), RootOf(h, d)))
    decreases |d|
  {
    if m == |d| {
      BaseTurnsPerfect(m);
      assert d[..m] == d;
    } else {
      var k := Split(|d|);
      SplitProper(m, |d|);
      PrefixInSubtree(h, d, m);
      if m <= k {
        SubproofComplete(h, m, d[..k], b);
        SubproofLeft(h, m, d, b);
      } else {
        SubproofComplete(h, m - k, d[k..], false);
        SubproofRight(h, m, d, b);
      }
    }
  }

  /** The proof the tree hands out for two sizes. */
  function ConsistencyProof(h: Sha, first: nat, d: seq<Digest>): seq<Digest>
    requires first <= |d|
  {
    if first == 0 || first == |d| then [] else Subproof(h, first, d, true)
  }

  /** Completeness: every prefix of a tree verifies as consistent with it. */
  lemma ConsistencyComplete(h: Sha, m: nat, d: seq<Digest>)
    requires m <= |d|
    ensures Consistent(h, m, |d|, RootOf(h, d[..m]), RootOf(h, d), ConsistencyProof(h, m, d))
  {
    if 0 < m < |d| {
      SubproofComplete(h, m, d, true);
    } else if m == |d| {
      assert d[..m] == d;
    }
  }

  lemma OnlyPrefixesDiffer(h: Sha, m: nat, d: seq<Digest>, nodes: seq<Digest>)
    requires Proper(m, |d|) && ConsistencyRoots(h, m, |d|, nodes).Some?
    requires ConsistencyRoots(h, m, |d|, nodes).value.second == RootOf(h, d)
    requires ConsistencyRoots(h, m, |d|, nodes).value.first != RootOf(h, d[..m])
    ensures m < |d|
  {
    if m == |d| {
      assert d[..m] == d;
      BaseTurnsPerfect(m);
    }
  }

  /** Soundness of the climb, as a reduction: a wrong first root yields a collision. */
  function ClimbForgery(h: Sha, m: nat, d: seq<Digest>, nodes: seq<Digest>): (c: Collision)
    requires Proper(m, |d|)
    requires ConsistencyRoots(h, m, |d|, nodes).Some?
    requires ConsistencyRoots(h, m, |d|, nodes).value.second == RootOf(h, d)
    requires ConsistencyRoots(h, m, |d|, nodes).value.first != RootOf(h, d[..m])
    ensures Collides(h, c)
    decreases |d|
  {
    OnlyPrefixesDiffer(h, m, d, nodes);
    var k := Split(|d|);
    ConsistencyLast(h, m, |d|, nodes);
    SplitProper(m, |d|);
    var last, init := nodes[|nodes| - 1], nodes[..|nodes| - 1];
    var left, right := RootOf(h, d[..k]), RootOf(h, d[k..]);
    var j, sub := if m <= k then m else m - k, if m <= k then d[..k] else d[k..];
    var below := ConsistencyRoots(h, j, |sub|, init).value;
    var (a, b) := if m <= k then (below.second, last) else (last, below.second);
    NodeHashBinds(h, a, b, left, right);
    if a == left && b == right then
      PrefixInSubtree(h, d, m);
      ClimbForgery(h, j, sub, init)
    else NodeCollision(a, b, left, right)
  }

  /** The root of a prefix, told by the subtree the prefix ends in. */
  lemma PrefixInSubtree(h: Sha, d: seq<Digest>, m: nat)
    requires 0 < m < |d|
    ensures var k := Split(|d|);
            RootOf(h, d[..m]) == if m <= k then RootOf(h, d[..k][..m])
                                 else NodeHash(h, RootOf(h, d[..k]), RootOf(h, d[k..][..m - k]))
  {
    var k := Split(|d|);
    if m <= k {
      assert d[..k][..m] == d[..m];
    } else {
      RootOfPrefix(h, d, m);
    }
  }

  /** Soundness: an accepted proof against the root of `d` for a wrong root of its first `m` leaves is a collision. */
  function ConsistencyForgery(h: Sha, m: nat, d: seq<Digest>, first: Digest, proof: seq<Digest>): (c: Collision)
    requires Consistent(h, m, |d|, first, RootOf(h, d), proof)
    requires m <= |d| && first != RootOf(h, d[..m])
    ensures Collides(h, c)
  {
    assert d == d[..|d|];
    ClimbForgery(h, m, d, ConsistencyNodes(m, first, proof))
  }

  /** Two lists of the same length with the same root are equal, or yield a collision. */
  function RootForgery(h: Sha, d: seq<Digest>, e: seq<Digest>): (c: Collision)
    requires |d| == |e| && d != e && RootOf(h, d) == RootOf(h, e)
    ensures Collides(h, c)
    decreases |d|
  {
    var k := Split(|d|);
    NodeHashBinds(h, RootOf(h, d[..k]), RootOf(h, d[k..]), RootOf(h, e[..k]), RootOf(h, e[k..]));
    assert d == d[..k] + d[k..] && e == e[..k] + e[k..];
    if RootOf(h, d[..k]) != RootOf(h, e[..k]) || RootOf(h, d[k..]) != RootOf(h, e[k..]) then
      NodeCollision(RootOf(h, d[..k]), RootOf(h, d[k..]), RootOf(h, e[..k]), RootOf(h, e[k..]))
    else if d[..k] != e[..k] then RootForgery(h, d[..k], e[..k])
    else RootForgery(h, d[k..], e[k..])
  }
}
