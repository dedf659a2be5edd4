/** The index of installed packages: the paths they own, in one sorted blob searched by bisection. */
module DpkgIndex {
  import opened Wrappers
  import opened Hashing
  import opened Cbor
  import opened CborProofs
  import opened CborRecord

  type Path = seq<byte>

  /** A path and the package that claims it. */
  datatype Claim = Claim(path: Path, owner: nat)

  // ----- The plain map the index stands for -----

  /** The package whose claim to a path comes first. */
  function FirstClaim(claims: seq<Claim>, path: Path): Option<nat> {
    if claims == [] then None
    else if claims[0].path == path then Some(claims[0].owner)
    else FirstClaim(claims[1..], path)
  }

  // ----- Stable sorting -----

  function Insert(c: Claim, sorted: seq<Claim>): seq<Claim> {
    if sorted == [] || !Less(sorted[0].path, c.path) then [c] + sorted
    else [sorted[0]] + Insert(c, sorted[1..])
  }

  /** A stable sort by path: of equal paths, the earlier claim stays first. */
  function Sorted(claims: seq<Claim>): seq<Claim> {
    if claims == [] then [] else Insert(claims[0], Sorted(claims[1..]))
  }

  /** Keeps the first of every run of equal paths. */
  function Dedup(claims: seq<Claim>): seq<Claim>
    decreases |claims|
  {
    if |claims| <= 1 then claims
    else if claims[0].path == claims[1].path then Dedup([claims[0]] + claims[2..])
    else [claims[0]] + Dedup(claims[1..])
  }

  predicate Ascending(claims: seq<Claim>) {
    forall i :: 0 <= i < |claims| - 1 ==> !Less(claims[i + 1].path, claims[i].path)
  }

  predicate StrictlyAscending(claims: seq<Claim>) {
    forall i, j :: 0 <= i < j < |claims| ==> Less(claims[i].path, claims[j].path)
  }

  lemma LessAsymmetric(a: Path, b: Path)
    requires Less(a, b)
    ensures !Less(b, a)
  {
    if Less(b, a) {
      LessTransitive(a, b, a);
      LessIrreflexive(a);
    }
  }

  lemma {:induction false} InsertAscends(c: Claim, sorted: seq<Claim>)
    requires Ascending(sorted)
    ensures Ascending(Insert(c, sorted)) && multiset(Insert(c, sorted)) == multiset(sorted) + multiset{c}
    decreases |sorted|
  {
    var r := Insert(c, sorted);
    if sorted == [] || !Less(sorted[0].path, c.path) {
      assert r[1..] == sorted;
    } else {
      var rest := sorted[1..];
      InsertAscends(c, rest);
      LessAsymmetric(sorted[0].path, c.path);
      assert sorted == [sorted[0]] + rest;
      var s := Insert(c, rest);
      assert s[0] == c || (rest != [] && s[0] == rest[0]);
      assert rest != [] ==> rest[0] == sorted[1];
      AscendingCons(sorted[0], s);
    }
  }

  lemma AscendingCons(c: Claim, s: seq<Claim>)
    requires Ascending(s) && (s != [] ==> !Less(s[0].path, c.path))
    ensures Ascending([c] + s)
  {
  }

  lemma {:induction false} InsertFirst(c: Claim, sorted: seq<Claim>, path: Path)
    ensures FirstClaim(Insert(c, sorted), path) == if c.path == path then Some(c.owner) else FirstClaim(sorted, path)
    decreases |sorted|
  {
    if sorted == [] || !Less(sorted[0].path, c.path) {
      assert ([c] + sorted)[1..] == sorted;
    } else {
      InsertFirst(c, sorted[1..], path);
      LessIrreflexive(c.path);
      assert ([sorted[0]] + Insert(c, sorted[1..]))[1..] == Insert(c, sorted[1..]);
    }
  }

  /** Sorting rearranges the claims, into ascending order, without changing which claim to a path comes first. */
  lemma {:induction false} SortedKeeps(claims: seq<Claim>, path: Path)
    ensures Ascending(Sorted(claims)) && multiset(Sorted(claims)) == multiset(claims)
    ensures FirstClaim(Sorted(claims), path) == FirstClaim(claims, path)
    decreases |claims|
  {
    if claims != [] {
      SortedKeeps(claims[1..], path);
      InsertAscends(claims[0], Sorted(claims[1..]));
      InsertFirst(claims[0], Sorted(claims[1..]), path);
      assert claims == [claims[0]] + claims[1..];
    }
  }

  lemma {:induction false} DedupFirst(claims: seq<Claim>, path: Path)
    ensures FirstClaim(Dedup(claims), path) == FirstClaim(claims, path)
    decreases |claims|
  {
    if |claims| > 1 {
      if claims[0].path == claims[1].path {
        var merged := [claims[0]] + claims[2..];
        DedupFirst(merged, path);
        assert merged[1..] == claims[2..] && claims[1..][1..] == claims[2..];
      } else {
        DedupFirst(claims[1..], path);
        assert ([claims[0]] + Dedup(claims[1..]))[1..] == Dedup(claims[1..]);
      }
    }
  }

  /** A strictly ascending run that starts above `c`. */
  lemma StrictCons(c: Claim, s: seq<Claim>)
    requires StrictlyAscending(s) && (s != [] ==> Less(c.path, s[0].path))
    ensures StrictlyAscending([c] + s)
  {
    forall j | 0 <= j < |s| ensures Less(c.path, s[j].path) {
      if j > 0 {
        LessTransitive(c.path, s[0].path, s[j].path);
      }
    }
  }

  lemma {:induction false} DedupStrict(claims: seq<Claim>)
    requires Ascending(claims)
    ensures StrictlyAscending(Dedup(claims))
    ensures claims != [] ==> Dedup(claims) != [] && Dedup(claims)[0].path == claims[0].path
    decreases |claims|
  {
    if |claims| > 1 {
      if claims[0].path == claims[1].path {
        var merged := [claims[0]] + claims[2..];
        assert forall i :: 1 <= i < |merged| ==> merged[i] == claims[i + 1];
        DedupStrict(merged);
      } else {
        DedupStrict(claims[1..]);
        assert !Less(claims[0 + 1].path, claims[0].path);
        LessTotal(claims[0].path, claims[1].path);
        StrictCons(claims[0], Dedup(claims[1..]));
      }
    }
  }

  // ----- The packed index -----

  const U32: nat := 0x1_0000_0000

  type u32 = n: nat | n < 0x1_0000_0000

  datatype Index = Index(packages: seq<(seq<byte>, seq<byte>)>, blob: seq<byte>, offsets: seq<u32>, owners: seq<u32>)

  /** The offsets cut the whole blob into one piece per owner, and every owner is a package. */
  predicate Shaped(ix: Index) {
    && |ix.offsets| == |ix.owners| + 1
    && ix.offsets[0] == 0 && ix.offsets[|ix.owners|] == |ix.blob|
    && (forall i :: 0 <= i < |ix.owners| ==> ix.offsets[i] <= ix.offsets[i + 1])
    && (forall i :: 0 <= i < |ix.owners| ==> ix.owners[i] < |ix.packages|)
  }

  lemma {:induction false} OffsetsAscend(ix: Index, i: nat, j: nat)
    requires Shaped(ix) && i <= j <= |ix.owners|
    ensures ix.offsets[i] <= ix.offsets[j]
    decreases j - i
  {
    if i < j {
      OffsetsAscend(ix, i, j - 1);
      assert ix.offsets[j - 1] <= ix.offsets[j - 1 + 1];
    }
  }

  lemma InBlob(ix: Index, i: nat)
    requires Shaped(ix) && i < |ix.owners|
    ensures ix.offsets[i] <= ix.offsets[i + 1] <= |ix.blob|
  {
    OffsetsAscend(ix, i + 1, |ix.owners|);
  }

  function PathAt(ix: Index, i: nat): Path
    requires Shaped(ix) && i < |ix.owners|
  {
    InBlob(ix, i);
    ix.blob[ix.offsets[i]..ix.offsets[i + 1]]
  }

  /** The claims an index holds. */
  function Claims(ix: Index): (cs: seq<Claim>)
    requires Shaped(ix)
    ensures |cs| == |ix.owners|
  {
    seq(|ix.owners|, i requires 0 <= i < |ix.owners| => Claim(PathAt(ix, i), ix.owners[i]))
  }

  lemma {:induction false} NoClaim(claims: seq<Claim>, path: Path)
    requires forall i :: 0 <= i < |claims| ==> claims[i].path != path
    ensures FirstClaim(claims, path) == None
  {
    if claims != [] {
      NoClaim(claims[1..], path);
    }
  }

  lemma {:induction false} OnlyClaim(claims: seq<Claim>, i: nat)
    requires i < |claims| && forall j :: 0 <= j < i ==> claims[j].path != claims[i].path
    ensures FirstClaim(claims, claims[i].path) == Some(claims[i].owner)
    decreases i
  {
    if i > 0 {
      forall j | 0 <= j < i - 1 ensures claims[1..][j].path != claims[1..][i - 1].path {
        assert claims[1..][j] == claims[j + 1];
      }
      OnlyClaim(claims[1..], i - 1);
    }
  }

  /**
   Finds the owner of a path by bisection. On any index of the right shape it stays in range and ends, and what it finds
   is there; on an ascending one it finds exactly the claims there are.
   */
  method Find(ix: Index, path: Path) returns (r: Option<nat>)
    requires Shaped(ix)
    ensures r.Some? ==> r.value < |ix.packages| && Claim(path, r.value) in Claims(ix)
    ensures StrictlyAscending(Claims(ix)) ==> r == FirstClaim(Claims(ix), path)
  {
    ghost var cs := Claims(ix);
    var lo, hi := 0, |ix.owners|;
    while lo < hi
      invariant 0 <= lo <= hi <= |ix.owners|
      invariant StrictlyAscending(cs) ==> forall i :: 0 <= i < |cs| && !(lo <= i < hi) ==> cs[i].path != path
    {
      var mid := (lo + hi) / 2;
      InBlob(ix, mid);
      var cur := ix.blob[ix.offsets[mid]..ix.offsets[mid + 1]];
      assert cs[mid] == Claim(cur, ix.owners[mid]);
      if Less(cur, path) {
        AllBelow(cs, mid, path);
        lo := mid + 1;
      } else if Less(path, cur) {
        AllAbove(cs, mid, path);
        hi := mid;
      } else {
        LessTotal(cur, path);
        if StrictlyAscending(cs) {
          AllBelowSelf(cs, mid);
          OnlyClaim(cs, mid);
        }
        return Some(ix.owners[mid]);
      }
    }
    if StrictlyAscending(cs) {
      NoClaim(cs, path);
    }
    r := None;
  }

  lemma AllBelow(cs: seq<Claim>, mid: nat, path: Path)
    requires mid < |cs| && Less(cs[mid].path, path)
    ensures StrictlyAscending(cs) ==> forall i :: 0 <= i <= mid ==> cs[i].path != path
  {
    LessIrreflexive(path);
    if StrictlyAscending(cs) {
      forall i | 0 <= i <= mid ensures cs[i].path != path {
        if i < mid {
          LessTransitive(cs[i].path, cs[mid].path, path);
        }
      }
    }
  }

  lemma AllAbove(cs: seq<Claim>, mid: nat, path: Path)
    requires mid < |cs| && Less(path, cs[mid].path)
    ensures StrictlyAscending(cs) ==> forall i :: mid <= i < |cs| ==> cs[i].path != path
  {
    LessIrreflexive(path);
    if StrictlyAscending(cs) {
      forall i | mid <= i < |cs| ensures cs[i].path != path {
        if mid < i {
          LessTransitive(path, cs[mid].path, cs[i].path);
        }
      }
    }
  }

  lemma AllBelowSelf(cs: seq<Claim>, mid: nat)
    requires StrictlyAscending(cs) && mid < |cs|
    ensures forall j :: 0 <= j < mid ==> cs[j].path != cs[mid].path
  {
    LessIrreflexive(cs[mid].path);
  }

  // ----- Building it -----

  /** The paths one after another. */
  function Concat(claims: seq<Claim>): seq<byte> {
    if claims == [] then [] else Concat(claims[..|claims| - 1]) + claims[|claims| - 1].path
  }

  lemma ConcatNext(claims: seq<Claim>, i: nat)
    requires i < |claims|
    ensures Concat(claims[..i + 1]) == Concat(claims[..i]) + claims[i].path
  {
    assert claims[..i + 1][..i] == claims[..i];
  }

  lemma {:induction false} ConcatPrefix(claims: seq<Claim>, i: nat)
    requires i <= |claims|
    ensures Concat(claims[..i]) <= Concat(claims)
    decreases |claims| - i
  {
    if i < |claims| {
      ConcatNext(claims, i);
      ConcatPrefix(claims, i + 1);
    } else {
      assert claims[..i] == claims;
    }
  }

  /** `ix` packs these claims. */
  ghost predicate Packs(ix: Index, claims: seq<Claim>) {
    && ix.blob == Concat(claims)
    && |ix.owners| == |claims| && |ix.offsets| == |claims| + 1
    && (forall i :: 0 <= i < |claims| ==> ix.owners[i] == claims[i].owner)
    && forall i :: 0 <= i <= |claims| ==> ix.offsets[i] == |Concat(claims[..i])|
  }

  lemma PackedPath(ix: Index, claims: seq<Claim>, i: nat)
    requires Packs(ix, claims) && i < |claims|
    ensures ix.offsets[i] <= ix.offsets[i + 1] <= |ix.blob|
    ensures ix.blob[ix.offsets[i]..ix.offsets[i + 1]] == claims[i].path
  {
    var a, b := Concat(claims[..i]), Concat(claims[..i + 1]);
    ConcatNext(claims, i);
    ConcatPrefix(claims, i + 1);
    assert ix.offsets[i] == |a| && ix.offsets[i + 1] == |b|;
    assert ix.blob[..|b|] == b;
    assert ix.blob[|a|..|b|] == b[|a|..];
  }

  /** A packed index has the right shape and holds exactly the claims packed into it. */
  lemma PackedClaims(ix: Index, claims: seq<Claim>)
    requires Packs(ix, claims) && forall i :: 0 <= i < |claims| ==> claims[i].owner < |ix.packages|
    ensures Shaped(ix) && Claims(ix) == claims
  {
    assert claims[..0] == [] && claims[..|claims|] == claims;
    forall i | 0 <= i < |claims| ensures ix.offsets[i] <= ix.offsets[i + 1] {
      PackedPath(ix, claims, i);
    }
    assert Shaped(ix);
    forall i | 0 <= i < |claims| ensures Claims(ix)[i] == claims[i] {
      PackedPath(ix, claims, i);
    }
  }

  /** Packs claims into an index; offsets are 32 bits wide. */
  method Pack(packages: seq<(seq<byte>, seq<byte>)>, claims: seq<Claim>) returns (ix: Index)
    requires |packages| <= U32 && forall i :: 0 <= i < |claims| ==> claims[i].owner < |packages|
    ensures ix.packages == packages
    ensures |Concat(claims)| < U32 ==> Shaped(ix) && Claims(ix) == claims
  {
    var blob, offsets: seq<u32>, owners: seq<u32> := [], [], [];
    for i := 0 to |claims|
      invariant blob == Concat(claims[..i]) && |owners| == i && |offsets| == i
      invariant forall j :: 0 <= j < i ==> owners[j] == claims[j].owner
      invariant forall j :: 0 <= j < i ==> offsets[j] == |Concat(claims[..j])| % U32
    {
      ConcatNext(claims, i);
      offsets := offsets + [|blob| % U32];
      blob := blob + claims[i].path;
      owners := owners + [claims[i].owner];
    }
    assert claims[..|claims|] == claims;
    offsets := offsets + [|blob| % U32];
    ix := Index(packages, blob, offsets, owners);
    if |Concat(claims)| < U32 {
      forall i | 0 <= i <= |claims| ensures ix.offsets[i] == |Concat(claims[..i])| {
        ConcatPrefix(claims, i);
      }
      PackedClaims(ix, claims);
    }
  }

  lemma {:induction false} DedupMembers(claims: seq<Claim>, c: Claim)
    requires c in Dedup(claims)
    ensures c in claims
    decreases |claims|
  {
    if |claims| > 1 {
      if claims[0].path == claims[1].path {
        DedupMembers([claims[0]] + claims[2..], c);
      } else if c != claims[0] {
        DedupMembers(claims[1..], c);
      }
    }
  }

  lemma BuiltOwners(claims: seq<Claim>, n: nat, i: nat)
    requires (forall j :: 0 <= j < |claims| ==> claims[j].owner < n) && i < |Dedup(Sorted(claims))|
    ensures Dedup(Sorted(claims))[i].owner < n
  {
    var c := Dedup(Sorted(claims))[i];
    DedupMembers(Sorted(claims), c);
    SortedKeeps(claims, []);
    assert c in multiset(Sorted(claims));
  }

  /** Sorts the claims, keeps the first to every path, and packs them. */
  method Build(packages: seq<(seq<byte>, seq<byte>)>, claims: seq<Claim>) returns (ix: Index)
    requires |packages| <= U32 && forall i :: 0 <= i < |claims| ==> claims[i].owner < |packages|
    ensures ix.packages == packages
    ensures |Concat(Dedup(Sorted(claims)))| < U32 ==> Shaped(ix) && Claims(ix) == Dedup(Sorted(claims))
  {
    forall i | 0 <= i < |Dedup(Sorted(claims))| ensures Dedup(Sorted(claims))[i].owner < |packages| {
      BuiltOwners(claims, |packages|, i);
    }
    ix := Pack(packages, Dedup(Sorted(claims)));
  }

  /** The index answers every lookup as the plain map of first claims does. */
  lemma IndexAgrees(ix: Index, claims: seq<Claim>, path: Path)
    requires Shaped(ix) && Claims(ix) == Dedup(Sorted(claims))
    ensures StrictlyAscending(Claims(ix)) && FirstClaim(Claims(ix), path) == FirstClaim(claims, path)
  {
    SortedKeeps(claims, path);
    DedupStrict(Sorted(claims));
    DedupFirst(Sorted(claims), path);
  }

  /** Builds an index and looks a path up in it. */
  method Owner(packages: seq<(seq<byte>, seq<byte>)>, claims: seq<Claim>, path: Path) returns (r: Option<nat>)
    requires |packages| <= U32 && forall i :: 0 <= i < |claims| ==> claims[i].owner < |packages|
    requires |Concat(Dedup(Sorted(claims)))| < U32
    ensures r == FirstClaim(claims, path)
  {
    var ix := Build(packages, claims);
    IndexAgrees(ix, claims, path);
    r := Find(ix, path);
  }
}
