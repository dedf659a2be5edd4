/** The on-disk cache of the package index. */
module DpkgCache {
  import opened Wrappers
  import opened Hashing
  import opened Cbor
  import opened CborProofs
  import opened BigEndian
  import opened DpkgIndex

  const MAGIC: seq<byte> := [0x4a, 0x4c, 0x52, 0x44, 0x50, 0x4b, 0x47, 0x31]

  type Package = (seq<byte>, seq<byte>)

  // ----- Little-endian integers -----

  function Le(v: nat, w: nat): (s: seq<byte>)
    ensures |s| == w
  {
    if w == 0 then [] else [v % 256] + Le(v / 256, w - 1)
  }

  function FromLe(s: seq<byte>): (v: nat)
    ensures v < Range(|s|)
  {
    if s == [] then 0 else s[0] + 256 * FromLe(s[1..])
  }

  lemma {:induction false} FromLeOfLe(v: nat, w: nat)
    requires v < Range(w)
    ensures FromLe(Le(v, w)) == v
  {
    if w > 0 {
      FromLeOfLe(v / 256, w - 1);
      assert Le(v, w)[1..] == Le(v / 256, w - 1);
    }
  }

  lemma {:induction false} LeOfFromLe(s: seq<byte>)
    ensures Le(FromLe(s), |s|) == s
  {
    if s != [] {
      LeOfFromLe(s[1..]);
      assert FromLe(s) / 256 == FromLe(s[1..]) && FromLe(s) % 256 == s[0];
      assert s == [s[0]] + s[1..];
    }
  }

  // ----- The format -----

  function PackageBytes(p: Package): seq<byte> {
    Le(|p.0|, 2) + Le(|p.1|, 2) + p.0 + p.1
  }

  function PackagesBytes(ps: seq<Package>): seq<byte> {
    if ps == [] then [] else PackageBytes(ps[0]) + PackagesBytes(ps[1..])
  }

  function NumbersBytes(ns: seq<u32>): seq<byte> {
    if ns == [] then [] else Le(ns[0], 4) + NumbersBytes(ns[1..])
  }

  /** What is written for an index derived from files with this fingerprint. */
  function CacheBytes(ix: Index, fp: Digest): seq<byte> {
    MAGIC + (fp + (Le(|ix.packages|, 4) + (PackagesBytes(ix.packages) + (Le(|ix.owners|, 4) +
    (NumbersBytes(ix.offsets) + (NumbersBytes(ix.owners) + ix.blob))))))
  }

  // ----- Reading it back -----

  /** A value and the bytes after it. */
  datatype Read<T> = Read(value: T, rest: seq<byte>)

  function ReadBytes(data: seq<byte>, n: nat): (r: Option<Read<seq<byte>>>)
    ensures r.Some? ==> |r.value.value| == n
  {
    if n <= |data| then Some(Read(data[..n], data[n..])) else None
  }

  function ReadNumber(data: seq<byte>, w: nat): (r: Option<Read<nat>>)
    ensures r.Some? ==> r.value.value < Range(w)
  {
    var b := ReadBytes(data, w);
    if b.None? then None else Some(Read(FromLe(b.value.value), b.value.rest))
  }

  function ReadText(data: seq<byte>, n: nat): Option<Read<seq<byte>>> {
    var b := ReadBytes(data, n);
    if b.None? || !ValidUtf8(b.value.value) then None else b
  }

  function ReadTexts(data: seq<byte>, n: nat, v: nat): Option<Read<Package>> {
    var name := ReadText(data, n);
    if name.None? then None else
      var version := ReadText(name.value.rest, v);
      if version.None? then None else Some(Read((name.value.value, version.value.value), version.value.rest))
  }

  function ReadPackage(data: seq<byte>): Option<Read<Package>> {
    var n := ReadNumber(data, 2);
    if n.None? then None else
      var v := ReadNumber(n.value.rest, 2);
      if v.None? then None else ReadTexts(v.value.rest, n.value.value, v.value.value)
  }

  function ReadPackages(data: seq<byte>, n: nat): Option<Read<seq<Package>>> {
    if n == 0 then Some(Read([], data)) else
      var p := ReadPackage(data);
      if p.None? then None else
        var ps := ReadPackages(p.value.rest, n - 1);
        if ps.None? then None else Some(Read([p.value.value] + ps.value.value, ps.value.rest))
  }

  function ReadNumbers(data: seq<byte>, n: nat): Option<Read<seq<u32>>> {
    if n == 0 then Some(Read([], data)) else
      var v := ReadNumber(data, 4);
      if v.None? then None else
        Ranges();
        var vs := ReadNumbers(v.value.rest, n - 1);
        if vs.None? then None else Some(Read([v.value.value] + vs.value.value, vs.value.rest))
  }

  function ReadHeader(data: seq<byte>, fp: Digest): Option<seq<byte>> {
    if MAGIC + fp <= data then Some(data[40..]) else None
  }

  function ReadPaths(packages: seq<Package>, data: seq<byte>): Option<Index> {
    var n := ReadNumber(data, 4);
    if n.None? then None else
      var offsets := ReadNumbers(n.value.rest, n.value.value + 1);
      if offsets.None? then None else
        var owners := ReadNumbers(offsets.value.rest, n.value.value);
        if owners.None? then None else
          var ix := Index(packages, owners.value.rest, offsets.value.value, owners.value.value);
          if Shaped(ix) then Some(ix) else None
  }

  /** The index in a cache, if it is one for this fingerprint. */
  function ParseCache(data: seq<byte>, fp: Digest): Option<Index> {
    var body := ReadHeader(data, fp);
    if body.None? then None else
      var n := ReadNumber(body.value, 4);
      if n.None? then None else
        var packages := ReadPackages(n.value.rest, n.value.value);
        if packages.None? then None else ReadPaths(packages.value.value, packages.value.rest)
  }

  // ----- Exactness -----

  predicate PackageFits(p: Package) {
    |p.0| < 0x1_0000 && |p.1| < 0x1_0000 && ValidUtf8(p.0) && ValidUtf8(p.1)
  }

  predicate AllFit(ps: seq<Package>) {
    forall i :: 0 <= i < |ps| ==> PackageFits(ps[i])
  }

  lemma ConsFits(p: Package, ps: seq<Package>)
    requires PackageFits(p) && AllFit(ps)
    ensures AllFit([p] + ps) && PackagesBytes([p] + ps) == PackageBytes(p) + PackagesBytes(ps)
  {
    var all := [p] + ps;
    assert all[1..] == ps;
    forall i | 0 <= i < |all| ensures PackageFits(all[i]) {
      assert i > 0 ==> all[i] == ps[i - 1];
    }
  }

  lemma UnconsFits(ps: seq<Package>)
    requires AllFit(ps) && ps != []
    ensures PackageFits(ps[0]) && AllFit(ps[1..])
  {
    var rest := ps[1..];
    forall i | 0 <= i < |rest| ensures PackageFits(rest[i]) {
      assert rest[i] == ps[i + 1];
    }
  }

  /** The index's lengths fit their fields. */
  predicate Fits(ix: Index) {
    && Shaped(ix) && |ix.packages| < U32 && |ix.owners| < U32
    && AllFit(ix.packages)
  }

  lemma Assoc4(a: seq<byte>, b: seq<byte>, c: seq<byte>, d: seq<byte>, e: seq<byte>)
    ensures a + b + c + d + e == a + (b + (c + (d + e)))
  {
  }

  lemma ReadsNumber(v: nat, w: nat, rest: seq<byte>)
    requires v < Range(w)
    ensures ReadNumber(Le(v, w) + rest, w) == Some(Read(v, rest))
  {
    FromLeOfLe(v, w);
    assert (Le(v, w) + rest)[..w] == Le(v, w) && (Le(v, w) + rest)[w..] == rest;
  }

  lemma NumberRead(data: seq<byte>, w: nat)
    requires ReadNumber(data, w).Some?
    ensures data == Le(ReadNumber(data, w).value.value, w) + ReadNumber(data, w).value.rest
  {
    LeOfFromLe(data[..w]);
  }

  lemma ReadsText(b: seq<byte>, rest: seq<byte>)
    requires ValidUtf8(b)
    ensures ReadText(b + rest, |b|) == Some(Read(b, rest))
  {
    assert (b + rest)[..|b|] == b && (b + rest)[|b|..] == rest;
  }

  lemma TextRead(data: seq<byte>, n: nat)
    requires ReadText(data, n).Some?
    ensures var r := ReadText(data, n).value;
            |r.value| == n && ValidUtf8(r.value) && data == r.value + r.rest
  {
  }

  lemma ReadsTexts(p: Package, rest: seq<byte>)
    requires PackageFits(p)
    ensures ReadTexts(p.0 + (p.1 + rest), |p.0|, |p.1|) == Some(Read(p, rest))
  {
    ReadsText(p.0, p.1 + rest);
    ReadsText(p.1, rest);
  }

  lemma TextsRead(data: seq<byte>, n: nat, v: nat)
    requires ReadTexts(data, n, v).Some? && n < 0x1_0000 && v < 0x1_0000
    ensures var r := ReadTexts(data, n, v).value;
            PackageFits(r.value) && |r.value.0| == n && |r.value.1| == v && data == r.value.0 + (r.value.1 + r.rest)
  {
    TextRead(data, n);
    TextRead(ReadText(data, n).value.rest, v);
  }

  lemma ReadsPackage(p: Package, rest: seq<byte>)
    requires PackageFits(p)
    ensures ReadPackage(PackageBytes(p) + rest) == Some(Read(p, rest))
  {
    Ranges();
    var tail := p.0 + (p.1 + rest);
    Assoc4(Le(|p.0|, 2), Le(|p.1|, 2), p.0, p.1, rest);
    ReadsNumber(|p.0|, 2, Le(|p.1|, 2) + tail);
    ReadsNumber(|p.1|, 2, tail);
    ReadsTexts(p, rest);
  }

  lemma PackageRead(data: seq<byte>)
    requires ReadPackage(data).Some?
    ensures var r := ReadPackage(data).value;
            StartsWith(data, r.value, r.rest)
  {
    Ranges();
    NumberRead(data, 2);
    var n := ReadNumber(data, 2).value;
    NumberRead(n.rest, 2);
    var v := ReadNumber(n.rest, 2).value;
    TextsRead(v.rest, n.value, v.value);
    var r := ReadPackage(data).value;
    Assoc4(Le(n.value, 2), Le(v.value, 2), r.value.0, r.value.1, r.rest);
  }

  lemma ReadsOneMore(p: Package, ps: seq<Package>, rest: seq<byte>)
    requires PackageFits(p) && ReadPackages(PackagesBytes(ps) + rest, |ps|) == Some(Read(ps, rest))
    ensures ReadPackages(PackagesBytes([p] + ps) + rest, |ps| + 1) == Some(Read([p] + ps, rest))
  {
    assert ([p] + ps)[1..] == ps;
    Assoc(PackageBytes(p), PackagesBytes(ps), rest);
    ReadsPackage(p, PackagesBytes(ps) + rest);
  }

  lemma {:induction false} ReadsPackages(ps: seq<Package>, rest: seq<byte>)
    requires AllFit(ps)
    ensures ReadPackages(PackagesBytes(ps) + rest, |ps|) == Some(Read(ps, rest))
    decreases |ps|
  {
    if ps == [] {
      assert PackagesBytes(ps) + rest == rest;
    } else {
      UnconsFits(ps);
      ReadsPackages(ps[1..], rest);
      ReadsOneMore(ps[0], ps[1..], rest);
      assert ps == [ps[0]] + ps[1..];
    }
  }

  /** `data` starts with a package that fits, and continues with `rest`. */
  predicate StartsWith(data: seq<byte>, p: Package, rest: seq<byte>) {
    PackageFits(p) && data == PackageBytes(p) + rest
  }

  predicate StartsWithAll(data: seq<byte>, ps: seq<Package>, rest: seq<byte>) {
    AllFit(ps) && data == PackagesBytes(ps) + rest
  }

  lemma PackageThenRest(data: seq<byte>, p: Package, mid: seq<byte>, ps: seq<Package>, rest: seq<byte>)
    requires StartsWith(data, p, mid) && StartsWithAll(mid, ps, rest)
    ensures StartsWithAll(data, [p] + ps, rest)
  {
    ConsFits(p, ps);
    Assoc(PackageBytes(p), PackagesBytes(ps), rest);
  }

  lemma {:induction false} PackagesRead(data: seq<byte>, n: nat)
    requires ReadPackages(data, n).Some?
    ensures var r := ReadPackages(data, n).value;
            |r.value| == n && StartsWithAll(data, r.value, r.rest)
    decreases n
  {
    if n == 0 {
      assert [] + data == data;
    } else {
      PackageRead(data);
      var p := ReadPackage(data).value;
      PackagesRead(p.rest, n - 1);
      var ps := ReadPackages(p.rest, n - 1).value;
      PackageThenRest(data, p.value, p.rest, ps.value, ps.rest);
    }
  }

  lemma {:induction false} ReadsNumbers(ns: seq<u32>, rest: seq<byte>)
    ensures ReadNumbers(NumbersBytes(ns) + rest, |ns|) == Some(Read(ns, rest))
    decreases |ns|
  {
    if ns == [] {
      assert NumbersBytes(ns) + rest == rest;
    } else {
      Ranges();
      Assoc(Le(ns[0], 4), NumbersBytes(ns[1..]), rest);
      ReadsNumber(ns[0], 4, NumbersBytes(ns[1..]) + rest);
      ReadsNumbers(ns[1..], rest);
      assert ns == [ns[0]] + ns[1..];
    }
  }

  lemma {:induction false} NumbersRead(data: seq<byte>, n: nat)
    requires ReadNumbers(data, n).Some?
    ensures var r := ReadNumbers(data, n).value;
            |r.value| == n && data == NumbersBytes(r.value) + r.rest
    decreases n
  {
    if n > 0 {
      Ranges();
      NumberRead(data, 4);
      var v := ReadNumber(data, 4).value;
      NumbersRead(v.rest, n - 1);
      var vs := ReadNumbers(v.rest, n - 1).value;
      assert ([v.value] + vs.value)[1..] == vs.value;
      Assoc(Le(v.value, 4), NumbersBytes(vs.value), vs.rest);
    }
  }

  function PathsBytes(ix: Index): seq<byte> {
    Le(|ix.owners|, 4) + (NumbersBytes(ix.offsets) + (NumbersBytes(ix.owners) + ix.blob))
  }

  lemma ReadsPaths(ix: Index)
    requires Fits(ix)
    ensures ReadPaths(ix.packages, PathsBytes(ix)) == Some(ix)
  {
    Ranges();
    ReadsNumber(|ix.owners|, 4, NumbersBytes(ix.offsets) + (NumbersBytes(ix.owners) + ix.blob));
    ReadsNumbers(ix.offsets, NumbersBytes(ix.owners) + ix.blob);
    ReadsNumbers(ix.owners, ix.blob);
  }

  lemma PathsRead(packages: seq<Package>, data: seq<byte>)
    requires ReadPaths(packages, data).Some?
    ensures var ix := ReadPaths(packages, data).value;
            ix.packages == packages && Shaped(ix) && |ix.owners| < U32 && data == PathsBytes(ix)
  {
    Ranges();
    NumberRead(data, 4);
    var n := ReadNumber(data, 4).value;
    NumbersRead(n.rest, n.value + 1);
    var offsets := ReadNumbers(n.rest, n.value + 1).value;
    NumbersRead(offsets.rest, n.value);
  }

  lemma HeaderRead(fp: Digest, body: seq<byte>)
    ensures ReadHeader(MAGIC + (fp + body), fp) == Some(body)
  {
    assert MAGIC + (fp + body) == MAGIC + fp + body;
  }

  lemma HeaderIs(data: seq<byte>, fp: Digest)
    requires ReadHeader(data, fp).Some?
    ensures data == MAGIC + (fp + ReadHeader(data, fp).value)
  {
    assert data == (MAGIC + fp) + data[40..];
  }

  /** A cache reads back as the index that was written, whenever its lengths fit their fields. */
  lemma CacheRoundTrip(ix: Index, fp: Digest)
    requires Fits(ix)
    ensures ParseCache(CacheBytes(ix, fp), fp) == Some(ix)
  {
    Ranges();
    var rest := PackagesBytes(ix.packages) + PathsBytes(ix);
    HeaderRead(fp, Le(|ix.packages|, 4) + rest);
    ReadsNumber(|ix.packages|, 4, rest);
    ReadsPackages(ix.packages, PathsBytes(ix));
    ReadsPaths(ix);
  }

  /** Whatever is accepted is exactly what would be written for the index it yields. */
  lemma CacheIsExact(data: seq<byte>, fp: Digest)
    requires ParseCache(data, fp).Some?
    ensures var ix := ParseCache(data, fp).value;
            Fits(ix) && data == CacheBytes(ix, fp)
  {
    Ranges();
    HeaderIs(data, fp);
    var body := ReadHeader(data, fp).value;
    NumberRead(body, 4);
    var n := ReadNumber(body, 4).value;
    PackagesRead(n.rest, n.value);
    var packages := ReadPackages(n.rest, n.value).value;
    PathsRead(packages.value, packages.rest);
  }

  // ----- The program -----

  /** Items read so far, and what reading the others gives. */
  function Then<T>(done: seq<T>, r: Option<Read<seq<T>>>): Option<Read<seq<T>>> {
    if r.None? then None else Some(Read(done + r.value.value, r.value.rest))
  }

  lemma ThenNext<T>(done: seq<T>, x: T, r: Option<Read<seq<T>>>)
    ensures Then(done, Then([x], r)) == Then(done + [x], r)
  {
    if r.Some? {
      assert done + ([x] + r.value.value) == done + [x] + r.value.value;
    }
  }

  lemma ThenNothing<T>(r: Option<Read<seq<T>>>)
    ensures Then([], r) == r
  {
    if r.Some? {
      assert [] + r.value.value == r.value.value;
    }
  }

  class Reader {
    const data: seq<byte>
    var pos: nat

    ghost predicate Valid()
      reads this
    {
      pos <= |data|
    }

    ghost function Rest(): seq<byte>
      requires Valid()
      reads this
    {
      data[pos..]
    }

    constructor (data: seq<byte>, pos: nat)
      requires pos <= |data|
      ensures Valid() && Rest() == data[pos..] && this.data == data
    {
      this.data, this.pos := data, pos;
    }

    method Take(n: nat) returns (r: Option<seq<byte>>)
      requires Valid()
      modifies this
      ensures Valid()
      ensures r == if ReadBytes(old(Rest()), n).Some? then Some(ReadBytes(old(Rest()), n).value.value) else None
      ensures r.Some? ==> Rest() == ReadBytes(old(Rest()), n).value.rest
    {
      if pos + n > |data| {
        return None;
      }
      r := Some(data[pos..pos + n]);
      assert data[pos..][..n] == data[pos..pos + n] && data[pos..][n..] == data[pos + n..];
      pos := pos + n;
    }

    method Number(w: nat) returns (r: Option<nat>)
      requires Valid()
      modifies this
      ensures Valid()
      ensures r == if ReadNumber(old(Rest()), w).Some? then Some(ReadNumber(old(Rest()), w).value.value) else None
      ensures r.Some? ==> Rest() == ReadNumber(old(Rest()), w).value.rest
    {
      var b := Take(w);
      r := if b.None? then None else Some(FromLe(b.value));
    }

    method Text(n: nat) returns (r: Option<seq<byte>>)
      requires Valid()
      modifies this
      ensures Valid()
      ensures r == if ReadText(old(Rest()), n).Some? then Some(ReadText(old(Rest()), n).value.value) else None
      ensures r.Some? ==> Rest() == ReadText(old(Rest()), n).value.rest
    {
      var b := Take(n);
      r := if b.None? || !ValidUtf8(b.value) then None else b;
    }

    method Texts(n: nat, v: nat) returns (r: Option<Package>)
      requires Valid()
      modifies this
      ensures Valid()
      ensures r == if ReadTexts(old(Rest()), n, v).Some? then Some(ReadTexts(old(Rest()), n, v).value.value) else None
      ensures r.Some? ==> Rest() == ReadTexts(old(Rest()), n, v).value.rest
    {
      var name := Text(n);
      if name.None? {
        return None;
      }
      var version := Text(v);
      r := if version.None? then None else Some((name.value, version.value));
    }

    method OnePackage() returns (r: Option<Package>)
      requires Valid()
      modifies this
      ensures Valid()
      ensures r == if ReadPackage(old(Rest())).Some? then Some(ReadPackage(old(Rest())).value.value) else None
      ensures r.Some? ==> Rest() == ReadPackage(old(Rest())).value.rest
    {
      var n := Number(2);
      if n.None? {
        return None;
      }
      var v := Number(2);
      if v.None? {
        return None;
      }
      r := Texts(n.value, v.value);
    }

    method Packages(n: nat) returns (r: Option<seq<Package>>)
      requires Valid()
      modifies this
      ensures Valid()
      ensures r == if ReadPackages(old(Rest()), n).Some? then Some(ReadPackages(old(Rest()), n).value.value) else None
      ensures r.Some? ==> Rest() == ReadPackages(old(Rest()), n).value.rest
    {
      var packages: seq<Package> := [];
      ThenNothing(ReadPackages(Rest(), n));
      for i := 0 to n
        invariant Valid() && ReadPackages(old(Rest()), n) == Then(packages, ReadPackages(Rest(), n - i))
      {
        ghost var before := Rest();
        var p := OnePackage();
        if p.None? {
          return None;
        }
        assert ReadPackages(before, n - i) == Then([p.value], ReadPackages(Rest(), n - i - 1));
        ThenNext(packages, p.value, ReadPackages(Rest(), n - i - 1));
        packages := packages + [p.value];
        assert ReadPackages(old(Rest()), n) == Then(packages, ReadPackages(Rest(), n - i - 1));
      }
      assert packages + [] == packages;
      r := Some(packages);
    }

    /** Reads numbers, stopping at one that is not below `limit`. */
    method Numbers(n: nat, limit: nat) returns (r: Option<seq<u32>>)
      requires Valid()
      modifies this
      ensures Valid()
      ensures r.Some? <==> ReadNumbers(old(Rest()), n).Some? && Below(ReadNumbers(old(Rest()), n).value.value, limit)
      ensures r.Some? ==>
                r.value == ReadNumbers(old(Rest()), n).value.value && Rest() == ReadNumbers(old(Rest()), n).value.rest
    {
      Ranges();
      var ns: seq<u32> := [];
      ThenNothing(ReadNumbers(Rest(), n));
      for i := 0 to n
        invariant Valid() && |ns| == i && Below(ns, limit)
        invariant ReadNumbers(old(Rest()), n) == Then(ns, ReadNumbers(Rest(), n - i))
      {
        ghost var before := Rest();
        var v := Number(4);
        if v.None? {
          return None;
        }
        assert ReadNumbers(before, n - i) == Then([v.value], ReadNumbers(Rest(), n - i - 1));
        ThenNext(ns, v.value, ReadNumbers(Rest(), n - i - 1));
        if v.value >= limit {
          NotBelow(ns, v.value, ReadNumbers(Rest(), n - i - 1), limit);
          return None;
        }
        ns := ns + [v.value];
      }
      assert ns + [] == ns;
      r := Some(ns);
    }
  }

  predicate Below(ns: seq<u32>, limit: nat) {
    forall i :: 0 <= i < |ns| ==> ns[i] < limit
  }

  lemma NotBelow(done: seq<u32>, v: u32, r: Option<Read<seq<u32>>>, limit: nat)
    requires v >= limit
    ensures Then(done + [v], r).Some? ==> !Below(Then(done + [v], r).value.value, limit)
  {
    if r.Some? {
      assert (done + [v] + r.value.value)[|done|] == v;
    }
  }

  /** Accepts an index whose offsets ascend from zero to the end of the blob. */
  method Checked(ix: Index) returns (r: Option<Index>)
    requires |ix.offsets| == |ix.owners| + 1 && Below(ix.owners, |ix.packages|)
    ensures r == if Shaped(ix) then Some(ix) else None
  {
    if ix.offsets[0] != 0 || ix.offsets[|ix.owners|] != |ix.blob| ||
       exists i :: 0 <= i < |ix.owners| && ix.offsets[i] > ix.offsets[i + 1] {
      return None;
    }
    r := Some(ix);
  }

  lemma LimitsOwners(packages: seq<Package>, blob: seq<byte>, offsets: seq<u32>, owners: seq<u32>)
    requires !Below(owners, |packages|)
    ensures !Shaped(Index(packages, blob, offsets, owners))
  {
  }

  /** Reads the part after the packages. */
  method ReadPathPart(packages: seq<Package>, reader: Reader) returns (r: Option<Index>)
    requires reader.Valid()
    modifies reader
    ensures r == ReadPaths(packages, old(reader.Rest()))
  {
    Ranges();
    var n := reader.Number(4);
    if n.None? {
      return None;
    }
    ghost var rest := reader.Rest();
    var offsets := reader.Numbers(n.value + 1, U32);
    if offsets.None? {
      return None;
    }
    NumbersRead(rest, n.value + 1);
    rest := reader.Rest();
    var owners := reader.Numbers(n.value, |packages|);
    if owners.None? {
      if ReadNumbers(rest, n.value).Some? {
        var numbers := ReadNumbers(rest, n.value).value;
        LimitsOwners(packages, numbers.rest, offsets.value, numbers.value);
      }
      return None;
    }
    NumbersRead(rest, n.value);
    r := Checked(Index(packages, reader.data[reader.pos..], offsets.value, owners.value));
  }

  lemma HeaderParts(data: seq<byte>, fp: Digest)
    requires |data| >= 40
    ensures MAGIC + fp <= data <==> data[..8] == MAGIC && data[8..40] == fp
  {
    assert data[..40] == data[..8] + data[8..40];
    assert (MAGIC + fp)[..8] == MAGIC && (MAGIC + fp)[8..] == fp;
  }

  /** Reads a cache; on any bytes it yields an index of the right shape, or none. */
  method ReadCache(data: seq<byte>, fp: Digest) returns (r: Option<Index>)
    ensures r == ParseCache(data, fp)
    ensures r.Some? ==> Shaped(r.value)
  {
    if |data| < 40 {
      return None;
    }
    HeaderParts(data, fp);
    if data[..8] != MAGIC || data[8..40] != fp {
      return None;
    }
    var reader := new Reader(data, 40);
    var n := reader.Number(4);
    if n.None? {
      return None;
    }
    var packages := reader.Packages(n.value);
    if packages.None? {
      return None;
    }
    r := ReadPathPart(packages.value, reader);
  }

  lemma NumbersNext(ns: seq<u32>, i: nat)
    requires i < |ns|
    ensures NumbersBytes(ns[..i + 1]) == NumbersBytes(ns[..i]) + Le(ns[i], 4)
    decreases i
  {
    if i == 0 {
      assert ns[..1][1..] == [] && ns[..0] == [];
    } else {
      NumbersNext(ns[1..], i - 1);
      assert ns[..i + 1][1..] == ns[1..][..i] && ns[..i][1..] == ns[1..][..i - 1];
      Assoc(Le(ns[0], 4), NumbersBytes(ns[1..][..i - 1]), Le(ns[i], 4));
    }
  }

  lemma PackagesNext(ps: seq<Package>, i: nat)
    requires i < |ps|
    ensures PackagesBytes(ps[..i + 1]) == PackagesBytes(ps[..i]) + PackageBytes(ps[i])
    decreases i
  {
    if i == 0 {
      assert ps[..1][1..] == [] && ps[..0] == [];
    } else {
      PackagesNext(ps[1..], i - 1);
      assert ps[..i + 1][1..] == ps[1..][..i] && ps[..i][1..] == ps[1..][..i - 1];
      Assoc(PackageBytes(ps[0]), PackagesBytes(ps[1..][..i - 1]), PackageBytes(ps[i]));
    }
  }

  lemma Nested(a: seq<byte>, b: seq<byte>, c: seq<byte>, d: seq<byte>, e: seq<byte>, f: seq<byte>, g: seq<byte>,
               h: seq<byte>)
    ensures a + b + c + d + e + f + g + h == a + (b + (c + (d + (e + (f + (g + h))))))
  {
    Assoc4(a + b + c + d, e, f, g, h);
    Assoc4(a, b, c, d, e + (f + (g + h)));
  }

  method WriteNumbers(out: seq<byte>, ns: seq<u32>) returns (after: seq<byte>)
    ensures after == out + NumbersBytes(ns)
  {
    after := out;
    for i := 0 to |ns|
      invariant after == out + NumbersBytes(ns[..i])
    {
      NumbersNext(ns, i);
      Assoc(out, NumbersBytes(ns[..i]), Le(ns[i], 4));
      after := after + Le(ns[i], 4);
    }
    assert ns[..|ns|] == ns;
  }

  method WritePackages(out: seq<byte>, ps: seq<Package>) returns (after: seq<byte>)
    ensures after == out + PackagesBytes(ps)
  {
    after := out;
    for i := 0 to |ps|
      invariant after == out + PackagesBytes(ps[..i])
    {
      PackagesNext(ps, i);
      Assoc(out, PackagesBytes(ps[..i]), PackageBytes(ps[i]));
      after := after + PackageBytes(ps[i]);
    }
    assert ps[..|ps|] == ps;
  }

  /** Writes the cache; `Le` keeps the low bytes of a length that does not fit. */
  method WriteCache(ix: Index, fp: Digest) returns (out: seq<byte>)
    ensures out == CacheBytes(ix, fp)
    ensures Fits(ix) ==> ParseCache(out, fp) == Some(ix)
  {
    out := MAGIC;
    out := out + fp;
    out := out + Le(|ix.packages|, 4);
    out := WritePackages(out, ix.packages);
    out := out + Le(|ix.owners|, 4);
    out := WriteNumbers(out, ix.offsets);
    out := WriteNumbers(out, ix.owners);
    out := out + ix.blob;
    Nested(MAGIC, fp, Le(|ix.packages|, 4), PackagesBytes(ix.packages), Le(|ix.owners|, 4), NumbersBytes(ix.offsets),
           NumbersBytes(ix.owners), ix.blob);
    if Fits(ix) {
      CacheRoundTrip(ix, fp);
    }
  }
}
