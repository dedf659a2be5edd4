/**
 The profile in terms of bytes: what the heads are, which equations determine the encoding, and in which order the
 keys of a map stand.
 */
module CborWire {
  import opened Wrappers
  import opened Hashing
  import opened BigEndian
  import opened Cbor
  import opened CborProofs
  import opened CborRecord

  // ----- The bytewise order -----

  /** `a` and `b` agree on the first `n` bytes, where `a` ends or has the smaller byte. */
  predicate LessFrom(a: seq<byte>, b: seq<byte>, n: nat) {
    n <= |a| && n < |b| && a[..n] == b[..n] && (n == |a| || a[n] < b[n])
  }

  lemma {:induction false} LessAt(a: seq<byte>, b: seq<byte>) returns (n: nat)
    requires Less(a, b)
    ensures LessFrom(a, b, n)
    decreases |a|
  {
    if a == [] || a[0] < b[0] {
      n := 0;
    } else {
      n := LessAt(a[1..], b[1..]);
      n := n + 1;
      assert a[..n] == [a[0]] + a[1..][..n - 1] && b[..n] == [b[0]] + b[1..][..n - 1];
    }
  }

  lemma {:induction false} LessFromIsLess(a: seq<byte>, b: seq<byte>, n: nat)
    requires LessFrom(a, b, n)
    ensures Less(a, b)
    decreases n
  {
    if n > 0 {
      assert a[..n][0] == b[..n][0];
      assert a[1..][..n - 1] == a[..n][1..] && b[1..][..n - 1] == b[..n][1..];
      LessFromIsLess(a[1..], b[1..], n - 1);
    }
  }

  /** The order is lexicographic: it is decided by the first byte that differs, or by a shorter string ending first. */
  lemma LessIff(a: seq<byte>, b: seq<byte>)
    ensures Less(a, b) <==> exists n: nat :: LessFrom(a, b, n)
  {
    if Less(a, b) {
      var n := LessAt(a, b);
    }
    forall n: nat | LessFrom(a, b, n) ensures Less(a, b) {
      LessFromIsLess(a, b, n);
    }
  }

  lemma {:induction false} LessAppend(a: seq<byte>, b: seq<byte>, x: seq<byte>, y: seq<byte>)
    requires |a| == |b| && Less(a, b)
    ensures Less(a + x, b + y)
    decreases |a|
  {
    if a[0] == b[0] {
      assert (a + x)[1..] == a[1..] + x && (b + y)[1..] == b[1..] + y;
      LessAppend(a[1..], b[1..], x, y);
    }
  }

  lemma {:induction false} LessAfter(a: seq<byte>, x: seq<byte>, y: seq<byte>)
    requires Less(x, y)
    ensures Less(a + x, a + y)
    decreases |a|
  {
    if a == [] {
      assert a + x == x && a + y == y;
    } else {
      assert (a + x)[1..] == a[1..] + x && (a + y)[1..] == a[1..] + y;
      LessAfter(a[1..], x, y);
    }
  }

  /** Big-endian numbers of one width are ordered as numbers. */
  lemma {:induction false} BeOrder(a: nat, b: nat, w: nat)
    requires a < b < Range(w)
    ensures Less(Be(a, w), Be(b, w))
    decreases w
  {
    if a / 256 < b / 256 {
      BeOrder(a / 256, b / 256, w - 1);
      LessAppend(Be(a / 256, w - 1), Be(b / 256, w - 1), [a % 256], [b % 256]);
    } else {
      LessAfter(Be(a / 256, w - 1), [a % 256], [b % 256]);
    }
  }

  lemma UintsInOrder(a: u64, b: u64)
    requires a < b
    ensures Less(Encode(Uint(a)), Encode(Uint(b)))
  {
    Ranges();
    if ShortestInfo(a) == ShortestInfo(b) >= 24 {
      BeOrder(a, b, Width(ShortestInfo(a)));
      LessAfter([ShortestInfo(a)], Be(a, Width(ShortestInfo(a))), Be(b, Width(ShortestInfo(b))));
    }
  }

  /** Unsigned keys are ordered as numbers. */
  lemma UintOrder(a: u64, b: u64)
    ensures Less(Encode(Uint(a)), Encode(Uint(b))) <==> a < b
  {
    if a < b {
      UintsInOrder(a, b);
    } else if Less(Encode(Uint(a)), Encode(Uint(b))) {
      if a == b {
        LessIrreflexive(Encode(Uint(a)));
      } else {
        UintsInOrder(b, a);
        LessTransitive(Encode(Uint(a)), Encode(Uint(b)), Encode(Uint(a)));
        LessIrreflexive(Encode(Uint(a)));
      }
    }
  }

  /** Unsigned keys stand in ascending order. */
  predicate Ascending(entries: seq<Entry>) {
    forall i, j :: 0 <= i < j < |entries| && entries[i].key.Uint? && entries[j].key.Uint? ==>
      entries[i].key.n < entries[j].key.n
  }

  lemma {:induction false} KeysInOrder(entries: seq<Entry>, j: nat)
    requires WellFormedEntries(entries) && 0 < j < |entries|
    ensures Less(entries[0].keyBytes, entries[j].keyBytes) && entries[j].keyBytes == Encode(entries[j].key)
    decreases |entries|
  {
    if j > 1 {
      KeysInOrder(entries[1..], j - 1);
      LessTransitive(entries[0].keyBytes, entries[1].keyBytes, entries[j].keyBytes);
    }
  }

  /** The keys of every well-formed map ascend; decoding and building yield no other maps. */
  lemma {:induction false} KeysAscend(entries: seq<Entry>)
    requires WellFormedEntries(entries)
    ensures Ascending(entries)
    decreases |entries|
  {
    if entries != [] {
      KeysAscend(entries[1..]);
      forall i, j | 0 <= i < j < |entries| && entries[i].key.Uint? && entries[j].key.Uint?
        ensures entries[i].key.n < entries[j].key.n
      {
        if i == 0 {
          KeysInOrder(entries, j);
          UintOrder(entries[0].key.n, entries[j].key.n);
        } else {
          assert entries[i] == entries[1..][i - 1] && entries[j] == entries[1..][j - 1];
        }
      }
    }
  }

  // ----- Heads, byte by byte -----

  /** The number that bytes stand for. */
  function Two(a: byte, b: byte): nat {
    0x100 * a + b
  }

  function Four(a: byte, b: byte, c: byte, d: byte): nat {
    a * 0x100_0000 + b * 0x1_0000 + c * 0x100 + d
  }

  /** The shortest head of section 3 of RFC 8949: the major type in three bits, and the argument. */
  predicate HeadFor(major: nat, n: nat, s: seq<byte>)
    requires major < 8
  {
    if n < 24 then s == [major * 32 + n]
    else if n < 0x100 then s == [major * 32 + 24, n]
    else if n < 0x1_0000 then |s| == 3 && s[0] == major * 32 + 25 && Two(s[1], s[2]) == n
    else if n < 0x1_0000_0000 then |s| == 5 && s[0] == major * 32 + 26 && Four(s[1], s[2], s[3], s[4]) == n
    else
      && |s| == 9 && s[0] == major * 32 + 27
      && Four(s[1], s[2], s[3], s[4]) * 0x1_0000_0000 + Four(s[5], s[6], s[7], s[8]) == n
  }

  lemma FromBeOne(s: seq<byte>)
    requires s != []
    ensures FromBe(s) == 256 * FromBe(s[..|s| - 1]) + s[|s| - 1]
  {
  }

  lemma FromBeFour(s: seq<byte>)
    requires |s| >= 4
    ensures var n := |s| - 4;
            FromBe(s) == FromBe(s[..n]) * 0x1_0000_0000 + Four(s[n], s[n + 1], s[n + 2], s[n + 3])
  {
    var n := |s| - 4;
    var c, b, a := s[..n + 3], s[..n + 2], s[..n + 1];
    FromBeOne(s);
    FromBeOne(c);
    FromBeOne(b);
    FromBeOne(a);
    assert c[..n + 2] == b && b[..n + 1] == a && a[..n] == s[..n];
  }

  /** The argument bytes of a head, as one number. */
  lemma FromBeBytes(s: seq<byte>)
    ensures |s| == 1 ==> FromBe(s) == s[0]
    ensures |s| == 2 ==> FromBe(s) == Two(s[0], s[1])
    ensures |s| == 4 ==> FromBe(s) == Four(s[0], s[1], s[2], s[3])
    ensures |s| == 8 ==>
              FromBe(s) == Four(s[0], s[1], s[2], s[3]) * 0x1_0000_0000 + Four(s[4], s[5], s[6], s[7])
  {
    if |s| == 2 {
      FromBeOne(s);
      FromBeOne(s[..1]);
    } else if |s| == 4 {
      FromBeFour(s);
    } else if |s| == 8 {
      FromBeFour(s);
      FromBeFour(s[..4]);
    }
  }

  /** Heads are the shortest ones of the RFC. */
  lemma HeadIs(major: nat, n: u64)
    requires major < 8
    ensures HeadFor(major, n, EncodeHead(major, n))
  {
    Ranges();
    if n >= 24 {
      var w := Width(ShortestInfo(n));
      FromBeOfBe(n, w);
      FromBeBytes(Be(n, w));
    }
  }

  /** No other bytes are. */
  lemma HeadIsOnly(major: nat, n: u64, s: seq<byte>)
    requires major < 8 && HeadFor(major, n, s)
    ensures s == EncodeHead(major, n)
  {
    var w := Width(ShortestInfo(n));
    FromBeBytes(s[1..]);
    BeOfFromBe(s[1..]);
  }

  // ----- The encoding -----

  /** What RFC 8949 says of the encoding of each kind of value, given that of its parts. */
  predicate EncodingEquation(f: Value -> seq<byte>, v: Value) {
    match v
    case Uint(n) => HeadFor(0, n, f(v))
    case Nint(n) => HeadFor(1, n, f(v))
    case Bytes(b) => Headed(2, |b|, b, f(v))
    case Text(t) => Headed(3, |t|, t, f(v))
    case Array(items) => Headed(4, |items|, Joined(f, items), f(v))
    case Map(entries) => Headed(5, |entries|, JoinedEntries(f, entries), f(v))
    case Tag(n, inner) => Headed(6, n, f(inner), f(v))
    case Bool(b) => f(v) == [if b then 0xf5 else 0xf4]
    case Null => f(v) == [0xf6]
  }

  /** A head for `n`, then `content`. */
  predicate Headed(major: nat, n: nat, content: seq<byte>, s: seq<byte>)
    requires major < 8
  {
    |content| <= |s| && s[|s| - |content|..] == content && HeadFor(major, n, s[..|s| - |content|])
  }

  function Joined(f: Value -> seq<byte>, items: seq<Value>): seq<byte> {
    if items == [] then [] else f(items[0]) + Joined(f, items[1..])
  }

  /** Keys and values alternate. */
  function JoinedEntries(f: Value -> seq<byte>, entries: seq<Entry>): seq<byte> {
    if entries == [] then [] else f(entries[0].key) + f(entries[0].value) + JoinedEntries(f, entries[1..])
  }

  lemma HeadedIs(major: nat, n: u64, content: seq<byte>, s: seq<byte>)
    requires major < 8
    ensures Headed(major, n, content, s) <==> s == EncodeHead(major, n) + content
  {
    HeadIs(major, n);
    if Headed(major, n, content, s) {
      HeadIsOnly(major, n, s[..|s| - |content|]);
    }
    var t := EncodeHead(major, n) + content;
    assert t[|t| - |content|..] == content && t[..|t| - |content|] == EncodeHead(major, n);
  }

  /** On values of the data model, whatever satisfies the equations is the encoding. */
  lemma {:induction false} EncodingIsUnique(f: Value -> seq<byte>, v: Value)
    requires WellFormed(v) && EncodesAs(f)
    ensures f(v) == Encode(v)
    decreases v
  {
    assert EncodingEquation(f, v);
    match v
    case Uint(n) => HeadIsOnly(0, n, f(v));
    case Nint(n) => HeadIsOnly(1, n, f(v));
    case Bytes(b) => HeadedIs(2, |b|, b, f(v));
    case Text(t) => HeadedIs(3, |t|, t, f(v));
    case Array(items) =>
      ItemsAreUnique(f, items);
      HeadedIs(4, |items|, EncodeItems(items), f(v));
    case Map(entries) =>
      EntriesAreUnique(f, entries);
      HeadedIs(5, |entries|, EncodeEntries(entries), f(v));
    case Tag(n, inner) =>
      EncodingIsUnique(f, inner);
      HeadedIs(6, n, Encode(inner), f(v));
    case _ =>
  }

  lemma {:induction false} ItemsAreUnique(f: Value -> seq<byte>, items: seq<Value>)
    requires WellFormedItems(items) && EncodesAs(f)
    ensures Joined(f, items) == EncodeItems(items)
    decreases items
  {
    if items != [] {
      EncodingIsUnique(f, items[0]);
      ItemsAreUnique(f, items[1..]);
    }
  }

  lemma {:induction false} EntriesAreUnique(f: Value -> seq<byte>, entries: seq<Entry>)
    requires WellFormedEntries(entries) && EncodesAs(f)
    ensures JoinedEntries(f, entries) == EncodeEntries(entries)
    decreases entries
  {
    if entries != [] {
      EncodingIsUnique(f, entries[0].key);
      EncodingIsUnique(f, entries[0].value);
      EntriesAreUnique(f, entries[1..]);
    }
  }

  /** A function that satisfies the equations. */
  ghost predicate EncodesAs(f: Value -> seq<byte>) {
    forall w :: WellFormed(w) ==> EncodingEquation(f, w)
  }

  /** The equations determine the encoding of every value of the data model. */
  lemma EncodingIsIt(v: Value)
    requires WellFormed(v)
    ensures forall f: Value -> seq<byte> :: EncodesAs(f) ==> f(v) == Encode(v)
    ensures EncodesAs(Encoding())
  {
    forall f: Value -> seq<byte> | EncodesAs(f) ensures f(v) == Encode(v) {
      EncodingIsUnique(f, v);
    }
    forall w | WellFormed(w) ensures EncodingEquation(Encoding(), w) {
      EncodingSolves(w);
    }
  }

  function Encoding(): Value -> seq<byte> {
    v => Encode(v)
  }

  lemma {:induction false} ItemsJoin(items: seq<Value>)
    ensures Joined(Encoding(), items) == EncodeItems(items)
    decreases |items|
  {
    if items != [] {
      ItemsJoin(items[1..]);
    }
  }

  lemma {:induction false} EntriesJoin(entries: seq<Entry>)
    requires WellFormedEntries(entries)
    ensures JoinedEntries(Encoding(), entries) == EncodeEntries(entries)
    decreases |entries|
  {
    if entries != [] {
      EntriesJoin(entries[1..]);
    }
  }

  /** The encoding satisfies the equations of the RFC. */
  lemma EncodingSolves(v: Value)
    requires WellFormed(v)
    ensures EncodingEquation(Encoding(), v)
  {
    match v
    case Uint(n) => HeadIs(0, n);
    case Nint(n) => HeadIs(1, n);
    case Bytes(b) => HeadedIs(2, |b|, b, Encode(v));
    case Text(t) => HeadedIs(3, |t|, t, Encode(v));
    case Array(items) =>
      ItemsJoin(items);
      HeadedIs(4, |items|, EncodeItems(items), Encode(v));
    case Map(entries) =>
      EntriesJoin(entries);
      HeadedIs(5, |entries|, EncodeEntries(entries), Encode(v));
    case Tag(n, inner) => HeadedIs(6, n, Encode(inner), Encode(v));
    case _ =>
  }

  // ----- Records -----

  /** The map of a record: a key and value for each field that is there, no others, and the keys ascend. */
  predicate RecordMap(schema: seq<Field>, r: Record, entries: seq<Entry>)
    requires |r| == |schema|
  {
    && (forall i :: 0 <= i < |schema| && r[i].Some? ==> Holds(entries, schema[i].key, r[i].value))
    && (forall x :: 0 <= x < |entries| ==> FromField(schema, r, entries[x]))
    && Ascending(entries)
  }

  predicate Holds(entries: seq<Entry>, key: u64, v: Value) {
    exists x :: 0 <= x < |entries| && entries[x].key == Uint(key) && entries[x].value == v
  }

  predicate FromField(schema: seq<Field>, r: Record, e: Entry)
    requires |r| == |schema|
  {
    exists i :: 0 <= i < |schema| && r[i].Some? && e.key == Uint(schema[i].key) && e.value == r[i].value
  }

  lemma {:induction false} LookupHolds(entries: seq<Entry>, key: u64, v: Value)
    requires WellFormedEntries(entries)
    ensures Lookup(entries, Encode(Uint(key))) == Some(v) ==> Holds(entries, key, v)
    ensures forall x :: 0 <= x < |entries| && entries[x].key == Uint(key) ==>
              Lookup(entries, Encode(Uint(key))) == Some(entries[x].value)
    decreases |entries|
  {
    if entries != [] {
      LookupHolds(entries[1..], key, v);
      if entries[0].keyBytes == Encode(Uint(key)) {
        EncodeInjective(entries[0].key, Uint(key));
        KeysAscend(entries);
        assert entries[0].value == v ==> Holds(entries, key, v);
      } else if Holds(entries[1..], key, v) {
        var x :| 0 <= x < |entries[1..]| && entries[1..][x].key == Uint(key) && entries[1..][x].value == v;
        assert entries[x + 1].key == Uint(key);
      }
      forall x | 0 <= x < |entries| && entries[x].key == Uint(key)
        ensures Lookup(entries, Encode(Uint(key))) == Some(entries[x].value)
      {
        if x > 0 {
          KeysInOrder(entries, x);
          LessIrreflexive(entries[x].keyBytes);
          assert entries[x] == entries[1..][x - 1];
        }
      }
    }
  }

  /** A record is written as the map of its fields. */
  lemma RecordIsMap(schema: seq<Field>, r: Record)
    requires Distinct(schema) && Fits(schema, r)
    ensures ToValue(schema, r).Map? && RecordMap(schema, r, ToValue(schema, r).entries)
    ensures Decode(ToCbor(schema, r)) == Ok(ToValue(schema, r))
  {
    var entries := Put(schema, r, []);
    forall i | 0 <= i < |schema| && r[i].Some? ensures Shallow(r[i].value) {
      assert FieldFits(schema[i], r[i]);
    }
    PutKeeps(schema, r, []);
    KeysAscend(entries);
    RecordCodable(schema, r);
    DecodeExact(ToCbor(schema, r), ToValue(schema, r));
    assert forall i :: 0 <= i < |schema| ==> Known(schema, Uint(schema[i].key));
    PutKnown(schema, schema, r, []);
    forall i | 0 <= i < |schema| && r[i].Some? ensures Holds(entries, schema[i].key, r[i].value) {
      PutLookupField(schema, r, [], i);
      LookupHolds(entries, schema[i].key, r[i].value);
    }
    forall x | 0 <= x < |entries| ensures FromField(schema, r, entries[x]) {
      var i :| 0 <= i < |schema| && entries[x].key == Uint(schema[i].key);
      PutLookupField(schema, r, [], i);
      LookupHolds(entries, schema[i].key, entries[x].value);
    }
  }
}
