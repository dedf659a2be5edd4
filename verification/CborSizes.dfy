/** How long encodings are. */
module CborSizes {
  import opened Hashing
  import opened Cbor
  import opened CborRecord

  lemma HeadSize(major: nat, arg: u64)
    requires major < 8
    ensures 1 <= |EncodeHead(major, arg)| <= 9
  {
  }

  lemma NumberSize(n: u64)
    ensures |Encode(Uint(n))| <= 9 && |Encode(Nint(n))| <= 9
  {
    HeadSize(0, n);
    HeadSize(1, n);
  }

  lemma StringSize(b: seq<byte>)
    ensures |b| < |Encode(Bytes(b))| <= |b| + 9 && |b| < |Encode(Text(b))| <= |b| + 9
  {
    HeadSize(2, AsU64(|b|));
    HeadSize(3, AsU64(|b|));
  }

  lemma {:induction false} InsertSize(entries: seq<Entry>, e: Entry)
    ensures |EncodeEntries(Insert(entries, e))| == |EncodeEntries(entries)| + |e.keyBytes| + |Encode(e.value)|
    decreases |entries|
  {
    if entries == [] || Less(e.keyBytes, entries[0].keyBytes) {
      assert ([e] + entries)[1..] == entries;
    } else {
      InsertSize(entries[1..], e);
      assert ([entries[0]] + Insert(entries[1..], e))[1..] == Insert(entries[1..], e);
    }
  }

  /** What the fields of a record come to: every key takes up to nine bytes. */
  function FieldsSize(r: Record): nat {
    if r == [] then 0 else (if r[0].Some? then 9 + |Encode(r[0].value)| else 0) + FieldsSize(r[1..])
  }

  lemma {:induction false} PutSize(schema: seq<Field>, r: Record, entries: seq<Entry>)
    requires |r| == |schema|
    ensures |EncodeEntries(Put(schema, r, entries))| <= |EncodeEntries(entries)| + FieldsSize(r)
    decreases |schema|
  {
    if schema != [] {
      if r[0].Some? && Lookup(entries, KeyOf(schema[0])).None? {
        var e := Entry(KeyOf(schema[0]), Uint(schema[0].key), r[0].value);
        NumberSize(schema[0].key);
        InsertSize(entries, e);
        PutSize(schema[1..], r[1..], Insert(entries, e));
      } else {
        PutSize(schema[1..], r[1..], entries);
      }
    }
  }

  /** A record is no longer than its fields and keys, and a head. */
  lemma RecordSize(schema: seq<Field>, r: Record)
    requires |r| == |schema|
    ensures |ToCbor(schema, r)| <= 9 + FieldsSize(r)
  {
    PutSize(schema, r, []);
    HeadSize(5, AsU64(|Put(schema, r, [])|));
  }

  lemma {:induction false} LookupSize(entries: seq<Entry>, keyBytes: seq<byte>)
    requires Lookup(entries, keyBytes).Some?
    ensures |Encode(Lookup(entries, keyBytes).value)| <= |EncodeEntries(entries)|
    decreases |entries|
  {
    if entries[0].keyBytes != keyBytes {
      LookupSize(entries[1..], keyBytes);
    }
  }

  /** A record is longer than each of its fields. */
  lemma FieldSize(schema: seq<Field>, r: Record, j: nat)
    requires |r| == |schema| && Distinct(schema) && j < |schema| && r[j].Some?
    ensures |Encode(r[j].value)| < |ToCbor(schema, r)|
  {
    PutLookupField(schema, r, [], j);
    LookupSize(Put(schema, r, []), KeyOf(schema[j]));
    HeadSize(5, AsU64(|Put(schema, r, [])|));
  }

  /** Fields of at most `m` bytes each. */
  predicate FieldsUpTo(r: Record, m: nat) {
    forall i :: 0 <= i < |r| && r[i].Some? ==> |Encode(r[i].value)| <= m
  }

  lemma {:induction false} FieldsBounded(r: Record, m: nat)
    requires FieldsUpTo(r, m)
    ensures FieldsSize(r) <= |r| * (9 + m)
    decreases |r|
  {
    if r != [] {
      var rest := r[1..];
      forall i | 0 <= i < |rest| && rest[i].Some? ensures |Encode(rest[i].value)| <= m {
        assert rest[i] == r[i + 1];
      }
      FieldsBounded(rest, m);
      Distribute(|rest|, 9 + m);
    }
  }

  lemma Distribute(n: nat, m: nat)
    ensures (n + 1) * m == n * m + m
  {
  }

  lemma {:induction false} ItemsSize(items: seq<Value>, m: nat)
    requires forall i :: 0 <= i < |items| ==> |Encode(items[i])| <= m
    ensures |EncodeItems(items)| <= |items| * m
    decreases |items|
  {
    if items != [] {
      ItemsSize(items[1..], m);
      Distribute(|items| - 1, m);
    }
  }
}
