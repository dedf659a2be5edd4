/**
 Records: structs encoded as maps with integer keys, declared by a schema. Reading a record rejects unknown fields,
 treats an explicit `null` in an optional field as absent, converts each field, and finally requires that encoding the
 result again reproduces the input.
 */
module CborRecord {
  import opened Wrappers
  import opened Hashing
  import opened Cbor
  import opened CborProofs

  // ----- Maps -----

  lemma {:induction false} LessTransitive(a: seq<byte>, b: seq<byte>, c: seq<byte>)
    requires Less(a, b) && Less(b, c)
    ensures Less(a, c)
  {
    if a != [] && b != [] && c != [] && a[0] == b[0] && b[0] == c[0] {
      LessTransitive(a[1..], b[1..], c[1..]);
    }
  }

  lemma {:induction false} LessTotal(a: seq<byte>, b: seq<byte>)
    ensures a == b || Less(a, b) || Less(b, a)
  {
    if a != [] && b != [] && a[0] == b[0] {
      LessTotal(a[1..], b[1..]);
      assert a == [a[0]] + a[1..] && b == [b[0]] + b[1..];
    }
  }

  /** Adds an entry in its place; the key is not there yet. */
  function Insert(entries: seq<Entry>, e: Entry): seq<Entry> {
    if entries == [] || Less(e.keyBytes, entries[0].keyBytes) then [e] + entries
    else [entries[0]] + Insert(entries[1..], e)
  }

  function Lookup(entries: seq<Entry>, keyBytes: seq<byte>): Option<Value> {
    if entries == [] then None
    else if entries[0].keyBytes == keyBytes then Some(entries[0].value)
    else Lookup(entries[1..], keyBytes)
  }

  /** Inserting a new key keeps a map well-formed. */
  lemma {:induction false} InsertKeeps(entries: seq<Entry>, e: Entry, previous: Option<seq<byte>>)
    requires WellFormedEntries(entries) && Lookup(entries, e.keyBytes).None?
    requires e.keyBytes == Encode(e.key) && WellFormed(e.key) && WellFormed(e.value)
    requires Before(previous, entries) && Before(previous, [e])
    ensures WellFormedEntries(Insert(entries, e)) && Before(previous, Insert(entries, e))
    decreases |entries|
  {
    if entries == [] || Less(e.keyBytes, entries[0].keyBytes) {
      EntriesCons(e, entries);
    } else {
      LessTotal(e.keyBytes, entries[0].keyBytes);
      InsertKeeps(entries[1..], e, Some(entries[0].keyBytes));
      EntriesCons(entries[0], Insert(entries[1..], e));
    }
  }

  lemma {:induction false} InsertLookup(entries: seq<Entry>, e: Entry, keyBytes: seq<byte>)
    requires Lookup(entries, e.keyBytes).None?
    ensures Lookup(Insert(entries, e), keyBytes) ==
            if keyBytes == e.keyBytes then Some(e.value) else Lookup(entries, keyBytes)
    decreases |entries|
  {
    var all := Insert(entries, e);
    if entries == [] || Less(e.keyBytes, entries[0].keyBytes) {
      assert all[1..] == entries;
    } else {
      InsertLookup(entries[1..], e, keyBytes);
      assert all[1..] == Insert(entries[1..], e);
    }
  }

  lemma {:induction false} InsertDepth(entries: seq<Entry>, e: Entry)
    ensures EntriesDepth(Insert(entries, e)) == Max(1 + Max(Depth(e.key), Depth(e.value)), EntriesDepth(entries))
    ensures |Insert(entries, e)| == |entries| + 1
    decreases |entries|
  {
    if entries == [] || Less(e.keyBytes, entries[0].keyBytes) {
      EntriesCons(e, entries);
    } else {
      InsertDepth(entries[1..], e);
      EntriesCons(entries[0], Insert(entries[1..], e));
    }
  }

  /** Arrays of values without parts. */
  lemma {:induction false} FlatItems(items: seq<Value>)
    requires forall i :: 0 <= i < |items| ==> WellFormed(items[i]) && Depth(items[i]) == 0
    ensures WellFormedItems(items) && ItemsDepth(items) <= 1
    decreases |items|
  {
    if items != [] {
      FlatItems(items[1..]);
    }
  }

  // ----- Schemas -----

  /** A field: `convert` is its type's `from_value` followed by `to_value`. */
  datatype Field = Field(key: u64, optional: bool, convert: Value -> Option<Value>)

  type Record = seq<Option<Value>>

  function KeyOf(f: Field): seq<byte> {
    Encode(Uint(f.key))
  }

  /** Writes the fields into a map one after the other; an absent one is left out. */
  function Put(schema: seq<Field>, r: Record, entries: seq<Entry>): seq<Entry>
    requires |r| == |schema|
  {
    if schema == [] then entries
    else if r[0].Some? && Lookup(entries, KeyOf(schema[0])).None? then
      Put(schema[1..], r[1..], Insert(entries, Entry(KeyOf(schema[0]), Uint(schema[0].key), r[0].value)))
    else Put(schema[1..], r[1..], entries)
  }

  function ToValue(schema: seq<Field>, r: Record): Value
    requires |r| == |schema|
  {
    Map(Put(schema, r, []))
  }

  function ReadField(f: Field, entries: seq<Entry>): Result<Option<Value>, Error> {
    match Lookup(entries, KeyOf(f))
    case None => if f.optional then Ok(None) else Err(MissingField)
    case Some(v) =>
      if f.optional && v == Null then Ok(None)
      else if f.convert(v).None? then Err(WrongType)
      else Ok(f.convert(v))
  }

  function ReadFields(schema: seq<Field>, entries: seq<Entry>): (r: Result<Record, Error>)
    ensures r.Ok? ==> |r.value| == |schema|
  {
    if schema == [] then Ok([])
    else
      var first :- ReadField(schema[0], entries);
      var more :- ReadFields(schema[1..], entries);
      Ok([first] + more)
  }

  /** Every key of the map is one the schema reads. */
  predicate AllKnown(schema: seq<Field>, entries: seq<Entry>) {
    forall i :: 0 <= i < |entries| ==> Known(schema, entries[i].key)
  }

  predicate Known(schema: seq<Field>, key: Value) {
    exists j :: 0 <= j < |schema| && key == Uint(schema[j].key)
  }

  function FromValue(schema: seq<Field>, v: Value): (r: Result<Record, Error>)
    ensures r.Ok? ==> |r.value| == |schema|
  {
    if !v.Map? then Err(WrongType)
    else
      var r :- ReadFields(schema, v.entries);
      if AllKnown(schema, v.entries) then Ok(r) else Err(UnknownField)
  }

  function ToCbor(schema: seq<Field>, r: Record): seq<byte>
    requires |r| == |schema|
  {
    Encode(ToValue(schema, r))
  }

  function FromCbor(schema: seq<Field>, bytes: seq<byte>): Result<Record, Error> {
    var v :- Decode(bytes);
    var r :- FromValue(schema, v);
    if ToCbor(schema, r) == bytes then Ok(r) else Err(NotCanonical)
  }

  // ----- The record theorem -----

  predicate Distinct(schema: seq<Field>) {
    && |schema| < 0x1_0000
    && forall i, j :: 0 <= i < j < |schema| ==> schema[i].key != schema[j].key
  }

  /** Field values that fit inside a record. */
  predicate Shallow(v: Value) {
    WellFormed(v) && Depth(v) < MAX_DEPTH
  }

  /** The field types write values of the data model. */
  ghost predicate Converts(schema: seq<Field>) {
    forall i, v :: 0 <= i < |schema| && schema[i].convert(v).Some? ==> Shallow(schema[i].convert(v).value)
  }

  /** What a field of the record type can hold. */
  predicate FieldFits(f: Field, x: Option<Value>) {
    if x.None? then f.optional
    else Shallow(x.value) && f.convert(x.value) == x && !(f.optional && x.value == Null)
  }

  predicate Fits(schema: seq<Field>, r: Record) {
    |r| == |schema| && forall i :: 0 <= i < |r| ==> FieldFits(schema[i], r[i])
  }

  /** Keys of different fields are encoded differently. */
  lemma KeysDiffer(a: Field, b: Field)
    ensures KeyOf(a) == KeyOf(b) <==> a.key == b.key
  {
    if KeyOf(a) == KeyOf(b) {
      EncodeInjective(Uint(a.key), Uint(b.key));
    }
  }

  /** `entries` holds none of the keys of `schema`. */
  predicate Free(schema: seq<Field>, entries: seq<Entry>) {
    forall i :: 0 <= i < |schema| ==> Lookup(entries, KeyOf(schema[i])).None?
  }

  lemma FreeAfterInsert(schema: seq<Field>, entries: seq<Entry>, x: Value)
    requires schema != [] && Distinct(schema) && Free(schema, entries)
    ensures Free(schema[1..], Insert(entries, Entry(KeyOf(schema[0]), Uint(schema[0].key), x)))
  {
    var e := Entry(KeyOf(schema[0]), Uint(schema[0].key), x);
    forall i | 0 <= i < |schema| - 1 ensures Lookup(Insert(entries, e), KeyOf(schema[1..][i])).None? {
      InsertLookup(entries, e, KeyOf(schema[i + 1]));
      KeysDiffer(schema[0], schema[i + 1]);
    }
  }

  /** The map of a record is a well-formed, shallow value. */
  lemma {:induction false} PutKeeps(schema: seq<Field>, r: Record, entries: seq<Entry>)
    requires |r| == |schema| && forall i :: 0 <= i < |r| && r[i].Some? ==> Shallow(r[i].value)
    requires WellFormedEntries(entries) && EntriesDepth(entries) <= MAX_DEPTH
    ensures WellFormedEntries(Put(schema, r, entries)) && EntriesDepth(Put(schema, r, entries)) <= MAX_DEPTH
    ensures |Put(schema, r, entries)| <= |entries| + |schema|
    decreases |schema|
  {
    if schema != [] {
      var more := entries;
      if r[0].Some? && Lookup(entries, KeyOf(schema[0])).None? {
        var e := Entry(KeyOf(schema[0]), Uint(schema[0].key), r[0].value);
        InsertKeeps(entries, e, None);
        InsertDepth(entries, e);
        more := Insert(entries, e);
      }
      PutKeeps(schema[1..], r[1..], more);
    }
  }

  lemma RecordCodable(schema: seq<Field>, r: Record)
    requires |r| == |schema| && Distinct(schema) && forall i :: 0 <= i < |r| && r[i].Some? ==> Shallow(r[i].value)
    ensures Codable(ToValue(schema, r))
  {
    PutKeeps(schema, r, []);
  }

  /** Looking a key up in the map of a record: the field's value, or what was there before. */
  lemma {:induction false} PutLookup(schema: seq<Field>, r: Record, entries: seq<Entry>, keyBytes: seq<byte>)
    requires |r| == |schema| && Distinct(schema) && Free(schema, entries)
    requires forall i :: 0 <= i < |schema| ==> KeyOf(schema[i]) != keyBytes
    ensures Lookup(Put(schema, r, entries), keyBytes) == Lookup(entries, keyBytes)
    decreases |schema|
  {
    if schema != [] {
      assert KeyOf(schema[0]) != keyBytes;
      if r[0].Some? {
        var e := Entry(KeyOf(schema[0]), Uint(schema[0].key), r[0].value);
        InsertLookup(entries, e, keyBytes);
        FreeAfterInsert(schema, entries, r[0].value);
        PutLookup(schema[1..], r[1..], Insert(entries, e), keyBytes);
      } else {
        PutLookup(schema[1..], r[1..], entries, keyBytes);
      }
    }
  }

  lemma {:induction false} PutLookupField(schema: seq<Field>, r: Record, entries: seq<Entry>, j: nat)
    requires |r| == |schema| && Distinct(schema) && Free(schema, entries) && j < |schema|
    ensures Lookup(Put(schema, r, entries), KeyOf(schema[j])) == r[j]
    decreases |schema|
  {
    var e := if r[0].Some? then Entry(KeyOf(schema[0]), Uint(schema[0].key), r[0].value) else Entry([], Null, Null);
    var more := if r[0].Some? then Insert(entries, e) else entries;
    if r[0].Some? {
      FreeAfterInsert(schema, entries, r[0].value);
    }
    if j > 0 {
      PutLookupField(schema[1..], r[1..], more, j - 1);
    } else {
      forall i | 0 <= i < |schema| - 1 ensures KeyOf(schema[1..][i]) != KeyOf(schema[0]) {
        KeysDiffer(schema[0], schema[i + 1]);
      }
      if r[0].Some? {
        InsertLookup(entries, e, KeyOf(schema[0]));
      }
      PutLookup(schema[1..], r[1..], more, KeyOf(schema[0]));
    }
  }

  /** The map of a record has only keys of its schema. */
  lemma {:induction false} PutKnown(all: seq<Field>, schema: seq<Field>, r: Record, entries: seq<Entry>)
    requires |r| == |schema| && AllKnown(all, entries)
    requires forall i :: 0 <= i < |schema| ==> Known(all, Uint(schema[i].key))
    ensures AllKnown(all, Put(schema, r, entries))
    decreases |schema|
  {
    if schema != [] {
      var more := entries;
      if r[0].Some? && Lookup(entries, KeyOf(schema[0])).None? {
        var e := Entry(KeyOf(schema[0]), Uint(schema[0].key), r[0].value);
        InsertKnown(all, entries, e);
        more := Insert(entries, e);
      }
      PutKnown(all, schema[1..], r[1..], more);
    }
  }

  lemma {:induction false} InsertKnown(all: seq<Field>, entries: seq<Entry>, e: Entry)
    requires AllKnown(all, entries) && Known(all, e.key)
    ensures AllKnown(all, Insert(entries, e))
    decreases |entries|
  {
    if !(entries == [] || Less(e.keyBytes, entries[0].keyBytes)) {
      InsertKnown(all, entries[1..], e);
      assert Known(all, entries[0].key);
    }
  }

  /** Reading fields, one by one. */
  lemma {:induction false} ReadEach(schema: seq<Field>, entries: seq<Entry>, r: Record)
    requires |r| == |schema|
    ensures ReadFields(schema, entries) == Ok(r) <==>
            forall j :: 0 <= j < |schema| ==> ReadField(schema[j], entries) == Ok(r[j])
    decreases |schema|
  {
    if schema != [] {
      ReadEach(schema[1..], entries, r[1..]);
      assert r == [r[0]] + r[1..];
      assert forall j :: 0 < j < |schema| ==> schema[j] == schema[1..][j - 1] && r[j] == r[1..][j - 1];
    }
  }

  /** A record that fits its schema reads back from its own map. */
  lemma ValueReads(schema: seq<Field>, r: Record)
    requires Distinct(schema) && Fits(schema, r)
    ensures FromValue(schema, ToValue(schema, r)) == Ok(r)
  {
    var entries := Put(schema, r, []);
    forall j | 0 <= j < |schema| ensures ReadField(schema[j], entries) == Ok(r[j]) {
      PutLookupField(schema, r, [], j);
      assert FieldFits(schema[j], r[j]);
    }
    ReadEach(schema, entries, r);
    assert forall i :: 0 <= i < |schema| ==> Known(schema, Uint(schema[i].key));
    PutKnown(schema, schema, r, []);
  }

  /** What reads back as itself from its own map fits the schema. */
  lemma ReadFits(schema: seq<Field>, r: Record)
    requires Distinct(schema) && Converts(schema) && |r| == |schema|
    requires ReadFields(schema, Put(schema, r, [])) == Ok(r)
    ensures Fits(schema, r)
  {
    var entries := Put(schema, r, []);
    ReadEach(schema, entries, r);
    forall j | 0 <= j < |schema| ensures FieldFits(schema[j], r[j]) {
      assert ReadField(schema[j], entries) == Ok(r[j]);
      PutLookupField(schema, r, [], j);
    }
  }

  /** Fields that were read hold converted values. */
  lemma ReadShallow(schema: seq<Field>, entries: seq<Entry>, r: Record)
    requires Converts(schema) && |r| == |schema| && ReadFields(schema, entries) == Ok(r)
    ensures forall i :: 0 <= i < |r| && r[i].Some? ==> Shallow(r[i].value)
  {
    ReadEach(schema, entries, r);
    forall i | 0 <= i < |r| && r[i].Some? ensures Shallow(r[i].value) {
      assert ReadField(schema[i], entries) == Ok(r[i]);
    }
  }

  /** A record has exactly one accepted byte representation, optional fields or not. */
  lemma RecordExact(schema: seq<Field>, r: Record, bytes: seq<byte>)
    requires Distinct(schema) && Converts(schema)
    ensures FromCbor(schema, bytes) == Ok(r) <==> Fits(schema, r) && bytes == ToCbor(schema, r)
  {
    if FromCbor(schema, bytes) == Ok(r) {
      var v := Decode(bytes).value;
      DecodeExact(bytes, v);
      ReadShallow(schema, v.entries, r);
      RecordCodable(schema, r);
      EncodeInjective(v, ToValue(schema, r));
      ReadFits(schema, r);
    }
    if Fits(schema, r) && bytes == ToCbor(schema, r) {
      RecordCodable(schema, r);
      DecodeExact(bytes, ToValue(schema, r));
      ValueReads(schema, r);
    }
  }

  /** A truncated record is never accepted. */
  lemma TruncatedRecord(schema: seq<Field>, r: Record, n: nat)
    requires Distinct(schema) && Fits(schema, r) && n < |ToCbor(schema, r)|
    ensures FromCbor(schema, ToCbor(schema, r)[..n]).Err?
  {
    RecordCodable(schema, r);
    if Decode(ToCbor(schema, r)[..n]).Ok? {
      PrefixFree(ToValue(schema, r), ToCbor(schema, r)[..n]);
    }
  }
}
