/** Exactly which bytes verification accepts. */
module EnvelopeExact {
  import opened Wrappers
  import opened Hashing
  import opened Cbor
  import opened CborProofs
  import opened CborRecord
  import opened Envelope

  // ----- A map is determined by what it holds -----

  lemma {:induction false} LookupAfter(entries: seq<Entry>, keyBytes: seq<byte>)
    requires WellFormedEntries(entries) && Lookup(entries, keyBytes).Some?
    ensures entries != [] && (keyBytes == entries[0].keyBytes || Less(entries[0].keyBytes, keyBytes))
    decreases |entries|
  {
    if entries[0].keyBytes != keyBytes {
      LookupAfter(entries[1..], keyBytes);
      if entries[1].keyBytes != keyBytes {
        LessTransitive(entries[0].keyBytes, entries[1].keyBytes, keyBytes);
      }
    }
  }

  ghost predicate SameLookups(a: seq<Entry>, b: seq<Entry>) {
    && NumberedKeys(a) && NumberedKeys(b)
    && forall keyBytes :: Lookup(a, keyBytes) == Lookup(b, keyBytes)
  }

  predicate NumberedKeys(entries: seq<Entry>) {
    forall i :: 0 <= i < |entries| ==> entries[i].key.Uint?
  }

  lemma SameFirst(a: seq<Entry>, b: seq<Entry>)
    requires WellFormedEntries(a) && WellFormedEntries(b) && SameLookups(a, b) && a != []
    ensures b != [] && a[0] == b[0]
  {
    assert Lookup(b, a[0].keyBytes) == Lookup(a, a[0].keyBytes) == Some(a[0].value);
    LookupAfter(b, a[0].keyBytes);
    assert Lookup(a, b[0].keyBytes) == Lookup(b, b[0].keyBytes) == Some(b[0].value);
    LookupAfter(a, b[0].keyBytes);
    if a[0].keyBytes != b[0].keyBytes {
      LessTransitive(a[0].keyBytes, b[0].keyBytes, a[0].keyBytes);
      LessIrreflexive(a[0].keyBytes);
    }
    EncodeInjective(a[0].key, b[0].key);
  }

  lemma SameRest(a: seq<Entry>, b: seq<Entry>)
    requires WellFormedEntries(a) && WellFormedEntries(b) && SameLookups(a, b) && a != [] && b != [] && a[0] == b[0]
    ensures SameLookups(a[1..], b[1..])
  {
    forall keyBytes ensures Lookup(a[1..], keyBytes) == Lookup(b[1..], keyBytes) {
      assert Lookup(a, keyBytes) == Lookup(b, keyBytes);
      if keyBytes == a[0].keyBytes {
        NotInRest(a);
        NotInRest(b);
      }
    }
  }

  lemma NotInRest(entries: seq<Entry>)
    requires WellFormedEntries(entries) && entries != []
    ensures Lookup(entries[1..], entries[0].keyBytes) == None
  {
    if Lookup(entries[1..], entries[0].keyBytes).Some? {
      LookupAfter(entries[1..], entries[0].keyBytes);
      LessIrreflexive(entries[0].keyBytes);
      if entries[1].keyBytes != entries[0].keyBytes {
        LessTransitive(entries[0].keyBytes, entries[1].keyBytes, entries[0].keyBytes);
      }
    }
  }

  lemma {:induction false} SameMap(a: seq<Entry>, b: seq<Entry>)
    requires WellFormedEntries(a) && WellFormedEntries(b) && SameLookups(a, b)
    ensures a == b
    decreases |a|
  {
    if a == [] {
      if b != [] {
        SameFirst(b, a);
      }
    } else {
      SameFirst(a, b);
      SameRest(a, b);
      SameMap(a[1..], b[1..]);
      assert a == [a[0]] + a[1..] && b == [b[0]] + b[1..];
    }
  }

  /** A map with the fields of a record and no other key is the record's own. */
  lemma RecordMapUnique(schema: seq<Field>, r: Record, entries: seq<Entry>)
    requires Distinct(schema) && Fits(schema, r) && WellFormedEntries(entries) && AllKnown(schema, entries)
    requires forall i :: 0 <= i < |schema| ==> Lookup(entries, KeyOf(schema[i])) == r[i]
    ensures Map(entries) == ToValue(schema, r)
  {
    var own := Put(schema, r, []);
    forall i | 0 <= i < |schema| && r[i].Some? ensures Shallow(r[i].value) {
      assert FieldFits(schema[i], r[i]);
    }
    PutKeeps(schema, r, []);
    forall keyBytes ensures Lookup(entries, keyBytes) == Lookup(own, keyBytes) {
      if i :| 0 <= i < |schema| && KeyOf(schema[i]) == keyBytes {
        PutLookupField(schema, r, [], i);
      } else {
        PutLookup(schema, r, [], keyBytes);
        UnknownKey(schema, entries, keyBytes);
      }
    }
    assert forall i :: 0 <= i < |schema| ==> Known(schema, Uint(schema[i].key));
    PutKnown(schema, schema, r, []);
    KnownAreNumbers(schema, entries);
    KnownAreNumbers(schema, own);
    SameMap(entries, own);
  }

  lemma KnownAreNumbers(schema: seq<Field>, entries: seq<Entry>)
    requires AllKnown(schema, entries)
    ensures NumberedKeys(entries)
  {
    forall i | 0 <= i < |entries| ensures entries[i].key.Uint? {
      assert Known(schema, entries[i].key);
    }
  }

  lemma {:induction false} UnknownKey(schema: seq<Field>, entries: seq<Entry>, keyBytes: seq<byte>)
    requires WellFormedEntries(entries) && AllKnown(schema, entries)
    requires forall i :: 0 <= i < |schema| ==> KeyOf(schema[i]) != keyBytes
    ensures Lookup(entries, keyBytes) == None
    decreases |entries|
  {
    if entries != [] {
      assert Known(schema, entries[0].key);
      forall i | 0 <= i < |entries| - 1 ensures Known(schema, entries[1..][i].key) {
        assert entries[1..][i] == entries[i + 1];
      }
      UnknownKey(schema, entries[1..], keyBytes);
    }
  }

  // ----- Envelopes -----

  /** The envelope of a payload under a header, with some signature. */
  function Made(recordType: seq<byte>, payload: seq<byte>, kid: Digest, signature: seq<byte>): seq<byte> {
    Encode(SignedValue(Protected(kid, recordType), payload, signature))
  }

  /** A trusted key with an allowed role signed the payload for this type and scope, and the bytes say exactly that. */
  ghost predicate Attests(x: Scheme, bytes: seq<byte>, recordType: seq<byte>, scope: seq<byte>,
                          anchors: map<seq<byte>, Role>, allowed: set<Role>, payload: seq<byte>, kid: Digest,
                          signature: seq<byte>)
  {
    && |signature| == 64 && bytes == Made(recordType, payload, kid, signature)
    && kid in anchors && anchors[kid] in allowed
    && x.verify(kid, SigStructure(Protected(kid, recordType), Aad(recordType, scope), payload), signature)
  }

  lemma HeaderReads(kid: Digest, recordType: seq<byte>)
    requires IsAscii(recordType) && Fitting(recordType)
    ensures var v := Decode(Protected(kid, recordType));
            v.Ok? && FromValue(HEADER, v.value) == Ok(HeaderOf(kid, recordType))
  {
    var r := HeaderOf(kid, recordType);
    HeaderSchema();
    HeaderFits(kid, recordType);
    RecordCodable(HEADER, r);
    DecodeExact(Protected(kid, recordType), ToValue(HEADER, r));
    ValueReads(HEADER, r);
  }

  lemma AttestedVerifies(x: Scheme, bytes: seq<byte>, recordType: seq<byte>, scope: seq<byte>,
                         anchors: map<seq<byte>, Role>, allowed: set<Role>, payload: seq<byte>, kid: Digest,
                         signature: seq<byte>)
    requires IsAscii(recordType) && Fitting(recordType) && Fitting(bytes)
    requires Attests(x, bytes, recordType, scope, anchors, allowed, payload, kid, signature)
    ensures Verify(x, bytes, recordType, scope, anchors, allowed) == Ok(payload)
  {
    var protected := Protected(kid, recordType);
    var v := SignedValue(protected, payload, signature);
    MadeFits(protected, payload, signature);
    SignedCodable(protected, payload, signature);
    DecodeExact(bytes, v);
    HeaderReads(kid, recordType);
  }

  /** The parts are no longer than the envelope. */
  lemma MadeFits(protected: seq<byte>, payload: seq<byte>, signature: seq<byte>)
    ensures |protected| <= |Encode(SignedValue(protected, payload, signature))|
    ensures |payload| <= |Encode(SignedValue(protected, payload, signature))|
  {
    var parts := [Bytes(protected), Map([]), Bytes(payload), Bytes(signature)];
    assert Encode(Array(parts)) == EncodeHead(4, 4) + EncodeItems(parts);
    PartsSize(parts);
  }

  /** A header that verification accepts is the one that signing makes. */
  lemma HeaderIsOurs(protected: seq<byte>, header: Value, recordType: seq<byte>, r: Record)
    requires Decode(protected) == Ok(header) && FromValue(HEADER, header) == Ok(r)
    requires IsAscii(recordType) && Fitting(recordType)
    requires r[0] == Some(ALG_ED25519) && r[2] == Some(Text(TypString(recordType)))
    ensures r[1].Some? && r[1].value.Bytes? && |r[1].value.bytes| == 32
    ensures protected == Protected(r[1].value.bytes, recordType)
  {
    DecodeExact(protected, header);
    ReadEach(HEADER, header.entries, r);
    assert ReadField(HEADER[0], header.entries) == Ok(r[0]) && ReadField(HEADER[1], header.entries) == Ok(r[1]);
    assert ReadField(HEADER[2], header.entries) == Ok(r[2]);
    var kid: Digest := r[1].value.bytes;
    assert r == HeaderOf(kid, recordType);
    HeaderSchema();
    HeaderFits(kid, recordType);
    RecordMapUnique(HEADER, r, header.entries);
  }

  lemma VerifiedAttests(x: Scheme, bytes: seq<byte>, recordType: seq<byte>, scope: seq<byte>,
                        anchors: map<seq<byte>, Role>, allowed: set<Role>)
    returns (kid: Digest, signature: seq<byte>)
    requires IsAscii(recordType) && Fitting(recordType)
    requires Verify(x, bytes, recordType, scope, anchors, allowed).Ok?
    ensures Attests(x, bytes, recordType, scope, anchors, allowed,
                    Verify(x, bytes, recordType, scope, anchors, allowed).value, kid, signature)
  {
    var top := Decode(bytes).value;
    var p := PartsOf(top).value;
    var header := Decode(p.protected).value;
    var r := FromValue(HEADER, header).value;
    HeaderIsOurs(p.protected, header, recordType, r);
    kid, signature := r[1].value.bytes, p.signature;
    DecodeExact(bytes, top);
    assert top.inner.items == [Bytes(p.protected), Map([]), Bytes(p.payload), Bytes(p.signature)];
  }

  /**
   Verification accepts bytes with a payload if and only if they are the envelope of that payload under the header for
   this record type and a trusted key with an allowed role, with a signature by that key over header, type, scope and
   payload.
   */
  lemma VerifyExact(x: Scheme, bytes: seq<byte>, recordType: seq<byte>, scope: seq<byte>,
                    anchors: map<seq<byte>, Role>, allowed: set<Role>, payload: seq<byte>)
    requires IsAscii(recordType) && Fitting(recordType) && Fitting(bytes)
    ensures Verify(x, bytes, recordType, scope, anchors, allowed) == Ok(payload) <==>
            exists kid: Digest, signature ::
              Attests(x, bytes, recordType, scope, anchors, allowed, payload, kid, signature)
  {
    if Verify(x, bytes, recordType, scope, anchors, allowed) == Ok(payload) {
      var kid, signature := VerifiedAttests(x, bytes, recordType, scope, anchors, allowed);
    }
    if kid: Digest, signature :| Attests(x, bytes, recordType, scope, anchors, allowed, payload, kid, signature) {
      AttestedVerifies(x, bytes, recordType, scope, anchors, allowed, payload, kid, signature);
    }
  }
}
