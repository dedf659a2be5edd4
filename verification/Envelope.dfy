/**
 The signed-record envelope: COSE_Sign1 (RFC 9052) with a strict profile. The signature scheme is a parameter; a
 signature covers the protected header as received, the record type, the scope and the payload.
 */
module Envelope {
  import opened Wrappers
  import opened Hashing
  import opened Cbor
  import opened CborProofs
  import opened CborRecord
  import opened CborSizes

  /** Signatures: `sign(key, message)` and `verify(key, message, signature)`, keys being named by their identifiers. */
  datatype Scheme = Scheme(sign: (seq<byte>, seq<byte>) -> seq<byte>, verify: (seq<byte>, seq<byte>, seq<byte>) -> bool)

  datatype Role = Root | Device | Policy | Release | RecoveryRole

  datatype EnvelopeError =
    | Encoding(error: Error) | Structure | Algorithm | RecordType | UnknownKey | RoleNotAllowed(role: Role)
    | BadSignature

  function Ascii(s: string): seq<byte> {
    seq(|s|, i requires 0 <= i < |s| => (s[i] as int) % 128)
  }

  const TYP_PREFIX: seq<byte> := Ascii("application/vnd.jlr.")
  const TYP_SUFFIX: seq<byte> := Ascii("+cbor;v=1")
  const AAD_PREFIX: seq<byte> := Ascii("JLR/1/")
  const SLASH: seq<byte> := [47]

  function TypString(recordType: seq<byte>): seq<byte> {
    TYP_PREFIX + recordType + TYP_SUFFIX
  }

  function Aad(recordType: seq<byte>, scope: seq<byte>): seq<byte> {
    AAD_PREFIX + recordType + SLASH + scope
  }

  /** The algorithm label -19 (Ed25519). */
  const ALG_ED25519: Value := Nint(18)

  function Integer(v: Value): Option<Value> {
    if (v.Uint? || v.Nint?) && v.n < 0x8000_0000_0000_0000 then Some(v) else None
  }

  function KeyIdentifier(v: Value): Option<Value> {
    if v.Bytes? && |v.bytes| == 32 then Some(v) else None
  }

  function TextValue(v: Value): Option<Value> {
    if v.Text? && WellFormed(v) then Some(v) else None
  }

  /** The protected header: algorithm, key identifier and record type. */
  const HEADER: seq<Field> :=
    [Field(1, false, Integer), Field(4, false, KeyIdentifier), Field(16, false, TextValue)]

  function HeaderOf(kid: Digest, recordType: seq<byte>): Record {
    [Some(ALG_ED25519), Some(Bytes(kid)), Some(Text(TypString(recordType)))]
  }

  function Protected(kid: Digest, recordType: seq<byte>): seq<byte> {
    ToCbor(HEADER, HeaderOf(kid, recordType))
  }

  /** What is signed. */
  function SigStructure(protected: seq<byte>, aad: seq<byte>, payload: seq<byte>): seq<byte> {
    Encode(SigValue(protected, aad, payload))
  }

  function SigValue(protected: seq<byte>, aad: seq<byte>, payload: seq<byte>): Value {
    Array([Text(Ascii("Signature1")), Bytes(protected), Bytes(aad), Bytes(payload)])
  }

  function SignedValue(protected: seq<byte>, payload: seq<byte>, signature: seq<byte>): Value {
    Tag(18, Array([Bytes(protected), Map([]), Bytes(payload), Bytes(signature)]))
  }

  function Sign(x: Scheme, recordType: seq<byte>, scope: seq<byte>, payload: seq<byte>, kid: Digest): seq<byte> {
    var protected := Protected(kid, recordType);
    var signature := x.sign(kid, SigStructure(protected, Aad(recordType, scope), payload));
    Encode(SignedValue(protected, payload, signature))
  }

  /** The three byte strings of a well-structured envelope. */
  datatype Parts = Parts(protected: seq<byte>, payload: seq<byte>, signature: seq<byte>)

  function PartsOf(v: Value): Option<Parts> {
    if v.Tag? && v.tag == 18 && v.inner.Array? && |v.inner.items| == 4 then
      var p := v.inner.items;
      if p[0].Bytes? && p[1] == Map([]) && p[2].Bytes? && p[3].Bytes? && |p[3].bytes| == 64
      then Some(Parts(p[0].bytes, p[2].bytes, p[3].bytes)) else None
    else None
  }

  function Verify(x: Scheme, bytes: seq<byte>, recordType: seq<byte>, scope: seq<byte>, anchors: map<seq<byte>, Role>,
                  allowed: set<Role>): Result<seq<byte>, EnvelopeError>
  {
    match Decode(bytes)
    case Err(e) => Err(Encoding(e))
    case Ok(top) =>
      match PartsOf(top)
      case None => Err(Structure)
      case Some(p) =>
        match Decode(p.protected)
        case Err(e) => Err(Encoding(e))
        case Ok(header) => VerifyHeader(x, header, p, recordType, scope, anchors, allowed)
  }

  function VerifyHeader(x: Scheme, header: Value, p: Parts, recordType: seq<byte>, scope: seq<byte>,
                        anchors: map<seq<byte>, Role>, allowed: set<Role>): Result<seq<byte>, EnvelopeError>
  {
    var fields := FromValue(HEADER, header);
    if fields.Err? || exists i | 0 <= i < 3 :: fields.value[i].None? then Err(Structure)
    else
      var alg, kid, typ := fields.value[0].value, fields.value[1].value, fields.value[2].value;
      if alg != ALG_ED25519 then Err(Algorithm)
      else if typ != Text(TypString(recordType)) then Err(RecordType)
      else if !kid.Bytes? || kid.bytes !in anchors then Err(UnknownKey)
      else if anchors[kid.bytes] !in allowed then Err(RoleNotAllowed(anchors[kid.bytes]))
      else if !x.verify(kid.bytes, SigStructure(p.protected, Aad(recordType, scope), p.payload), p.signature) then
        Err(BadSignature)
      else Ok(p.payload)
  }

  /** The payload of a well-formed envelope, without verification. */
  function UnverifiedPayload(bytes: seq<byte>): Option<seq<byte>> {
    match Decode(bytes)
    case Err(_) => None
    case Ok(v) =>
      if v.Tag? && v.tag == 18 && v.inner.Array? && |v.inner.items| == 4 && v.inner.items[2].Bytes?
      then Some(v.inner.items[2].bytes) else None
  }

  // ----- Theorems -----

  predicate IsAscii(s: seq<byte>) {
    forall i :: 0 <= i < |s| ==> s[i] < 0x80
  }

  lemma {:induction false} AsciiIsUtf8(s: seq<byte>)
    requires IsAscii(s)
    ensures ValidUtf8(s)
    decreases |s|
  {
    if s != [] {
      AsciiIsUtf8(s[1..]);
    }
  }

  /** Sizes that fit a machine. */
  predicate Fitting(s: seq<byte>) {
    |s| < 0x1000_0000_0000_0000
  }

  lemma HeaderSchema()
    ensures Distinct(HEADER) && Converts(HEADER)
  {
  }

  lemma HeaderFits(kid: Digest, recordType: seq<byte>)
    requires IsAscii(recordType) && Fitting(recordType)
    ensures Fits(HEADER, HeaderOf(kid, recordType))
  {
    AsciiIsUtf8(TypString(recordType));
  }

  lemma SignedCodable(protected: seq<byte>, payload: seq<byte>, signature: seq<byte>)
    requires Fitting(protected) && Fitting(payload) && Fitting(signature)
    ensures Codable(SignedValue(protected, payload, signature))
  {
    FlatItems([Bytes(protected), Map([]), Bytes(payload), Bytes(signature)]);
  }

  /** A signed record verifies, under the type and scope it was signed for, and yields its payload. */
  lemma SignedVerifies(x: Scheme, recordType: seq<byte>, scope: seq<byte>, payload: seq<byte>, kid: Digest,
                       anchors: map<seq<byte>, Role>, allowed: set<Role>)
    requires IsAscii(recordType) && Fitting(recordType) && Fitting(payload) && Fitting(Protected(kid, recordType))
    requires var message := SigStructure(Protected(kid, recordType), Aad(recordType, scope), payload);
             |x.sign(kid, message)| == 64 && x.verify(kid, message, x.sign(kid, message))
    requires kid in anchors && anchors[kid] in allowed
    ensures Verify(x, Sign(x, recordType, scope, payload, kid), recordType, scope, anchors, allowed) == Ok(payload)
    ensures UnverifiedPayload(Sign(x, recordType, scope, payload, kid)) == Some(payload)
  {
    var protected := Protected(kid, recordType);
    var signature := x.sign(kid, SigStructure(protected, Aad(recordType, scope), payload));
    var v := SignedValue(protected, payload, signature);
    SignedCodable(protected, payload, signature);
    DecodeExact(Encode(v), v);
    var r := HeaderOf(kid, recordType);
    HeaderSchema();
    HeaderFits(kid, recordType);
    RecordCodable(HEADER, r);
    DecodeExact(protected, ToValue(HEADER, r));
    ValueReads(HEADER, r);
  }

  /** Reading without verification gives what verification gives. */
  lemma UnverifiedAgrees(x: Scheme, bytes: seq<byte>, recordType: seq<byte>, scope: seq<byte>,
                         anchors: map<seq<byte>, Role>, allowed: set<Role>)
    requires Verify(x, bytes, recordType, scope, anchors, allowed).Ok?
    ensures UnverifiedPayload(bytes) == Some(Verify(x, bytes, recordType, scope, anchors, allowed).value)
  {
  }

  lemma SigCodable(protected: seq<byte>, aad: seq<byte>, payload: seq<byte>)
    requires Fitting(protected) && Fitting(aad) && Fitting(payload)
    ensures Codable(SigValue(protected, aad, payload))
  {
    AsciiIsUtf8(Ascii("Signature1"));
    FlatItems([Text(Ascii("Signature1")), Bytes(protected), Bytes(aad), Bytes(payload)]);
  }

  lemma TypStringInjective(a: seq<byte>, b: seq<byte>)
    requires TypString(a) == TypString(b)
    ensures a == b
  {
    var n := |TYP_PREFIX|;
    assert |a| == |b|;
    assert a == TypString(a)[n..n + |a|] && b == TypString(b)[n..n + |b|];
  }

  lemma AadInjective(recordType: seq<byte>, a: seq<byte>, b: seq<byte>)
    requires Aad(recordType, a) == Aad(recordType, b)
    ensures a == b
  {
    var n := |AAD_PREFIX + recordType + SLASH|;
    assert a == Aad(recordType, a)[n..] && b == Aad(recordType, b)[n..];
  }

  /** The parts of an envelope that verification accepts are shorter than the envelope. */
  lemma PartsFit(bytes: seq<byte>, p: Parts)
    requires Decode(bytes).Ok? && PartsOf(Decode(bytes).value) == Some(p)
    ensures |p.protected| <= |bytes| && |p.payload| <= |bytes|
  {
    var v := Decode(bytes).value;
    DecodeExact(bytes, v);
    var items := v.inner.items;
    assert EncodeItems(items) == Encode(items[0]) + EncodeItems(items[1..]);
    assert EncodeItems(items[1..]) == Encode(items[1]) + EncodeItems(items[2..]) by {
      assert items[1..][1..] == items[2..];
    }
    assert EncodeItems(items[2..]) == Encode(items[2]) + EncodeItems(items[2..][1..]);
  }

  /** The message whose signature is checked when `bytes` is verified as `recordType` for `scope`. */
  function CheckedMessage(bytes: seq<byte>, recordType: seq<byte>, scope: seq<byte>): Option<seq<byte>> {
    match Decode(bytes)
    case Err(_) => None
    case Ok(v) =>
      match PartsOf(v)
      case None => None
      case Some(p) => Some(SigStructure(p.protected, Aad(recordType, scope), p.payload))
  }

  /**
   No replay: an accepted envelope whose checked message is one that `Sign` signed was signed for this very record type,
   scope and payload, by a key that is trusted with an allowed role.
   */
  lemma NoReplay(x: Scheme, bytes: seq<byte>, recordType: seq<byte>, scope: seq<byte>, anchors: map<seq<byte>, Role>,
                 allowed: set<Role>, signedType: seq<byte>, signedScope: seq<byte>, signedPayload: seq<byte>,
                 signer: Digest)
    requires Verify(x, bytes, recordType, scope, anchors, allowed).Ok?
    requires CheckedMessage(bytes, recordType, scope) ==
             Some(SigStructure(Protected(signer, signedType), Aad(signedType, signedScope), signedPayload))
    requires Fitting(bytes) && Fitting(Aad(recordType, scope)) && IsAscii(signedType) && Fitting(signedType)
    requires Fitting(Protected(signer, signedType)) && Fitting(Aad(signedType, signedScope)) && Fitting(signedPayload)
    ensures recordType == signedType && scope == signedScope
    ensures Verify(x, bytes, recordType, scope, anchors, allowed) == Ok(signedPayload)
    ensures signer in anchors && anchors[signer] in allowed
  {
    var p := PartsOf(Decode(bytes).value).value;
    PartsFit(bytes, p);
    SameMessage(p.protected, Aad(recordType, scope), p.payload,
                Protected(signer, signedType), Aad(signedType, signedScope), signedPayload);
    var r := HeaderOf(signer, signedType);
    HeaderSchema();
    HeaderFits(signer, signedType);
    RecordCodable(HEADER, r);
    DecodeExact(p.protected, ToValue(HEADER, r));
    ValueReads(HEADER, r);
    TypStringInjective(recordType, signedType);
    AadInjective(recordType, scope, signedScope);
  }

  /** A signed message determines its parts. */
  lemma SameMessage(protected: seq<byte>, aad: seq<byte>, payload: seq<byte>,
                    protected': seq<byte>, aad': seq<byte>, payload': seq<byte>)
    requires Fitting(protected) && Fitting(aad) && Fitting(payload)
    requires Fitting(protected') && Fitting(aad') && Fitting(payload')
    requires SigStructure(protected, aad, payload) == SigStructure(protected', aad', payload')
    ensures protected == protected' && aad == aad' && payload == payload'
  {
    SigCodable(protected, aad, payload);
    SigCodable(protected', aad', payload');
    var a, b := SigValue(protected, aad, payload), SigValue(protected', aad', payload');
    EncodeInjective(a, b);
    assert a.items[1] == b.items[1] && a.items[2] == b.items[2] && a.items[3] == b.items[3];
  }

  // ----- Sizes -----

  /** An envelope is longer than its payload, by the header, the signature and a few heads. */
  lemma EnvelopeSize(x: Scheme, recordType: seq<byte>, scope: seq<byte>, payload: seq<byte>, kid: Digest)
    ensures var protected := Protected(kid, recordType);
            var signature := x.sign(kid, SigStructure(protected, Aad(recordType, scope), payload));
            |payload| < |Sign(x, recordType, scope, payload, kid)| <= |payload| + |protected| + |signature| + 54
  {
    var protected := Protected(kid, recordType);
    var signature := x.sign(kid, SigStructure(protected, Aad(recordType, scope), payload));
    var parts := [Bytes(protected), Map([]), Bytes(payload), Bytes(signature)];
    assert Encode(Map([])) == EncodeHead(5, 0) + EncodeEntries([]);
    assert Encode(Array(parts)) == EncodeHead(4, 4) + EncodeItems(parts);
    assert Encode(SignedValue(protected, payload, signature)) == EncodeHead(6, 18) + Encode(Array(parts));
    PartsSize(parts);
    StringSize(protected);
    StringSize(payload);
    StringSize(signature);
    HeadSize(5, 0);
    HeadSize(6, 18);
    HeadSize(4, 4);
  }

  lemma PartsSize(items: seq<Value>)
    requires |items| == 4
    ensures |EncodeItems(items)| == |Encode(items[0])| + |Encode(items[1])| + |Encode(items[2])| + |Encode(items[3])|
  {
    var a, b, c := items[1..], items[2..], items[3..];
    assert a[1..] == b && b[1..] == c && c[1..] == [];
    assert EncodeItems(c) == Encode(items[3]) + EncodeItems([]);
    assert EncodeItems(b) == Encode(items[2]) + EncodeItems(c);
    assert EncodeItems(a) == Encode(items[1]) + EncodeItems(b);
  }

  lemma ProtectedSize(kid: Digest, recordType: seq<byte>)
    requires |recordType| <= 32
    ensures |Protected(kid, recordType)| <= 300
  {
    var r := HeaderOf(kid, recordType);
    NumberSize(18);
    StringSize(kid);
    StringSize(TypString(recordType));
    FieldsBounded(r, 70);
    RecordSize(HEADER, r);
  }
}
