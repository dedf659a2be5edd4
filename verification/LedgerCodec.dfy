/** Events and checkpoints as bytes: records of the deterministic CBOR profile. */
module LedgerCodec {
  import opened Wrappers
  import opened Hashing
  import opened Cbor
  import opened CborRecord
  import opened CborSizes
  import opened Texts
  import opened Model

  // ----- Field types -----

  function Number(v: Value): Option<Value> {
    if v.Uint? then Some(v) else None
  }

  function TextField(v: Value): Option<Value> {
    if v.Text? && WellFormed(v) then Some(v) else None
  }

  function BootId(v: Value): Option<Value> {
    if v.Bytes? && |v.bytes| == 16 then Some(v) else None
  }

  predicate IsDigest(v: Value) {
    && v.Array? && |v.items| == 2 && v.items[0] == SHA256
    && v.items[1].Bytes? && |v.items[1].bytes| == 32
  }

  /** The algorithm label -16. */
  const SHA256: Value := Nint(15)

  function DigestField(v: Value): Option<Value> {
    if IsDigest(v) then Some(v) else None
  }

  predicate AreDigests(items: seq<Value>) {
    forall i :: 0 <= i < |items| ==> IsDigest(items[i])
  }

  function DigestsField(v: Value): Option<Value> {
    if v.Array? && |v.items| < 0x1_0000_0000_0000_0000 && AreDigests(v.items) then Some(v) else None
  }

  /** An enumeration with codes from one to `n`. */
  predicate IsCode(v: Value, n: nat) {
    v.Uint? && 1 <= v.n <= n
  }

  function KindField(v: Value): Option<Value> {
    if IsCode(v, 14) then Some(v) else None
  }

  function StateField(v: Value): Option<Value> {
    if IsCode(v, 8) then Some(v) else None
  }

  function BasisField(v: Value): Option<Value> {
    if IsCode(v, 4) then Some(v) else None
  }

  function AnchorField(v: Value): Option<Value> {
    if IsCode(v, 2) then Some(v) else None
  }

  const EVENT: seq<Field> :=
    [Field(1, false, Number), Field(2, false, BootId), Field(3, false, Number), Field(4, false, Number),
     Field(5, false, TextField), Field(6, true, TextField), Field(7, false, KindField), Field(8, true, StateField),
     Field(9, true, StateField), Field(10, false, DigestField), Field(11, false, DigestsField),
     Field(12, false, BasisField), Field(13, false, TextField), Field(14, false, DigestField)]

  const CHECKPOINT: seq<Field> :=
    [Field(1, false, TextField), Field(2, false, Number), Field(3, false, DigestField), Field(4, false, BootId),
     Field(5, false, Number), Field(6, false, Number), Field(7, false, AnchorField)]

  // ----- Codes -----

  function KindCode(k: EventKind): (n: nat)
    ensures 1 <= n <= 14 && KindOf(n) == k
  {
    match k
    case Genesis => 1
    case Boot => 2
    case SelfMeasure => 3
    case Discover => 4
    case Transition => 5
    case Mismatch => 6
    case Override => 7
    case Enforcement => 8
    case PolicyLoad => 9
    case KeyEvent => 10
    case CheckpointWritten => 11
    case Recovery => 12
    case DegradedCondition => 13
    case Revocation => 14
  }

  function KindOf(n: nat): EventKind {
    match n
    case 1 => Genesis
    case 2 => Boot
    case 3 => SelfMeasure
    case 4 => Discover
    case 5 => Transition
    case 6 => Mismatch
    case 7 => Override
    case 8 => Enforcement
    case 9 => PolicyLoad
    case 10 => KeyEvent
    case 11 => CheckpointWritten
    case 12 => Recovery
    case 13 => DegradedCondition
    case _ => Revocation
  }

  function StateCode(s: AdmissionState): (n: nat)
    ensures 1 <= n <= 8 && StateOf(n) == s
  {
    match s
    case Unknown => 1
    case Quarantined => 2
    case Observed => 3
    case Verified => 4
    case Admitted => 5
    case Degraded => 6
    case Revoked => 7
    case PolicyBlocked => 8
  }

  function StateOf(n: nat): AdmissionState {
    match n
    case 1 => Unknown
    case 2 => Quarantined
    case 3 => Observed
    case 4 => Verified
    case 5 => Admitted
    case 6 => Degraded
    case 7 => Revoked
    case _ => PolicyBlocked
  }

  function BasisCode(b: Basis): (n: nat)
    ensures 1 <= n <= 4 && BasisOf(n) == b
  {
    match b
    case Cryptographic => 1
    case ByPolicy => 2
    case ManualOverride => 3
    case NoBasis => 4
  }

  function BasisOf(n: nat): Basis {
    match n
    case 1 => Cryptographic
    case 2 => ByPolicy
    case 3 => ManualOverride
    case _ => NoBasis
  }

  function AnchorCode(a: Anchor): (n: nat)
    ensures 1 <= n <= 2 && AnchorOf(n) == a
  {
    if a.Software? then 1 else 2
  }

  function AnchorOf(n: nat): Anchor {
    if n == 1 then Software else Tpm
  }

  // ----- Values -----

  function DigestValue(d: Digest): Value {
    Array([SHA256, Bytes(d)])
  }

  function DigestOf(v: Value): Digest
    requires IsDigest(v)
  {
    v.items[1].bytes
  }

  function DigestValues(ds: seq<Digest>): (vs: seq<Value>)
    ensures |vs| == |ds| && AreDigests(vs)
  {
    if ds == [] then [] else [DigestValue(ds[0])] + DigestValues(ds[1..])
  }

  function DigestsOf(vs: seq<Value>): seq<Digest>
    requires AreDigests(vs)
  {
    if vs == [] then [] else [DigestOf(vs[0])] + DigestsOf(vs[1..])
  }

  lemma {:induction false} DigestsRoundTrip(ds: seq<Digest>)
    ensures DigestsOf(DigestValues(ds)) == ds
  {
    if ds != [] {
      DigestsRoundTrip(ds[1..]);
      assert DigestValues(ds)[1..] == DigestValues(ds[1..]);
      assert ds == [ds[0]] + ds[1..];
    }
  }

  function TextValue(s: string): Value {
    Text(Utf8(s))
  }

  function TextOf(v: Option<Value>): Option<string> {
    if v.Some? && v.value.Text? then FromUtf8(v.value.utf8) else None
  }

  // ----- Events -----

  function OptionalText(s: Option<string>): Option<Value> {
    if s.None? then None else Some(TextValue(s.value))
  }

  function OptionalState(s: Option<AdmissionState>): Option<Value> {
    if s.None? then None else Some(Uint(StateCode(s.value)))
  }

  function EventRecord(e: Event): (r: Record)
    ensures |r| == 14
  {
    var d := e.draft;
    [Some(Uint(AsU64(e.seqno))), Some(Bytes(e.stamp.bootId)), Some(Uint(AsU64(e.stamp.wallTime))),
     Some(Uint(AsU64(e.stamp.monoNs))), Some(TextValue(d.actor)), OptionalText(d.subject), Some(Uint(KindCode(d.kind))),
     OptionalState(d.oldState), OptionalState(d.newState), Some(DigestValue(d.policy)),
     Some(Array(DigestValues(d.evidence))), Some(Uint(BasisCode(d.basis))), Some(TextValue(d.detail)),
     Some(DigestValue(e.prev))]
  }

  function EventBytes(e: Event): seq<byte> {
    ToCbor(EVENT, EventRecord(e))
  }

  predicate IsNumber(v: Option<Value>) {
    v.Some? && v.value.Uint?
  }

  /** The fields have the types that the schema reads. */
  predicate TypedEvent(r: Record) {
    && |r| == 14
    && IsNumber(r[0]) && r[1].Some? && r[1].value.Bytes? && IsNumber(r[2]) && IsNumber(r[3])
    && IsNumber(r[6]) && (r[7].Some? ==> IsNumber(r[7])) && (r[8].Some? ==> IsNumber(r[8]))
    && r[9].Some? && IsDigest(r[9].value) && r[10].Some? && r[10].value.Array? && AreDigests(r[10].value.items)
    && IsNumber(r[11]) && r[13].Some? && IsDigest(r[13].value)
  }

  function StateIn(v: Option<Value>): Option<AdmissionState>
    requires v.Some? ==> IsNumber(v)
  {
    if v.None? then None else Some(StateOf(v.value.n))
  }

  function EventOf(r: Record): Option<Event> {
    if !TypedEvent(r) then None
    else
      var actor :- TextOf(r[4]);
      var detail :- TextOf(r[12]);
      var subject := TextOf(r[5]);
      if r[5].Some? && subject.None? then None
      else
        Some(Event(
               r[0].value.n, Stamp(r[1].value.bytes, r[2].value.n, r[3].value.n),
               EventDraft(actor, subject, KindOf(r[6].value.n), StateIn(r[7]), StateIn(r[8]), DigestOf(r[9].value),
                          DigestsOf(r[10].value.items), BasisOf(r[11].value.n), detail),
               DigestOf(r[13].value)))
  }

  function ParseEvent(bytes: seq<byte>): Option<Event> {
    var r := FromCbor(EVENT, bytes);
    if r.Ok? then EventOf(r.value) else None
  }

  const U64: nat := 0x1_0000_0000_0000_0000

  predicate EncodableStamp(s: Stamp) {
    |s.bootId| == 16 && s.wallTime < U64 && s.monoNs < U64
  }

  predicate EncodableDraft(d: EventDraft) {
    && |Utf8(d.actor)| < U64 && (d.subject.Some? ==> |Utf8(d.subject.value)| < U64) && |Utf8(d.detail)| < U64
    && |d.evidence| < U64
  }

  /** Events whose numbers and lengths fit 64 bits. */
  predicate Encodable(e: Event) {
    e.seqno < U64 && EncodableStamp(e.stamp) && EncodableDraft(e.draft)
  }

  lemma EventKeys()
    ensures Distinct(EVENT)
  {
    assert forall i :: 0 <= i < |EVENT| ==> EVENT[i].key == i + 1;
  }

  lemma {:induction false} DigestsFlat(items: seq<Value>)
    requires AreDigests(items)
    ensures WellFormedItems(items) && ItemsDepth(items) <= 2
    decreases |items|
  {
    if items != [] {
      DigestIsShallow(items[0]);
      DigestsFlat(items[1..]);
    }
  }

  lemma DigestIsShallow(v: Value)
    requires IsDigest(v)
    ensures WellFormed(v) && Depth(v) <= 1
  {
    FlatItems(v.items);
  }

  /** Every field type writes values of the data model, not deeply nested. */
  lemma FieldsAreShallow(v: Value)
    ensures TextField(v).Some? ==> Shallow(v)
    ensures Number(v).Some? ==> Shallow(v)
    ensures BootId(v).Some? ==> Shallow(v)
    ensures DigestField(v).Some? ==> Shallow(v)
    ensures DigestsField(v).Some? ==> Shallow(v)
  {
    if IsDigest(v) {
      DigestIsShallow(v);
    }
    if DigestsField(v).Some? {
      DigestsFlat(v.items);
    }
  }

  lemma EventConverts()
    ensures Converts(EVENT)
  {
    forall i, v | 0 <= i < |EVENT| && EVENT[i].convert(v).Some? ensures Shallow(EVENT[i].convert(v).value) {
      FieldsAreShallow(v);
    }
  }

  lemma TextFits(s: string)
    requires |Utf8(s)| < U64
    ensures TextField(TextValue(s)) == Some(TextValue(s)) && Shallow(TextValue(s))
    ensures TextOf(Some(TextValue(s))) == Some(s)
  {
    TextRoundTrip(s);
  }

  lemma DraftTextsFit(d: EventDraft)
    requires EncodableDraft(d)
    ensures FieldFits(EVENT[4], Some(TextValue(d.actor))) && TextOf(Some(TextValue(d.actor))) == Some(d.actor)
    ensures FieldFits(EVENT[12], Some(TextValue(d.detail))) && TextOf(Some(TextValue(d.detail))) == Some(d.detail)
    ensures FieldFits(EVENT[5], OptionalText(d.subject)) && TextOf(OptionalText(d.subject)) == d.subject
  {
    TextFits(d.actor);
    TextFits(d.detail);
    if d.subject.Some? {
      TextFits(d.subject.value);
    }
  }

  lemma DigestFits(d: Digest)
    ensures DigestField(DigestValue(d)) == Some(DigestValue(d)) && Shallow(DigestValue(d))
    ensures DigestOf(DigestValue(d)) == d
  {
    DigestIsShallow(DigestValue(d));
  }

  lemma DigestsFit(ds: seq<Digest>)
    requires |ds| < U64
    ensures DigestsField(Array(DigestValues(ds))) == Some(Array(DigestValues(ds))) && Shallow(Array(DigestValues(ds)))
  {
    DigestsFlat(DigestValues(ds));
  }

  lemma NumbersFit(e: Event)
    requires Encodable(e)
    ensures FieldFits(EVENT[0], Some(Uint(AsU64(e.seqno)))) && FieldFits(EVENT[1], Some(Bytes(e.stamp.bootId)))
    ensures FieldFits(EVENT[2], Some(Uint(AsU64(e.stamp.wallTime))))
    ensures FieldFits(EVENT[3], Some(Uint(AsU64(e.stamp.monoNs))))
  {
  }

  lemma CodesFit(d: EventDraft)
    ensures FieldFits(EVENT[6], Some(Uint(KindCode(d.kind)))) && FieldFits(EVENT[11], Some(Uint(BasisCode(d.basis))))
    ensures FieldFits(EVENT[7], OptionalState(d.oldState)) && FieldFits(EVENT[8], OptionalState(d.newState))
  {
  }

  lemma DigestFieldsFit(e: Event)
    requires |e.draft.evidence| < U64
    ensures FieldFits(EVENT[9], Some(DigestValue(e.draft.policy))) && FieldFits(EVENT[13], Some(DigestValue(e.prev)))
    ensures FieldFits(EVENT[10], Some(Array(DigestValues(e.draft.evidence))))
  {
    DigestFits(e.draft.policy);
    DigestFits(e.prev);
    DigestsFit(e.draft.evidence);
  }

  lemma FourteenFit(schema: seq<Field>, r: Record)
    requires |schema| == |r| == 14
    requires FieldFits(schema[0], r[0]) && FieldFits(schema[1], r[1]) && FieldFits(schema[2], r[2])
    requires FieldFits(schema[3], r[3]) && FieldFits(schema[4], r[4]) && FieldFits(schema[5], r[5])
    requires FieldFits(schema[6], r[6]) && FieldFits(schema[7], r[7]) && FieldFits(schema[8], r[8])
    requires FieldFits(schema[9], r[9]) && FieldFits(schema[10], r[10]) && FieldFits(schema[11], r[11])
    requires FieldFits(schema[12], r[12]) && FieldFits(schema[13], r[13])
    ensures Fits(schema, r)
  {
  }

  lemma EventFits(e: Event)
    requires Encodable(e)
    ensures Fits(EVENT, EventRecord(e))
  {
    NumbersFit(e);
    DraftTextsFit(e.draft);
    CodesFit(e.draft);
    DigestFieldsFit(e);
    FourteenFit(EVENT, EventRecord(e));
  }

  lemma EventIsTyped(e: Event)
    ensures TypedEvent(EventRecord(e))
  {
  }

  lemma StateReads(s: Option<AdmissionState>)
    ensures (OptionalState(s).Some? ==> IsNumber(OptionalState(s))) && StateIn(OptionalState(s)) == s
  {
  }

  lemma EventReads(e: Event)
    requires Encodable(e)
    ensures EventOf(EventRecord(e)) == Some(e)
  {
    var d, r := e.draft, EventRecord(e);
    EventIsTyped(e);
    DraftTextsFit(d);
    DigestsRoundTrip(d.evidence);
    StateReads(d.oldState);
    StateReads(d.newState);
    assert r[7] == OptionalState(d.oldState) && r[8] == OptionalState(d.newState);
    assert r[4] == Some(TextValue(d.actor)) && r[12] == Some(TextValue(d.detail)) && r[5] == OptionalText(d.subject);
    assert KindOf(r[6].value.n) == d.kind && BasisOf(r[11].value.n) == d.basis;
    assert Stamp(r[1].value.bytes, r[2].value.n, r[3].value.n) == e.stamp;
  }

  /** An event reads back from its bytes. */
  lemma EventRoundTrip(e: Event)
    requires Encodable(e)
    ensures ParseEvent(EventBytes(e)) == Some(e)
  {
    EventKeys();
    EventConverts();
    EventFits(e);
    RecordExact(EVENT, EventRecord(e), EventBytes(e));
    EventReads(e);
  }

  // ----- Whatever parses is what would be written -----

  lemma CodesExact(n: nat)
    ensures 1 <= n <= 14 ==> KindCode(KindOf(n)) == n
    ensures 1 <= n <= 8 ==> StateCode(StateOf(n)) == n
    ensures 1 <= n <= 4 ==> BasisCode(BasisOf(n)) == n
    ensures 1 <= n <= 2 ==> AnchorCode(AnchorOf(n)) == n
  {
  }

  lemma {:induction false} DigestsExact(vs: seq<Value>)
    requires AreDigests(vs)
    ensures DigestValues(DigestsOf(vs)) == vs
    decreases |vs|
  {
    if vs != [] {
      DigestsExact(vs[1..]);
      DigestExact(vs[0]);
      assert DigestsOf(vs)[1..] == DigestsOf(vs[1..]) && vs == [vs[0]] + vs[1..];
    }
  }

  lemma DigestExact(v: Value)
    requires IsDigest(v)
    ensures DigestValue(DigestOf(v)) == v
  {
    assert v.items == [SHA256, v.items[1]];
  }

  lemma TextIsExact(v: Option<Value>, s: string)
    requires TextOf(v) == Some(s)
    ensures v == Some(TextValue(s))
  {
    TextExact(v.value.utf8, s);
  }

  lemma StateExact(v: Option<Value>)
    requires v.Some? ==> IsCode(v.value, 8)
    ensures OptionalState(StateIn(v)) == v
  {
    if v.Some? {
      CodesExact(v.value.n);
    }
  }

  /** What the schema accepts in each field. */
  predicate EventFields(r: Record) {
    && TypedEvent(r) && |r[1].value.bytes| == 16
    && IsCode(r[6].value, 14) && IsCode(r[11].value, 4)
    && (r[7].Some? ==> IsCode(r[7].value, 8)) && (r[8].Some? ==> IsCode(r[8].value, 8))
    && |r[10].value.items| < U64
    && ShortText(r[4]) && ShortText(r[12]) && (r[5].Some? ==> ShortText(r[5]))
  }

  predicate ShortText(v: Option<Value>) {
    v.Some? && v.value.Text? && |v.value.utf8| < U64
  }

  lemma FittingFields(r: Record)
    requires Fits(EVENT, r)
    ensures EventFields(r)
  {
    assert FieldFits(EVENT[0], r[0]) && FieldFits(EVENT[1], r[1]) && FieldFits(EVENT[2], r[2]);
    assert FieldFits(EVENT[3], r[3]) && FieldFits(EVENT[4], r[4]) && FieldFits(EVENT[5], r[5]);
    assert FieldFits(EVENT[6], r[6]) && FieldFits(EVENT[7], r[7]) && FieldFits(EVENT[8], r[8]);
    assert FieldFits(EVENT[9], r[9]) && FieldFits(EVENT[10], r[10]) && FieldFits(EVENT[11], r[11]);
    assert FieldFits(EVENT[12], r[12]) && FieldFits(EVENT[13], r[13]);
  }

  lemma SubjectExact(v: Option<Value>)
    requires v.Some? ==> TextOf(v).Some?
    ensures OptionalText(TextOf(v)) == v
  {
    if v.Some? {
      TextIsExact(v, TextOf(v).value);
    }
  }

  /** Field by field, an event holds what the record holds. */
  predicate ReadFrom(r: Record, e: Event)
    requires TypedEvent(r)
  {
    && e.seqno == r[0].value.n && e.stamp == Stamp(r[1].value.bytes, r[2].value.n, r[3].value.n)
    && TextOf(r[4]) == Some(e.draft.actor) && TextOf(r[12]) == Some(e.draft.detail)
    && TextOf(r[5]) == e.draft.subject && (r[5].Some? ==> TextOf(r[5]).Some?)
    && e.draft.kind == KindOf(r[6].value.n) && e.draft.basis == BasisOf(r[11].value.n)
    && e.draft.oldState == StateIn(r[7]) && e.draft.newState == StateIn(r[8])
    && e.draft.policy == DigestOf(r[9].value) && e.prev == DigestOf(r[13].value)
    && e.draft.evidence == DigestsOf(r[10].value.items)
  }

  lemma EventExactRecord(r: Record, e: Event)
    requires EventFields(r) && ReadFrom(r, e)
    ensures r == EventRecord(e)
  {
    TextIsExact(r[4], e.draft.actor);
    TextIsExact(r[12], e.draft.detail);
    SubjectExact(r[5]);
    CodesExact(r[6].value.n);
    CodesExact(r[11].value.n);
    StateExact(r[7]);
    StateExact(r[8]);
    DigestExact(r[9].value);
    DigestExact(r[13].value);
    DigestsExact(r[10].value.items);
  }

  lemma ReadIsEncodable(r: Record, e: Event)
    requires EventFields(r) && ReadFrom(r, e)
    ensures Encodable(e)
  {
    TextIsExact(r[4], e.draft.actor);
    TextIsExact(r[12], e.draft.detail);
    SubjectExact(r[5]);
    DigestsExact(r[10].value.items);
  }

  lemma EventIsRead(r: Record, e: Event)
    requires EventOf(r) == Some(e)
    ensures TypedEvent(r) && ReadFrom(r, e)
  {
  }

  lemma ParsedIsWritten(bytes: seq<byte>, r: Record, e: Event)
    requires FromCbor(EVENT, bytes) == Ok(r) && EventOf(r) == Some(e)
    ensures Encodable(e) && bytes == EventBytes(e)
  {
    EventKeys();
    EventConverts();
    RecordExact(EVENT, r, bytes);
    FittingFields(r);
    EventIsRead(r, e);
    EventExactRecord(r, e);
    ReadIsEncodable(r, e);
  }

  /** Bytes parse as an event if and only if its numbers and lengths fit 64 bits and they are what would be written. */
  lemma EventExact(bytes: seq<byte>, e: Event)
    ensures ParseEvent(bytes) == Some(e) <==> Encodable(e) && bytes == EventBytes(e)
  {
    if Encodable(e) {
      EventRoundTrip(e);
    }
    var r := FromCbor(EVENT, bytes);
    if r.Ok? && EventOf(r.value) == Some(e) {
      ParsedIsWritten(bytes, r.value, e);
    }
  }

  // ----- How long an event is -----

  const TEXT_LIMIT: nat := 0x1_0000

  /** Drafts whose texts, and whose evidence of 59 bytes a digest, stay within a limit. */
  predicate Within(d: EventDraft, limit: nat) {
    && |Utf8(d.actor)| <= limit && |Utf8(d.detail)| <= limit && (d.subject.Some? ==> |Utf8(d.subject.value)| <= limit)
    && 59 * |d.evidence| <= limit && 64 <= limit
  }

  /** Drafts with up to 64 KiB of each. */
  predicate Modest(d: EventDraft) {
    Within(d, TEXT_LIMIT)
  }

  lemma DigestSize(d: Digest)
    ensures |Encode(DigestValue(d))| <= 59
  {
    NumberSize(15);
    StringSize(d);
    var items := [SHA256, Bytes(d)];
    assert items[1..][1..] == [];
    assert EncodeItems(items) == Encode(SHA256) + EncodeItems(items[1..]);
    assert EncodeItems(items[1..]) == Encode(Bytes(d)) + EncodeItems([]);
    HeadSize(4, 2);
  }

  lemma {:induction false} DigestValueAt(ds: seq<Digest>, i: nat)
    requires i < |ds|
    ensures DigestValues(ds)[i] == DigestValue(ds[i])
  {
    if i > 0 {
      DigestValueAt(ds[1..], i - 1);
    }
  }

  lemma DigestsSize(ds: seq<Digest>)
    ensures |Encode(Array(DigestValues(ds)))| <= 9 + 59 * |ds|
  {
    var vs := DigestValues(ds);
    forall i | 0 <= i < |vs| ensures |Encode(vs[i])| <= 59 {
      DigestValueAt(ds, i);
      DigestSize(ds[i]);
    }
    ItemsSize(vs, 59);
    HeadSize(4, AsU64(|vs|));
  }

  lemma FieldsWithin(e: Event, limit: nat)
    requires Within(e.draft, limit) && |e.stamp.bootId| == 16
    ensures FieldsUpTo(EventRecord(e), limit + 9)
  {
    var d, r := e.draft, EventRecord(e);
    StringSize(Utf8(d.actor));
    StringSize(Utf8(d.detail));
    if d.subject.Some? {
      StringSize(Utf8(d.subject.value));
    }
    StringSize(e.stamp.bootId);
    DigestSize(d.policy);
    DigestSize(e.prev);
    DigestsSize(d.evidence);
    forall i | 0 <= i < 14 && r[i].Some? ensures |Encode(r[i].value)| <= limit + 9 {
      if r[i].value.Uint? {
        NumberSize(r[i].value.n);
      }
    }
  }

  lemma EventSize(e: Event, limit: nat)
    requires Within(e.draft, limit) && |e.stamp.bootId| == 16
    ensures |EventBytes(e)| <= 9 + 14 * (limit + 18)
  {
    FieldsWithin(e, limit);
    FieldsBounded(EventRecord(e), limit + 9);
    RecordSize(EVENT, EventRecord(e));
  }

  /** An event is longer than its detail. */
  lemma DetailSize(e: Event)
    ensures |Utf8(e.draft.detail)| < |EventBytes(e)|
  {
    EventKeys();
    StringSize(Utf8(e.draft.detail));
    FieldSize(EVENT, EventRecord(e), 12);
  }

  // ----- Checkpoints -----

  function CheckpointRecord(cp: Checkpoint): (r: Record)
    ensures |r| == 7
  {
    [Some(TextValue(cp.origin)), Some(Uint(AsU64(cp.size))), Some(DigestValue(cp.root)), Some(Bytes(cp.bootId)),
     Some(Uint(AsU64(cp.wallTime))), Some(Uint(AsU64(cp.counter))), Some(Uint(AnchorCode(cp.anchor)))]
  }

  function CheckpointBytes(cp: Checkpoint): seq<byte> {
    ToCbor(CHECKPOINT, CheckpointRecord(cp))
  }

  predicate TypedCheckpoint(r: Record) {
    && |r| == 7 && IsNumber(r[1]) && r[2].Some? && IsDigest(r[2].value) && r[3].Some? && r[3].value.Bytes?
    && IsNumber(r[4]) && IsNumber(r[5]) && IsNumber(r[6])
  }

  function CheckpointOf(r: Record): Option<Checkpoint> {
    if !TypedCheckpoint(r) then None
    else
      var origin :- TextOf(r[0]);
      Some(Checkpoint(origin, r[1].value.n, DigestOf(r[2].value), r[3].value.bytes, r[4].value.n, r[5].value.n,
                      AnchorOf(r[6].value.n)))
  }

  function ParseCheckpoint(bytes: seq<byte>): Option<Checkpoint> {
    var r := FromCbor(CHECKPOINT, bytes);
    if r.Ok? then CheckpointOf(r.value) else None
  }

  predicate EncodableCheckpoint(cp: Checkpoint) {
    && |Utf8(cp.origin)| < U64 && cp.size < U64 && |cp.bootId| == 16 && cp.wallTime < U64 && cp.counter < U64
  }

  lemma CheckpointSchema()
    ensures Distinct(CHECKPOINT) && Converts(CHECKPOINT)
  {
    assert forall i :: 0 <= i < |CHECKPOINT| ==> CHECKPOINT[i].key == i + 1;
    forall i, v | 0 <= i < |CHECKPOINT| && CHECKPOINT[i].convert(v).Some?
      ensures Shallow(CHECKPOINT[i].convert(v).value)
    {
      FieldsAreShallow(v);
    }
  }

  lemma CheckpointFits(cp: Checkpoint)
    requires EncodableCheckpoint(cp)
    ensures Fits(CHECKPOINT, CheckpointRecord(cp))
  {
    TextFits(cp.origin);
    DigestFits(cp.root);
  }

  /** A checkpoint reads back from its bytes. */
  lemma CheckpointRoundTrip(cp: Checkpoint)
    requires EncodableCheckpoint(cp)
    ensures ParseCheckpoint(CheckpointBytes(cp)) == Some(cp)
  {
    CheckpointSchema();
    CheckpointFits(cp);
    RecordExact(CHECKPOINT, CheckpointRecord(cp), CheckpointBytes(cp));
    TextFits(cp.origin);
  }

  predicate CheckpointFields(r: Record) {
    && TypedCheckpoint(r) && ShortText(r[0]) && |r[3].value.bytes| == 16 && IsCode(r[6].value, 2)
  }

  lemma FittingCheckpoint(r: Record)
    requires Fits(CHECKPOINT, r)
    ensures CheckpointFields(r)
  {
    assert FieldFits(CHECKPOINT[0], r[0]) && FieldFits(CHECKPOINT[1], r[1]) && FieldFits(CHECKPOINT[2], r[2]);
    assert FieldFits(CHECKPOINT[3], r[3]) && FieldFits(CHECKPOINT[4], r[4]) && FieldFits(CHECKPOINT[5], r[5]);
    assert FieldFits(CHECKPOINT[6], r[6]);
  }

  lemma CheckpointExactRecord(r: Record, cp: Checkpoint)
    requires CheckpointFields(r) && CheckpointOf(r) == Some(cp)
    ensures r == CheckpointRecord(cp) && EncodableCheckpoint(cp)
  {
    TextIsExact(r[0], cp.origin);
    DigestExact(r[2].value);
    CodesExact(r[6].value.n);
  }

  /** Bytes parse as a checkpoint if and only if it fits and they are what would be written. */
  lemma CheckpointExact(bytes: seq<byte>, cp: Checkpoint)
    ensures ParseCheckpoint(bytes) == Some(cp) <==> EncodableCheckpoint(cp) && bytes == CheckpointBytes(cp)
  {
    CheckpointSchema();
    if EncodableCheckpoint(cp) {
      CheckpointRoundTrip(cp);
    }
    var r := FromCbor(CHECKPOINT, bytes);
    if r.Ok? && CheckpointOf(r.value) == Some(cp) {
      RecordExact(CHECKPOINT, r.value, bytes);
      FittingCheckpoint(r.value);
      CheckpointExactRecord(r.value, cp);
    }
  }

  lemma CheckpointSize(cp: Checkpoint)
    requires |Utf8(cp.origin)| <= TEXT_LIMIT && |cp.bootId| == 16
    ensures |CheckpointBytes(cp)| <= 9 + 7 * (TEXT_LIMIT + 18)
  {
    var r := CheckpointRecord(cp);
    StringSize(Utf8(cp.origin));
    StringSize(cp.bootId);
    DigestSize(cp.root);
    forall i | 0 <= i < 7 && r[i].Some? ensures |Encode(r[i].value)| <= TEXT_LIMIT + 9 {
      if r[i].value.Uint? {
        NumberSize(r[i].value.n);
      }
    }
    FieldsBounded(r, TEXT_LIMIT + 9);
    RecordSize(CHECKPOINT, r);
  }
}
