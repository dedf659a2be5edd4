/** What the stored bytes are, in the terms of the formats they follow. */
module Layouts {
  import opened Wrappers
  import opened Hashing
  import opened BigEndian
  import opened Cbor
  import opened CborProofs
  import opened CborRecord
  import opened CborWire
  import opened Texts
  import opened Model
  import Framing
  import Envelope
  import LedgerCodec
  import BootCodec
  import BootState

  // ----- Frames -----

  /** What is hashed for the check of a frame's length: "JLR-frame" and the length, each after its own length. */
  function CheckMessage(length: seq<byte>): seq<byte> {
    [0, 0, 0, 0, 0, 0, 0, 9] + [0x4a, 0x4c, 0x52, 0x2d, 0x66, 0x72, 0x61, 0x6d, 0x65] +
    [0, 0, 0, 0, 0, 0, 0, 4] + length
  }

  lemma {:induction false} ZeroBe(w: nat)
    ensures forall i :: 0 <= i < w ==> Be(0, w)[i] == 0
  {
    if w > 0 {
      ZeroBe(w - 1);
    }
  }

  lemma EightBytes(n: nat)
    requires n < 256
    ensures Be(n, 8) == [0, 0, 0, 0, 0, 0, 0, n]
  {
    ZeroBe(7);
    assert Be(n, 8) == Be(0, 7) + [n];
  }

  lemma MessageIs(length: seq<byte>)
    requires |length| == 4
    ensures Be(|Framing.CONTEXT|, 8) + Framing.CONTEXT + Framing.PartsMessage([length]) == CheckMessage(length)
  {
    EightBytes(9);
    EightBytes(4);
    assert Framing.PartsMessage([length]) == Be(4, 8) + length + Framing.PartsMessage([]);
  }

  lemma LengthIs(n: nat)
    requires n < 0x1_0000_0000
    ensures var s := Be(n, 4);
            Four(s[0], s[1], s[2], s[3]) == n
  {
    Ranges();
    FromBeOfBe(n, 4);
    FromBeBytes(Be(n, 4));
  }

  /**
   A frame: four bytes of length, most significant first, four bytes of the hash that checks them, and the envelope.
   */
  lemma FrameIs(h: Sha, envelope: seq<byte>)
    requires |envelope| < 0x1_0000_0000
    ensures var f := Framing.Frame(h, envelope);
            && |f| == 8 + |envelope| && Four(f[0], f[1], f[2], f[3]) == |envelope|
            && f[4..8] == h(CheckMessage(f[..4]))[..4] && f[8..] == envelope
  {
    var f, length := Framing.Frame(h, envelope), Be(|envelope|, 4);
    LengthIs(|envelope|);
    MessageIs(length);
    assert f[..4] == length && f[8..] == envelope;
    assert f[4..8] == Framing.HashParts(h, Framing.CONTEXT, [length])[..4];
  }

  // ----- Envelopes -----

  /** The bytes of an ASCII text. */
  predicate IsText(text: string, bytes: seq<byte>) {
    |bytes| == |text| && forall i :: 0 <= i < |text| ==> bytes[i] == text[i] as int
  }

  /** The protected header: algorithm -19, the key, and the media type of the record. */
  predicate IsHeader(entries: seq<Entry>, kid: Digest, typ: seq<byte>) {
    && Holds(entries, 1, Nint(18)) && Holds(entries, 4, Bytes(kid)) && Holds(entries, 16, Text(typ))
    && forall x :: 0 <= x < |entries| ==> entries[x].key in {Uint(1), Uint(4), Uint(16)}
  }

  lemma HeaderIs(kid: Digest, recordType: seq<byte>)
    requires Envelope.IsAscii(recordType) && Envelope.Fitting(recordType)
    ensures var v := Decode(Envelope.Protected(kid, recordType));
            v.Ok? && v.value.Map? && IsHeader(v.value.entries, kid, Envelope.TypString(recordType))
  {
    var r := Envelope.HeaderOf(kid, recordType);
    Envelope.HeaderSchema();
    Envelope.HeaderFits(kid, recordType);
    RecordIsMap(Envelope.HEADER, r);
    var entries := ToValue(Envelope.HEADER, r).entries;
    assert Holds(entries, Envelope.HEADER[0].key, r[0].value) && Holds(entries, Envelope.HEADER[1].key, r[1].value);
    assert Holds(entries, Envelope.HEADER[2].key, r[2].value);
    forall x | 0 <= x < |entries| ensures entries[x].key in {Uint(1), Uint(4), Uint(16)} {
      assert FromField(Envelope.HEADER, r, entries[x]);
    }
  }

  lemma AsciiIs(s: string)
    requires forall i :: 0 <= i < |s| ==> s[i] as int < 128
    ensures IsText(s, Envelope.Ascii(s))
  {
  }

  /** The media type of a record, and what its signature covers besides it: literal text around type and scope. */
  lemma TextsAre(recordType: seq<byte>, scope: seq<byte>)
    ensures Envelope.TypString(recordType) ==
            Envelope.Ascii("application/vnd.jlr.") + recordType + Envelope.Ascii("+cbor;v=1")
    ensures Envelope.Aad(recordType, scope) == Envelope.Ascii("JLR/1/") + recordType + ['/' as int] + scope
  {
  }

  /**
   A signed record is a COSE_Sign1 (RFC 9052): tag 18 over header, empty map, payload and signature; the signature is
   over the Sig_structure with the record type and the scope as external data.
   */
  lemma EnvelopeIs(x: Envelope.Scheme, recordType: seq<byte>, scope: seq<byte>, payload: seq<byte>, kid: Digest)
    requires Envelope.IsAscii(recordType) && Envelope.Fitting(recordType) && Envelope.Fitting(payload)
    requires Envelope.Fitting(Envelope.Protected(kid, recordType))
    requires forall message :: |x.sign(kid, message)| == 64
    ensures var protected, aad := Envelope.Protected(kid, recordType), Envelope.Aad(recordType, scope);
            var context := Text(Envelope.Ascii("Signature1"));
            var message := Encode(Array([context, Bytes(protected), Bytes(aad), Bytes(payload)]));
            Decode(Envelope.Sign(x, recordType, scope, payload, kid)) ==
            Ok(Tag(18, Array([Bytes(protected), Map([]), Bytes(payload), Bytes(x.sign(kid, message))])))
  {
    var protected := Envelope.Protected(kid, recordType);
    var message := Envelope.SigStructure(protected, Envelope.Aad(recordType, scope), payload);
    Envelope.SignedCodable(protected, payload, x.sign(kid, message));
    var v := Envelope.SignedValue(protected, payload, x.sign(kid, message));
    DecodeExact(Encode(v), v);
  }

  // ----- Events and checkpoints -----

  const KINDS: seq<EventKind> :=
    [Genesis, Boot, SelfMeasure, Discover, Transition, Mismatch, Override, Enforcement, PolicyLoad, KeyEvent,
     CheckpointWritten, Recovery, DegradedCondition, Revocation]

  const STATES: seq<AdmissionState> :=
    [Unknown, Quarantined, Observed, Verified, Admitted, Degraded, Revoked, PolicyBlocked]

  const BASES: seq<Basis> := [Cryptographic, ByPolicy, ManualOverride, NoBasis]

  /** An enumeration is written as its position, counted from one. */
  predicate CodeIn<T(==)>(names: seq<T>, x: T, entries: seq<Entry>, key: u64) {
    exists n: u64 :: 1 <= n <= |names| && names[n - 1] == x && Holds(entries, key, Uint(n))
  }

  /** A digest is written with its algorithm, -16. */
  function DigestPair(d: Digest): Value {
    Array([Nint(15), Bytes(d)])
  }

  function Pairs(ds: seq<Digest>): seq<Value> {
    seq(|ds|, i requires 0 <= i < |ds| => DigestPair(ds[i]))
  }

  /** The keys and values of an event. */
  predicate IsEvent(entries: seq<Entry>, e: Event)
    requires LedgerCodec.Encodable(e)
  {
    && Holds(entries, 1, Uint(e.seqno)) && Holds(entries, 2, Bytes(e.stamp.bootId))
    && Holds(entries, 3, Uint(e.stamp.wallTime)) && Holds(entries, 4, Uint(e.stamp.monoNs))
    && Holds(entries, 5, Text(Utf8(e.draft.actor)))
    && (e.draft.subject.Some? ==> Holds(entries, 6, Text(Utf8(e.draft.subject.value))))
    && CodeIn(KINDS, e.draft.kind, entries, 7)
    && (e.draft.oldState.Some? ==> CodeIn(STATES, e.draft.oldState.value, entries, 8))
    && (e.draft.newState.Some? ==> CodeIn(STATES, e.draft.newState.value, entries, 9))
    && Holds(entries, 10, DigestPair(e.draft.policy))
    && Holds(entries, 11, Array(Pairs(e.draft.evidence)))
    && CodeIn(BASES, e.draft.basis, entries, 12) && Holds(entries, 13, Text(Utf8(e.draft.detail)))
    && Holds(entries, 14, DigestPair(e.prev))
  }

  lemma {:induction false} DigestsAre(ds: seq<Digest>)
    ensures LedgerCodec.DigestValues(ds) == Pairs(ds)
    decreases |ds|
  {
    if ds != [] {
      DigestsAre(ds[1..]);
    }
  }

  lemma CodesAre(k: EventKind, s: AdmissionState, b: Basis)
    ensures KINDS[LedgerCodec.KindCode(k) - 1] == k && STATES[LedgerCodec.StateCode(s) - 1] == s
    ensures BASES[LedgerCodec.BasisCode(b) - 1] == b
  {
  }

  lemma FieldHeld(schema: seq<Field>, r: Record, entries: seq<Entry>, i: nat)
    requires |r| == |schema| && RecordMap(schema, r, entries) && i < |r| && r[i].Some?
    ensures Holds(entries, schema[i].key, r[i].value)
  {
  }

  lemma FieldHeldAs(schema: seq<Field>, r: Record, entries: seq<Entry>, i: nat, key: u64, v: Value)
    requires |r| == |schema| && RecordMap(schema, r, entries) && i < |r| && schema[i].key == key && r[i] == Some(v)
    ensures Holds(entries, key, v)
  {
  }

  lemma NumberHeld(schema: seq<Field>, r: Record, entries: seq<Entry>, i: nat, key: u64, n: nat)
    requires |r| == |schema| && RecordMap(schema, r, entries) && i < |r| && schema[i].key == key
    requires r[i] == Some(Uint(AsU64(n))) && n < 0x1_0000_0000_0000_0000
    ensures Holds(entries, key, Uint(n))
  {
    FieldHeldAs(schema, r, entries, i, key, Uint(n));
  }

  lemma NumberFields(e: Event)
    ensures var r := LedgerCodec.EventRecord(e);
            && r[0] == Some(Uint(AsU64(e.seqno))) && r[1] == Some(Bytes(e.stamp.bootId))
            && r[2] == Some(Uint(AsU64(e.stamp.wallTime))) && r[3] == Some(Uint(AsU64(e.stamp.monoNs)))
    ensures var s := LedgerCodec.EVENT;
            |s| == 14 && s[0].key == 1 && s[1].key == 2 && s[2].key == 3 && s[3].key == 4
  {
  }

  /** The numbers among an event's fields, given by name. */
  lemma NumbersHeld(e: Event, schema: seq<Field>, r: Record, entries: seq<Entry>)
    requires LedgerCodec.Encodable(e) && |r| == |schema| == 14 && RecordMap(schema, r, entries)
    requires r[0] == Some(Uint(AsU64(e.seqno))) && r[1] == Some(Bytes(e.stamp.bootId))
    requires r[2] == Some(Uint(AsU64(e.stamp.wallTime))) && r[3] == Some(Uint(AsU64(e.stamp.monoNs)))
    requires schema[0].key == 1 && schema[1].key == 2 && schema[2].key == 3 && schema[3].key == 4
    ensures Holds(entries, 1, Uint(e.seqno)) && Holds(entries, 2, Bytes(e.stamp.bootId))
    ensures Holds(entries, 3, Uint(e.stamp.wallTime)) && Holds(entries, 4, Uint(e.stamp.monoNs))
  {
    NumberHeld(schema, r, entries, 0, 1, e.seqno);
    FieldHeldAs(schema, r, entries, 1, 2, Bytes(e.stamp.bootId));
    NumberHeld(schema, r, entries, 2, 3, e.stamp.wallTime);
    NumberHeld(schema, r, entries, 3, 4, e.stamp.monoNs);
  }

  lemma EventNumbers(e: Event, entries: seq<Entry>)
    requires LedgerCodec.Encodable(e) && RecordMap(LedgerCodec.EVENT, LedgerCodec.EventRecord(e), entries)
    ensures Holds(entries, 1, Uint(e.seqno)) && Holds(entries, 2, Bytes(e.stamp.bootId))
    ensures Holds(entries, 3, Uint(e.stamp.wallTime)) && Holds(entries, 4, Uint(e.stamp.monoNs))
  {
    NumberFields(e);
    NumbersHeld(e, LedgerCodec.EVENT, LedgerCodec.EventRecord(e), entries);
  }

  lemma EventTexts(e: Event, entries: seq<Entry>)
    requires RecordMap(LedgerCodec.EVENT, LedgerCodec.EventRecord(e), entries)
    ensures Holds(entries, 5, Text(Utf8(e.draft.actor))) && Holds(entries, 13, Text(Utf8(e.draft.detail)))
    ensures e.draft.subject.Some? ==> Holds(entries, 6, Text(Utf8(e.draft.subject.value)))
  {
    FieldHeld(LedgerCodec.EVENT, LedgerCodec.EventRecord(e), entries, 4);
    FieldHeld(LedgerCodec.EVENT, LedgerCodec.EventRecord(e), entries, 12);
    if e.draft.subject.Some? {
      FieldHeld(LedgerCodec.EVENT, LedgerCodec.EventRecord(e), entries, 5);
    }
  }

  lemma EventDigests(e: Event, entries: seq<Entry>)
    requires RecordMap(LedgerCodec.EVENT, LedgerCodec.EventRecord(e), entries)
    ensures Holds(entries, 10, DigestPair(e.draft.policy)) && Holds(entries, 14, DigestPair(e.prev))
    ensures Holds(entries, 11, Array(Pairs(e.draft.evidence)))
  {
    FieldHeld(LedgerCodec.EVENT, LedgerCodec.EventRecord(e), entries, 9);
    FieldHeld(LedgerCodec.EVENT, LedgerCodec.EventRecord(e), entries, 10);
    FieldHeld(LedgerCodec.EVENT, LedgerCodec.EventRecord(e), entries, 13);
    DigestsAre(e.draft.evidence);
  }

  lemma EventState(s: Option<AdmissionState>, r: Record, entries: seq<Entry>, i: nat)
    requires |r| == 14 && RecordMap(LedgerCodec.EVENT, r, entries)
    requires 7 <= i <= 8 && r[i] == LedgerCodec.OptionalState(s)
    ensures s.Some? ==> CodeIn(STATES, s.value, entries, i + 1)
  {
    if s.Some? {
      FieldHeld(LedgerCodec.EVENT, r, entries, i);
      CodesAre(Genesis, s.value, NoBasis);
      assert Holds(entries, i + 1, Uint(LedgerCodec.StateCode(s.value)));
    }
  }

  lemma EventCodes(e: Event, entries: seq<Entry>)
    requires RecordMap(LedgerCodec.EVENT, LedgerCodec.EventRecord(e), entries)
    ensures CodeIn(KINDS, e.draft.kind, entries, 7) && CodeIn(BASES, e.draft.basis, entries, 12)
    ensures e.draft.oldState.Some? ==> CodeIn(STATES, e.draft.oldState.value, entries, 8)
    ensures e.draft.newState.Some? ==> CodeIn(STATES, e.draft.newState.value, entries, 9)
  {
    var r := LedgerCodec.EventRecord(e);
    FieldHeld(LedgerCodec.EVENT, r, entries, 6);
    FieldHeld(LedgerCodec.EVENT, r, entries, 11);
    CodesAre(e.draft.kind, Unknown, e.draft.basis);
    assert Holds(entries, 7, Uint(LedgerCodec.KindCode(e.draft.kind)));
    assert Holds(entries, 12, Uint(LedgerCodec.BasisCode(e.draft.basis)));
    EventState(e.draft.oldState, r, entries, 7);
    EventState(e.draft.newState, r, entries, 8);
  }

  /** The keys a map of this event has: those of its optional fields only if they are there. */
  predicate EventKey(e: Event, key: nat) {
    && 1 <= key <= 14
    && (key == 6 ==> e.draft.subject.Some?) && (key == 8 ==> e.draft.oldState.Some?)
    && (key == 9 ==> e.draft.newState.Some?)
  }

  lemma KeyOfEvent(e: Event, i: nat)
    requires i < 14 && LedgerCodec.EventRecord(e)[i].Some?
    ensures LedgerCodec.EVENT[i].key == i + 1 && EventKey(e, i + 1)
  {
    assert LedgerCodec.EventRecord(e)[5] == LedgerCodec.OptionalText(e.draft.subject);
    assert LedgerCodec.EventRecord(e)[7] == LedgerCodec.OptionalState(e.draft.oldState);
    assert LedgerCodec.EventRecord(e)[8] == LedgerCodec.OptionalState(e.draft.newState);
  }

  /** No other keys are there. */
  predicate OnlyEventKeys(e: Event, entries: seq<Entry>) {
    forall x :: 0 <= x < |entries| ==> entries[x].key.Uint? && EventKey(e, entries[x].key.n)
  }

  lemma EventKeysOnly(e: Event, entries: seq<Entry>)
    requires RecordMap(LedgerCodec.EVENT, LedgerCodec.EventRecord(e), entries)
    ensures OnlyEventKeys(e, entries)
  {
    var r := LedgerCodec.EventRecord(e);
    forall x | 0 <= x < |entries| ensures entries[x].key.Uint? && EventKey(e, entries[x].key.n) {
      assert FromField(LedgerCodec.EVENT, r, entries[x]);
      var i :| 0 <= i < |r| && r[i].Some? && entries[x].key == Uint(LedgerCodec.EVENT[i].key);
      KeyOfEvent(e, i);
    }
  }

  lemma EventMap(e: Event, entries: seq<Entry>)
    requires LedgerCodec.Encodable(e) && RecordMap(LedgerCodec.EVENT, LedgerCodec.EventRecord(e), entries)
    ensures IsEvent(entries, e)
  {
    EventNumbers(e, entries);
    EventTexts(e, entries);
    EventDigests(e, entries);
    EventCodes(e, entries);
  }

  /** An event is stored as a map with these keys and values and no others, its keys ascending. */
  lemma EventIs(e: Event)
    requires LedgerCodec.Encodable(e)
    ensures var v := Decode(LedgerCodec.EventBytes(e));
            && v.Ok? && v.value.Map? && IsEvent(v.value.entries, e)
            && OnlyEventKeys(e, v.value.entries) && Ascending(v.value.entries)
  {
    LedgerCodec.EventKeys();
    LedgerCodec.EventFits(e);
    RecordIsMap(LedgerCodec.EVENT, LedgerCodec.EventRecord(e));
    var entries := ToValue(LedgerCodec.EVENT, LedgerCodec.EventRecord(e)).entries;
    EventMap(e, entries);
    EventKeysOnly(e, entries);
  }

  predicate IsCheckpoint(entries: seq<Entry>, cp: Checkpoint)
    requires LedgerCodec.EncodableCheckpoint(cp)
  {
    && Holds(entries, 1, Text(Utf8(cp.origin))) && Holds(entries, 2, Uint(cp.size))
    && Holds(entries, 3, DigestPair(cp.root)) && Holds(entries, 4, Bytes(cp.bootId))
    && Holds(entries, 5, Uint(cp.wallTime)) && Holds(entries, 6, Uint(cp.counter))
    && Holds(entries, 7, Uint(if cp.anchor.Software? then 1 else 2))
  }

  lemma CheckpointNumbers(cp: Checkpoint, entries: seq<Entry>)
    requires LedgerCodec.EncodableCheckpoint(cp)
    requires RecordMap(LedgerCodec.CHECKPOINT, LedgerCodec.CheckpointRecord(cp), entries)
    ensures Holds(entries, 2, Uint(cp.size)) && Holds(entries, 5, Uint(cp.wallTime))
    ensures Holds(entries, 6, Uint(cp.counter))
  {
    var r := LedgerCodec.CheckpointRecord(cp);
    NumberHeld(LedgerCodec.CHECKPOINT, r, entries, 1, 2, cp.size);
    NumberHeld(LedgerCodec.CHECKPOINT, r, entries, 4, 5, cp.wallTime);
    NumberHeld(LedgerCodec.CHECKPOINT, r, entries, 5, 6, cp.counter);
  }

  lemma CheckpointOthers(cp: Checkpoint, entries: seq<Entry>)
    requires RecordMap(LedgerCodec.CHECKPOINT, LedgerCodec.CheckpointRecord(cp), entries)
    ensures Holds(entries, 1, Text(Utf8(cp.origin))) && Holds(entries, 3, DigestPair(cp.root))
    ensures Holds(entries, 4, Bytes(cp.bootId)) && Holds(entries, 7, Uint(if cp.anchor.Software? then 1 else 2))
  {
    var r := LedgerCodec.CheckpointRecord(cp);
    FieldHeldAs(LedgerCodec.CHECKPOINT, r, entries, 0, 1, Text(Utf8(cp.origin)));
    FieldHeldAs(LedgerCodec.CHECKPOINT, r, entries, 2, 3, DigestPair(cp.root));
    FieldHeldAs(LedgerCodec.CHECKPOINT, r, entries, 3, 4, Bytes(cp.bootId));
    FieldHeldAs(LedgerCodec.CHECKPOINT, r, entries, 6, 7, Uint(if cp.anchor.Software? then 1 else 2));
  }

  predicate OnlyCheckpointKeys(entries: seq<Entry>) {
    forall x :: 0 <= x < |entries| ==> entries[x].key.Uint? && 1 <= entries[x].key.n <= 7
  }

  lemma CheckpointKeysOnly(cp: Checkpoint, entries: seq<Entry>)
    requires RecordMap(LedgerCodec.CHECKPOINT, LedgerCodec.CheckpointRecord(cp), entries)
    ensures OnlyCheckpointKeys(entries)
  {
    var r := LedgerCodec.CheckpointRecord(cp);
    assert forall i :: 0 <= i < |LedgerCodec.CHECKPOINT| ==> LedgerCodec.CHECKPOINT[i].key == i + 1;
    forall x | 0 <= x < |entries| ensures entries[x].key.Uint? && 1 <= entries[x].key.n <= 7 {
      assert FromField(LedgerCodec.CHECKPOINT, r, entries[x]);
    }
  }

  lemma CheckpointMap(cp: Checkpoint, entries: seq<Entry>)
    requires LedgerCodec.EncodableCheckpoint(cp)
    requires RecordMap(LedgerCodec.CHECKPOINT, LedgerCodec.CheckpointRecord(cp), entries)
    ensures IsCheckpoint(entries, cp) && OnlyCheckpointKeys(entries)
  {
    CheckpointNumbers(cp, entries);
    CheckpointOthers(cp, entries);
    CheckpointKeysOnly(cp, entries);
  }

  /** A checkpoint is stored as a map with these keys and values and no others, its keys ascending. */
  lemma CheckpointIs(cp: Checkpoint)
    requires LedgerCodec.EncodableCheckpoint(cp)
    ensures var v := Decode(LedgerCodec.CheckpointBytes(cp));
            && v.Ok? && v.value.Map? && IsCheckpoint(v.value.entries, cp)
            && OnlyCheckpointKeys(v.value.entries) && Ascending(v.value.entries)
  {
    LedgerCodec.CheckpointSchema();
    LedgerCodec.CheckpointFits(cp);
    RecordIsMap(LedgerCodec.CHECKPOINT, LedgerCodec.CheckpointRecord(cp));
    CheckpointMap(cp, ToValue(LedgerCodec.CHECKPOINT, LedgerCodec.CheckpointRecord(cp)).entries);
  }

  // ----- The boot state -----

  /** The keys and values of a slot. */
  predicate IsSlot(v: Value, s: BootState.Slot) {
    && v.Map? && Holds(v.entries, 1, Text(s.name)) && Holds(v.entries, 2, Uint(s.priority))
    && Holds(v.entries, 3, Uint(s.tries)) && Holds(v.entries, 4, Bool(s.successful))
  }

  lemma SlotIs(s: BootState.Slot)
    requires BootCodec.StorableSlot(s)
    ensures IsSlot(ToValue(BootCodec.SLOT, BootCodec.SlotRecord(s)), s)
  {
    var r := BootCodec.SlotRecord(s);
    BootCodec.SlotSchema();
    BootCodec.SlotFits(s);
    RecordIsMap(BootCodec.SLOT, r);
    var entries := ToValue(BootCodec.SLOT, r).entries;
    FieldHeldAs(BootCodec.SLOT, r, entries, 0, 1, Text(s.name));
    FieldHeldAs(BootCodec.SLOT, r, entries, 1, 2, Uint(s.priority));
    FieldHeldAs(BootCodec.SLOT, r, entries, 2, 3, Uint(s.tries));
    FieldHeldAs(BootCodec.SLOT, r, entries, 3, 4, Bool(s.successful));
  }

  lemma {:induction false} SlotsAre(slots: seq<BootState.Slot>)
    requires forall i :: 0 <= i < |slots| ==> BootCodec.StorableSlot(slots[i])
    ensures |BootCodec.SlotMaps(slots)| == |slots|
    ensures forall i :: 0 <= i < |slots| ==> IsSlot(BootCodec.SlotMaps(slots)[i], slots[i])
    decreases |slots|
  {
    if slots != [] {
      SlotIs(slots[0]);
      SlotsAre(slots[1..]);
    }
  }

  /** The boot state is stored as a map of the floor and the slots in their order. */
  lemma StateIs(s: BootState.State)
    requires BootCodec.Storable(s)
    ensures var v := Decode(BootCodec.StateBytes(s));
            && v.Ok? && v.value.Map? && Ascending(v.value.entries) && Holds(v.value.entries, 1, Uint(s.floor))
            && exists items: seq<Value> ::
                 && Holds(v.value.entries, 2, Array(items)) && |items| == |s.slots|
                 && forall i :: 0 <= i < |s.slots| ==> IsSlot(items[i], s.slots[i])
  {
    var r := BootCodec.StateRecord(s);
    BootCodec.StateSchema();
    BootCodec.StateFits(s);
    RecordIsMap(BootCodec.STATE, r);
    var entries := ToValue(BootCodec.STATE, r).entries;
    FieldHeldAs(BootCodec.STATE, r, entries, 0, 1, Uint(s.floor));
    FieldHeldAs(BootCodec.STATE, r, entries, 1, 2, Array(BootCodec.SlotMaps(s.slots)));
    SlotsAre(s.slots);
  }
}
