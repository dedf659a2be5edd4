/**
 The ledger of an installation: records under signed envelopes. What the runs of the ledger and of the engine ask of
 their keys holds, for every installation whose device key is anchored and whose signature scheme verifies what it
 signed.
 */
module LedgerKeys {
  import opened Wrappers
  import opened Hashing
  import opened Framing
  import opened Model
  import opened Texts
  import opened Envelope
  import opened Replay
  import opened Honest
  import opened LedgerRuns
  import opened LedgerReaders
  import opened Journaling
  import LedgerCodec

  const EVENT: seq<byte> := Ascii("event")
  const CHECKPOINT: seq<byte> := Ascii("checkpoint")

  /** Everything an installation signs and verifies its ledger with. */
  datatype Installation =
    Installation(x: Scheme, h: Sha, node: string, scope: seq<byte>, device: Digest, anchors: map<seq<byte>, Role>)

  function EventIn(payload: Result<seq<byte>, EnvelopeError>): Option<Event> {
    if payload.Err? then None else LedgerCodec.ParseEvent(payload.value)
  }

  function EventAt(payload: Option<seq<byte>>): Option<Event> {
    if payload.None? then None else LedgerCodec.ParseEvent(payload.value)
  }

  function CheckpointIn(payload: Result<seq<byte>, EnvelopeError>): Option<Checkpoint> {
    if payload.Err? then None else LedgerCodec.ParseCheckpoint(payload.value)
  }

  function KeysOf(i: Installation): Keys {
    Keys(i.h, i.node,
         e => Sign(i.x, EVENT, i.scope, LedgerCodec.EventBytes(e), i.device),
         b => EventIn(Verify(i.x, b, EVENT, i.scope, i.anchors, {Device})),
         b => EventAt(UnverifiedPayload(b)),
         cp => Sign(i.x, CHECKPOINT, i.scope, LedgerCodec.CheckpointBytes(cp), i.device),
         b => CheckpointIn(Verify(i.x, b, CHECKPOINT, i.scope, i.anchors, {Device})))
  }

  /** The fast path may skip verification: on every byte string, what verifies parses to the same event unverified. */
  lemma KeysFaithful(i: Installation)
    ensures Faithful(KeysOf(i))
  {
    var k := KeysOf(i);
    forall b | k.openEvent(b).Some? ensures k.peekEvent(b) == k.openEvent(b) {
      UnverifiedAgrees(i.x, b, EVENT, i.scope, i.anchors, {Device});
    }
  }

  predicate SignatureHolds(i: Installation, message: seq<byte>) {
    |i.x.sign(i.device, message)| == 64 && i.x.verify(i.device, message, i.x.sign(i.device, message))
  }

  /** The device key is anchored as one, and what it signs verifies. */
  ghost predicate Genuine(i: Installation) {
    && i.device in i.anchors && i.anchors[i.device] == Device
    && forall message :: SignatureHolds(i, message)
  }

  // ----- Envelopes of records -----

  lemma RecordTypes()
    ensures IsAscii(EVENT) && |EVENT| <= 32 && IsAscii(CHECKPOINT) && |CHECKPOINT| <= 32
  {
  }

  /** A record of an installation verifies and yields its payload. */
  lemma RecordVerifies(i: Installation, recordType: seq<byte>, payload: seq<byte>)
    requires Genuine(i) && IsAscii(recordType) && |recordType| <= 32 && Fitting(payload)
    ensures var env := Sign(i.x, recordType, i.scope, payload, i.device);
            && Verify(i.x, env, recordType, i.scope, i.anchors, {Device}) == Ok(payload)
            && UnverifiedPayload(env) == Some(payload)
            && |payload| < |env| <= |payload| + 418
  {
    var message := SigStructure(Protected(i.device, recordType), Aad(recordType, i.scope), payload);
    assert SignatureHolds(i, message);
    ProtectedSize(i.device, recordType);
    SignedVerifies(i.x, recordType, i.scope, payload, i.device, i.anchors, {Device});
    EnvelopeSize(i.x, recordType, i.scope, payload, i.device);
  }

  /** An event can be written exactly when its envelope fits a frame. */
  lemma EventWritable(i: Installation, e: Event)
    requires Genuine(i) && LedgerCodec.Encodable(e) && Fitting(LedgerCodec.EventBytes(e))
    ensures CanWrite(KeysOf(i), e) <==> Framable(KeysOf(i).signEvent(e))
    ensures KeysOf(i).openEvent(KeysOf(i).signEvent(e)) == Some(e) == KeysOf(i).peekEvent(KeysOf(i).signEvent(e))
  {
    RecordTypes();
    RecordVerifies(i, EVENT, LedgerCodec.EventBytes(e));
    LedgerCodec.EventRoundTrip(e);
  }

  lemma CheckpointWritable(i: Installation, cp: Checkpoint)
    requires Genuine(i) && LedgerCodec.EncodableCheckpoint(cp) && |Utf8(cp.origin)| <= LedgerCodec.TEXT_LIMIT
    ensures CanCommit(KeysOf(i), cp)
  {
    RecordTypes();
    LedgerCodec.CheckpointSize(cp);
    RecordVerifies(i, CHECKPOINT, LedgerCodec.CheckpointBytes(cp));
    LedgerCodec.CheckpointRoundTrip(cp);
  }

  /** Every event with modest texts and evidence fits a frame, wherever in the chain it stands. */
  lemma ModestWritable(i: Installation, e: Event)
    requires Genuine(i) && LedgerCodec.Modest(e.draft)
    requires LedgerCodec.EncodableStamp(e.stamp) && e.seqno < LedgerCodec.U64
    ensures CanWrite(KeysOf(i), e)
  {
    RecordTypes();
    LedgerCodec.EventSize(e, LedgerCodec.TEXT_LIMIT);
    RecordVerifies(i, EVENT, LedgerCodec.EventBytes(e));
    EventWritable(i, e);
  }

  lemma ModestDraft(i: Installation, d: EventDraft, stamp: Stamp)
    requires Genuine(i) && LedgerCodec.Modest(d) && LedgerCodec.EncodableStamp(stamp)
    ensures Writable(KeysOf(i), d, stamp)
  {
    forall e: Event | e.draft == d && e.stamp == stamp && e.seqno < MAX_SEQ ensures CanWrite(KeysOf(i), e) {
      ModestWritable(i, e);
    }
  }

  // ----- Envelopes that do not fit -----

  /** An event whose detail alone is longer than a frame does not fit one. */
  lemma LongDetail(i: Installation, e: Event)
    requires |Utf8(e.draft.detail)| >= MAX_FRAME
    ensures !Framable(KeysOf(i).signEvent(e))
  {
    LedgerCodec.DetailSize(e);
    EnvelopeSize(i.x, EVENT, i.scope, LedgerCodec.EventBytes(e), i.device);
  }

  /** A draft whose detail is a megabyte of text. */
  function HugeDraft(): EventDraft {
    EventDraft("jlr", None, DegradedCondition, None, None, ZERO, [], NoBasis, seq(MAX_FRAME, (j: nat) => 'a'))
  }

  lemma HugeSize()
    ensures |Utf8(HugeDraft().detail)| >= MAX_FRAME && LedgerCodec.Within(HugeDraft(), 4 * MAX_FRAME)
  {
    assert |HugeDraft().detail| == MAX_FRAME;
  }

  /** Its event is signed, verifies and parses, and yet does not fit a frame. */
  lemma HugeEvent(i: Installation, ev: Event)
    requires Genuine(i) && ev.draft == HugeDraft() && LedgerCodec.EncodableStamp(ev.stamp) && ev.seqno < LedgerCodec.U64
    ensures var env := KeysOf(i).signEvent(ev);
            && |env| < 0x1_0000_0000 && KeysOf(i).openEvent(env) == Some(ev) && KeysOf(i).peekEvent(env) == Some(ev)
            && !Framable(env)
  {
    HugeSize();
    LedgerCodec.EventSize(ev, 4 * MAX_FRAME);
    EventWritable(i, ev);
    LongDetail(i, ev);
    RecordTypes();
    RecordVerifies(i, EVENT, LedgerCodec.EventBytes(ev));
  }

  /**
   Such a draft is a failing input: on any ledger of the installation the append is acknowledged, and no replay succeeds
   afterwards.
   */
  lemma HugeDraftIsUnreadable(i: Installation, s: Sys, stamp: Stamp, full: bool)
    requires Genuine(i) && Inv(KeysOf(i), s) && s.mem.Some? && !s.mem.value.poisoned
    requires LedgerCodec.EncodableStamp(stamp) && |s.history| < LedgerCodec.U64
    ensures var t := Step(KeysOf(i), s, Append(HugeDraft(), stamp, Written));
            && t.history == s.history + [NextEvent(s.mem.value, HugeDraft(), stamp)]
            && ReplayLogs(KeysOf(i), t.checkpoints, t.events, full).Err?
  {
    var k, d := KeysOf(i), HugeDraft();
    NextPlace(k, s, d, stamp);
    HugeEvent(i, NextEvent(s.mem.value, d, stamp));
    AppendReadableIff(k, s, d, stamp, full);
  }

  // ----- A draft of the wrong kind -----

  /**
   So is every GENESIS draft, however small: only the kind decides whether an event with bounded texts is readable once
   it was acknowledged.
   */
  lemma ModestReadableIff(i: Installation, s: Sys, d: EventDraft, stamp: Stamp, full: bool)
    requires Genuine(i) && Inv(KeysOf(i), s) && s.mem.Some? && !s.mem.value.poisoned
    requires LedgerCodec.Modest(d) && LedgerCodec.EncodableStamp(stamp) && |s.history| < LedgerCodec.U64
    ensures var t := Step(KeysOf(i), s, Append(d, stamp, Written));
            && t.history == s.history + [NextEvent(s.mem.value, d, stamp)]
            && (ReplayLogs(KeysOf(i), t.checkpoints, t.events, full).Ok? <==> d.kind != Genesis)
  {
    NextPlace(KeysOf(i), s, d, stamp);
    ModestWritable(i, NextEvent(s.mem.value, d, stamp));
    AppendReadableIff(KeysOf(i), s, d, stamp, full);
  }
}
