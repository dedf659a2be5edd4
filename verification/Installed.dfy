/** The run theorems for an installation: bounded texts and 64-bit numbers are all that its runs must keep to. */
module Installed {
  import opened Wrappers
  import opened Hashing
  import opened Model
  import opened Texts
  import opened EpnIds
  import opened Replay
  import opened Honest
  import opened LedgerRuns
  import opened LedgerReaders
  import opened Journaling
  import opened EngineSteps
  import opened LedgerKeys
  import opened LedgerCodec

  lemma ShortClassName(c: ArtifactClass)
    ensures |ClassName(c)| <= 9
  {
  }

  /** The text of an identifier is short. */
  lemma ShortIdentifier(id: EpnId)
    ensures |Utf8(Print(id))| <= 320
  {
    ShortClassName(id.artifactClass);
    assert |Print(id)| <= 80;
  }

  lemma ShortActor()
    ensures |Utf8("jlr-engine")| <= 40
  {
  }

  lemma StepIsModest(c: Cause, id: EpnId, from: Option<AdmissionState>, to: AdmissionState, j: nat)
    requires |Utf8(c.describe(j))| <= TEXT_LIMIT
    ensures Modest(StepDraft(c, id, from, to, j))
  {
    ShortIdentifier(id);
    ShortActor();
  }

  /** The engine can always write the steps of a decision whose descriptions are bounded. */
  lemma StepsAreWritable(i: Installation, c: Cause, id: EpnId, stamp: Stamp)
    requires Genuine(i) && EncodableStamp(stamp) && forall j :: 0 <= j < 3 ==> |Utf8(c.describe(j))| <= TEXT_LIMIT
    ensures WritableSteps(KeysOf(i), c, id, stamp)
  {
    forall from, to, j | 0 <= j < 3 ensures Writable(KeysOf(i), StepDraft(c, id, from, to, j), stamp) {
      StepIsModest(c, id, from, to, j);
      ModestDraft(i, StepDraft(c, id, from, to, j), stamp);
    }
  }

  // ----- Runs -----

  predicate ShortNode(i: Installation) {
    |Utf8(Origin(i.node))| <= TEXT_LIMIT
  }

  /** Appends of bounded drafts other than GENESIS, checkpoints, and whatever else; numbers stay within 64 bits. */
  predicate Bounded(s: Sys, a: Action) {
    match a
    case Append(draft, stamp, _) =>
      !draft.kind.Genesis? && Modest(draft) && EncodableStamp(stamp) && |s.history| < U64
    case Commit(stamp, _) =>
      EncodableStamp(stamp) && |s.history| < U64 && LastCounter(s.committed) + 1 < U64
    case _ => true
  }

  predicate BoundedRun(k: Keys, s: Sys, actions: seq<Action>)
    decreases |actions|
  {
    actions == [] || (Bounded(s, actions[0]) && BoundedRun(k, Step(k, s, actions[0]), actions[1..]))
  }

  lemma AppendIsLegal(i: Installation, s: Sys, a: Action)
    requires Genuine(i) && Inv(KeysOf(i), s) && Bounded(s, a) && a.Append?
    ensures Legal(KeysOf(i), s, a)
  {
    if s.mem.Some? {
      NextPlace(KeysOf(i), s, a.draft, a.stamp);
      ModestWritable(i, NextEvent(s.mem.value, a.draft, a.stamp));
    }
  }

  lemma NextCheckpointIs(k: Keys, s: Sys, stamp: Stamp)
    requires Inv(k, s) && s.mem.Some?
    ensures var cp := NextCheckpoint(k, s.mem.value, stamp);
            && cp.origin == Origin(k.node) && cp.size == |s.history| && cp.counter == LastCounter(s.committed) + 1
            && cp.bootId == stamp.bootId && cp.wallTime == stamp.wallTime
  {
  }

  lemma CommitIsLegal(i: Installation, s: Sys, a: Action)
    requires Genuine(i) && ShortNode(i) && Inv(KeysOf(i), s) && Bounded(s, a) && a.Commit?
    ensures Legal(KeysOf(i), s, a)
  {
    if s.mem.Some? {
      NextCheckpointIs(KeysOf(i), s, a.stamp);
      CheckpointWritable(i, NextCheckpoint(KeysOf(i), s.mem.value, a.stamp));
    }
  }

  lemma BoundedIsLegal(i: Installation, s: Sys, a: Action)
    requires Genuine(i) && ShortNode(i) && Inv(KeysOf(i), s) && Bounded(s, a)
    ensures Legal(KeysOf(i), s, a)
  {
    if a.Append? {
      AppendIsLegal(i, s, a);
    } else if a.Commit? {
      CommitIsLegal(i, s, a);
    }
  }

  lemma {:induction false} BoundedRunIsLegal(i: Installation, s: Sys, actions: seq<Action>)
    requires Genuine(i) && ShortNode(i) && Inv(KeysOf(i), s) && BoundedRun(KeysOf(i), s, actions)
    ensures LegalRun(KeysOf(i), s, actions)
    decreases |actions|
  {
    if actions != [] {
      BoundedIsLegal(i, s, actions[0]);
      StepKeeps(KeysOf(i), s, actions[0]);
      BoundedRunIsLegal(i, Step(KeysOf(i), s, actions[0]), actions[1..]);
    }
  }

  /** The first event of an installation's ledger. */
  function FirstEvent(draft: EventDraft, stamp: Stamp): Event {
    Event(0, stamp, draft, ZERO)
  }

  lemma GenesisFollows(i: Installation, draft: EventDraft, stamp: Stamp)
    requires Genuine(i) && draft.kind.Genesis? && Modest(draft) && EncodableStamp(stamp)
    ensures Follows(KeysOf(i), [], FirstEvent(draft, stamp))
  {
    ModestWritable(i, FirstEvent(draft, stamp));
  }

  /**
   Durability for an installation: from its creation on, over any run of bounded appends and checkpoints, failures,
   crashes and reopenings, whatever was acknowledged at some moment is recovered by a replay after any further run,
   with at most one event and one checkpoint more than was acknowledged by then.
   */
  lemma InstallationIsDurable(i: Installation, draft: EventDraft, stamp: Stamp, before: seq<Action>, after: seq<Action>,
                              full: bool)
    requires Genuine(i) && ShortNode(i) && draft.kind.Genesis? && Modest(draft) && EncodableStamp(stamp)
    requires BoundedRun(KeysOf(i), Created(KeysOf(i), FirstEvent(draft, stamp)), before)
    requires BoundedRun(KeysOf(i), RunFrom(KeysOf(i), Created(KeysOf(i), FirstEvent(draft, stamp)), before), after)
    ensures var k := KeysOf(i);
            var s := RunFrom(k, Created(k, FirstEvent(draft, stamp)), before);
            var t := RunFrom(k, s, after);
            var r := ReplayLogs(k, t.checkpoints, t.events, full);
            && r.Ok?
            && s.history <= t.history <= r.value.events && |r.value.events| <= |t.history| + 1
            && s.committed <= t.committed <= r.value.checkpoints && |r.value.checkpoints| <= |t.committed| + 1
  {
    var k, genesis := KeysOf(i), FirstEvent(draft, stamp);
    GenesisFollows(i, draft, stamp);
    CreatedInv(k, genesis);
    BoundedRunIsLegal(i, Created(k, genesis), before);
    RunKeeps(k, Created(k, genesis), before);
    BoundedRunIsLegal(i, RunFrom(k, Created(k, genesis), before), after);
    NothingAcknowledgedIsLost(k, genesis, before, after, full);
  }
}
