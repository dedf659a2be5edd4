/**
 Replaced artifacts: what becomes of an artifact whose path holds another one now, in terms of the states and the events
 before and after.
 */
module Replacing {
  import opened Wrappers
  import opened Model
  import opened Admission
  import opened EpnIds
  import opened Replay
  import opened EngineRuns
  import opened Journaling
  import opened EngineSteps
  import PolicyRules
  import Decisions

  /** An event that is about an artifact without setting its state. */
  predicate Remark(d: EventDraft) {
    d.newState.None? && d.kind != Genesis
  }

  /** A remark of this kind about one artifact. */
  predicate RemarkOn(d: EventDraft, kind: EventKind, id: EpnId) {
    Remark(d) && d.kind == kind && d.subject == Some(Print(id))
  }

  /** No other artifact is touched. */
  ghost predicate OnlyMoves(before: States, after: States, ids: set<EpnId>) {
    forall other :: other !in ids ==> Known(after, other) == Known(before, other)
  }

  /** The first event after these is one for the draft. */
  predicate Begins(before: seq<Event>, after: seq<Event>, d: EventDraft) {
    before < after && after[|before|].draft == d
  }

  lemma BeginsWith(before: seq<Event>, mid: seq<Event>, after: seq<Event>, d: EventDraft)
    requires Logged(before, mid, d) && mid <= after
    ensures Begins(before, after, d)
  {
  }

  /** Where an artifact goes whose content changed, given its record and the state it was in. */
  function AfterChange(was: AdmissionState, record: Option<Decisions.Facts>): AdmissionState {
    if record.Some? && record.value.revoked then Revoked
    else if was.Verified? || was.Admitted? then Degraded
    else Quarantined
  }

  /** The artifact that the index names for a path, with what is needed to log that its content changed. */
  datatype Former = Former(id: EpnId, record: Option<Decisions.Facts>, mismatch: EventDraft, cause: Cause)

  ghost predicate Loggable(k: Keys, former: Former, stamp: Stamp) {
    && (former.record.Some? ==> former.record.value.evidence == [PolicyRules.ContentDigestMismatch])
    && RemarkOn(former.mismatch, Mismatch, former.id) && Writable(k, former.mismatch, stamp)
    && WritableSteps(k, former.cause, former.id, stamp)
  }

  /** Whether a change of content matters: the artifact is known and not distrusted already. */
  predicate StillTrusted(states: States, id: EpnId) {
    id in states && !states[id].Revoked? && !states[id].Degraded? && !states[id].Quarantined?
  }

  /** The artifact that another one took the place of. */
  function Replaced(id: EpnId, was: Option<Former>): set<EpnId> {
    if was.Some? && was.value.id != id then {was.value.id} else {}
  }

  /** It is where it does not run: where the change of its content put it, or already was. */
  predicate Withdrawn(before: States, states: States, id: EpnId, was: Option<Former>) {
    was.Some? && was.value.id != id ==>
      && !PermitsNormalExecution(At(states, was.value.id))
      && if StillTrusted(before, was.value.id)
         then At(states, was.value.id) == AfterChange(before[was.value.id], was.value.record)
         else Known(states, was.value.id) == Known(before, was.value.id)
  }

  /** An event for the draft is among the new ones. */
  predicate Noted(before: seq<Event>, after: seq<Event>, d: EventDraft) {
    before <= after && exists j :: |before| <= j < |after| && after[j].draft == d
  }

  lemma NotedLater(a: seq<Event>, b: seq<Event>, c: seq<Event>, d: EventDraft)
    requires a <= b <= c
    ensures Begins(a, b, d) ==> Noted(a, c, d)
    ensures Begins(b, c, d) ==> Noted(a, c, d)
  {
    if Begins(a, b, d) {
      assert c[|a|].draft == d;
    }
    if Begins(b, c, d) {
      assert c[|b|].draft == d;
    }
  }

  lemma OneThenOther(a: States, b: States, c: States, id: EpnId, was: Option<Former>)
    requires OnlyMoves(a, b, Replaced(id, was)) && OnlyMoves(b, c, {id})
    ensures OnlyMoves(a, c, Replaced(id, was) + {id})
    ensures Withdrawn(a, b, id, was) ==> Withdrawn(a, c, id, was)
  {
  }

  lemma NotReplaced(a: States, b: States, id: EpnId, was: Option<Former>)
    requires OnlyMoves(a, b, Replaced(id, was))
    ensures Known(b, id) == Known(a, id) && OnlyMoves(a, b, Replaced(id, was) + {id})
  {
  }

  /** The path held another artifact, which was still trusted. */
  predicate Distrusted(states: States, id: EpnId, was: Option<Former>) {
    was.Some? && was.value.id != id && StillTrusted(states, was.value.id)
  }

  /**
   The artifact that was there is where the change put it, and that is logged; nothing happens if it was known bad.
   */
  ghost predicate Changed(before: States, after: States, events: seq<Event>, events': seq<Event>, former: Former,
                          ok: bool)
  {
    && OnlyMoves(before, after, {former.id}) && events <= events' && |events'| <= |events| + 4
    && (ok ==> !PermitsNormalExecution(At(after, former.id)))
    && if StillTrusted(before, former.id)
       then ok ==>
              && At(after, former.id) == AfterChange(before[former.id], former.record)
              && Begins(events, events', former.mismatch)
       else ok && after == before && events' == events
  }

  lemma NothingChanged(states: States, events: seq<Event>, former: Former)
    requires !StillTrusted(states, former.id)
    ensures Changed(states, states, events, events, former, true)
  {
  }

  lemma ContentChanged(before: States, after: States, events: seq<Event>, events': seq<Event>, former: Former, ok: bool)
    requires StillTrusted(before, former.id) && OnlyMoves(before, after, {former.id})
    requires events <= events' && |events'| <= |events| + 4
    requires ok ==> At(after, former.id) == AfterChange(before[former.id], former.record)
    requires ok ==> Begins(events, events', former.mismatch)
    ensures Changed(before, after, events, events', former, ok)
  {
  }

  /** What was done about the artifact that the path held, if it is another one. */
  ghost predicate Handled(before: States, after: States, events: seq<Event>, events': seq<Event>, id: EpnId,
                          was: Option<Former>, ok: bool)
  {
    if was.Some? && was.value.id != id then Changed(before, after, events, events', was.value, ok)
    else ok && after == before && events' == events
  }

  lemma HandledKeeps(before: States, after: States, events: seq<Event>, events': seq<Event>, id: EpnId,
                     was: Option<Former>, ok: bool)
    requires Handled(before, after, events, events', id, was, ok)
    ensures OnlyMoves(before, after, Replaced(id, was)) && Known(after, id) == Known(before, id)
    ensures events <= events' && |events'| <= |events| + 4
    ensures ok ==> Withdrawn(before, after, id, was)
    ensures ok && Distrusted(before, id, was) ==> Begins(events, events', was.value.mismatch)
  {
  }

  /** Whatever was done, it is not about the artifact itself, and four events at most were logged. */
  lemma HandledAside(before: States, after: States, events: seq<Event>, events': seq<Event>, id: EpnId,
                     was: Option<Former>, ok: bool)
    requires Handled(before, after, events, events', id, was, ok)
    ensures Known(after, id) == Known(before, id) && |events'| <= |events| + 4
  {
  }

  /**
   What processing an artifact leaves: the one that the path held before is where it does not run, no third one is
   touched, and the change and the discovery are logged.
   */
  ghost predicate Processed(before: States, after: States, events: seq<Event>, events': seq<Event>, id: EpnId,
                            was: Option<Former>, isNew: bool, discover: EventDraft, ok: bool)
  {
    && OnlyMoves(before, after, Replaced(id, was) + {id})
    && (ok ==>
          && Withdrawn(before, after, id, was)
          && (Distrusted(before, id, was) ==> Noted(events, events', was.value.mismatch))
          && (isNew || id !in before ==> Noted(events, events', discover)))
  }

  lemma FailsEarly(before: States, after: States, events: seq<Event>, events': seq<Event>, id: EpnId,
                   was: Option<Former>, isNew: bool, discover: EventDraft)
    requires Handled(before, after, events, events', id, was, false)
    ensures Processed(before, after, events, events', id, was, isNew, discover, false)
  {
    HandledKeeps(before, after, events, events', id, was, false);
    NotReplaced(before, after, id, was);
  }

  lemma InTurn(a: States, b: States, c: States, x: seq<Event>, y: seq<Event>, z: seq<Event>, id: EpnId,
               was: Option<Former>, isNew: bool, discover: EventDraft, ok: bool)
    requires Handled(a, b, x, y, id, was, true) && OnlyMoves(b, c, {id}) && y <= z
    requires ok && (isNew || id !in b) ==> Begins(y, z, discover)
    ensures Processed(a, c, x, z, id, was, isNew, discover, ok)
  {
    HandledKeeps(a, b, x, y, id, was, true);
    OneThenOther(a, b, c, id, was);
    NotedLater(x, y, z, discover);
    if was.Some? {
      NotedLater(x, y, z, was.value.mismatch);
    }
  }
}
