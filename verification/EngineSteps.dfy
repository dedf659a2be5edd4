/** The steps of a decision: what is logged for each, and how they add up along a route. */
module EngineSteps {
  import opened Wrappers
  import opened Hashing
  import opened Model
  import opened Admission
  import opened Search
  import opened EpnIds
  import opened Replay
  import opened EngineRuns
  import opened Journaling

  /** What every event of one decision shares. */
  datatype Cause = Cause(policy: Digest, evidence: Digest, basis: Basis, describe: nat -> string)

  function StepDraft(c: Cause, id: EpnId, from: Option<AdmissionState>, to: AdmissionState, i: nat): EventDraft {
    EventDraft("jlr-engine", Some(Print(id)), Transition, from, Some(to), c.policy, [c.evidence], c.basis,
               c.describe(i))
  }

  ghost predicate WritableSteps(k: Keys, c: Cause, id: EpnId, stamp: Stamp) {
    forall from, to, i :: 0 <= i < 3 ==> Writable(k, StepDraft(c, id, from, to, i), stamp)
  }

  // ----- Routes, step by step -----

  /** The rest of a shortest route is a shortest route, and its first step goes to another state. */
  lemma ShortestStep(from: AdmissionState, path: seq<AdmissionState>, to: AdmissionState)
    requires Shortest(CanBecome, from, path, to) && path != []
    ensures CanBecome(from, path[0]) && path[0] != from && Shortest(CanBecome, path[0], path[1..], to)
  {
    assert Leads(CanBecome, path[0], path[1..], to);
    forall p | Leads(CanBecome, path[0], p, to) ensures |path[1..]| <= |p| {
      assert ([path[0]] + p)[1..] == p;
      assert Leads(CanBecome, from, [path[0]] + p, to);
    }
  }

  lemma ShortRoutes(from: AdmissionState, path: seq<AdmissionState>, to: AdmissionState)
    requires Shortest(CanBecome, from, path, to)
    ensures |path| <= 3
  {
    ReachableOnly(from, path, to);
    assert Leads(CanBecome, from, WayTo(from, to), to);
  }

  predicate MovesTo(states: States, d: EventDraft, id: EpnId, to: AdmissionState) {
    Subject(d) == Some(id) && d.newState == Some(to) && Lawful(states, d)
  }

  lemma StepIsLawful(states: States, c: Cause, id: EpnId, to: AdmissionState, i: nat)
    requires CanBecome(At(states, id), to) && At(states, id) != to
    ensures var d := StepDraft(c, id, Known(states, id), to, i);
            MovesTo(states, d, id, to)
  {
    ParsePrinted(id);
  }

  lemma MovesAppend(es: seq<Event>, e: Event, id: EpnId)
    ensures Moves(es + [e], id) ==
            Moves(es, id) + if Subject(e.draft) == Some(id) then [e.draft.newState.value] else []
  {
    assert (es + [e])[..|es|] == es;
  }

  /** The new events name the policy, the evidence and the basis, each with its own description. */
  predicate Cited(before: seq<Event>, after: seq<Event>, c: Cause) {
    forall j :: |before| <= j < |after| ==>
      var d := after[j].draft;
      && d.actor == "jlr-engine" && d.policy == c.policy && d.evidence == [c.evidence] && d.basis == c.basis
      && d.detail == c.describe(j - |before|)
  }

  lemma CitedOn(before: seq<Event>, mid: seq<Event>, after: seq<Event>, c: Cause, id: EpnId,
                from: Option<AdmissionState>, to: AdmissionState)
    requires before <= mid && Cited(before, mid, c)
    requires Logged(mid, after, StepDraft(c, id, from, to, |mid| - |before|))
    ensures Cited(before, after, c)
  {
    forall j | |before| <= j < |mid| ensures after[j] == mid[j] {
      assert after[..|mid|][j] == mid[j];
    }
  }

  /** The states after an artifact took these steps. */
  function Moved(states: States, id: EpnId, taken: seq<AdmissionState>): States {
    if taken == [] then states else states[id := taken[|taken| - 1]]
  }

  lemma MovedOn(states: States, id: EpnId, steps: seq<AdmissionState>, i: nat)
    requires i < |steps|
    ensures Moved(states, id, steps[..i])[id := steps[i]] == Moved(states, id, steps[..i + 1])
    ensures steps[..i + 1] == steps[..i] + [steps[i]] && steps[i..][1..] == steps[i + 1..]
  {
  }

  lemma LoggedStates(before: seq<Event>, after: seq<Event>, d: EventDraft, id: EpnId)
    requires Logged(before, after, d)
    ensures StatesOf(after) == Folded(StatesOf(before), d)
    ensures Moves(after, id) == Moves(before, id) + if Subject(d) == Some(id) then [d.newState.value] else []
  {
    assert after == before + [after[|before|]];
    StatesAppend(before, after[|before|]);
    MovesAppend(before, after[|before|], id);
  }

  /** The history grew by exactly the events that moved one artifact through `taken`. */
  predicate Progress(before: seq<Event>, after: seq<Event>, id: EpnId, taken: seq<AdmissionState>) {
    && before <= after && |after| == |before| + |taken|
    && Moves(after, id) == Moves(before, id) + taken
  }

  lemma NoProgress(es: seq<Event>, id: EpnId)
    ensures Progress(es, es, id, [])
  {
    assert Moves(es, id) + [] == Moves(es, id);
  }

  lemma ProgressOn(before: seq<Event>, mid: seq<Event>, after: seq<Event>, id: EpnId, taken: seq<AdmissionState>,
                   to: AdmissionState)
    requires Progress(before, mid, id, taken) && Progress(mid, after, id, [to])
    ensures Progress(before, after, id, taken + [to])
  {
    assert Moves(before, id) + taken + [to] == Moves(before, id) + (taken + [to]);
  }

  lemma StepLogged(before: seq<Event>, after: seq<Event>, d: EventDraft, id: EpnId, to: AdmissionState)
    requires Logged(before, after, d) && Subject(d) == Some(id) && d.newState == Some(to)
    ensures Progress(before, after, id, [to]) && StatesOf(after) == StatesOf(before)[id := to]
  {
    LoggedStates(before, after, d, id);
  }

  // ----- On the way -----

  /** The first `i` steps of a shortest route were taken and logged. */
  ghost predicate OnWay(was: States, states: States, before: seq<Event>, after: seq<Event>, id: EpnId,
                        steps: seq<AdmissionState>, i: nat, to: AdmissionState, c: Cause)
  {
    && i <= |steps| && Progress(before, after, id, steps[..i]) && states == Moved(was, id, steps[..i])
    && Cited(before, after, c) && Shortest(CanBecome, At(states, id), steps[i..], to)
  }

  lemma Starts(states: States, events: seq<Event>, id: EpnId, steps: seq<AdmissionState>, to: AdmissionState, c: Cause)
    requires Shortest(CanBecome, At(states, id), steps, to)
    ensures OnWay(states, states, events, events, id, steps, 0, to, c)
  {
    NoProgress(events, id);
    assert steps[..0] == [] && steps[0..] == steps;
  }

  /** The next step is a lawful one. */
  lemma NextIsLawful(was: States, states: States, before: seq<Event>, after: seq<Event>, id: EpnId,
                     steps: seq<AdmissionState>, i: nat, to: AdmissionState, c: Cause)
    requires OnWay(was, states, before, after, id, steps, i, to, c) && i < |steps|
    ensures MovesTo(states, StepDraft(c, id, Known(states, id), steps[i], i), id, steps[i])
    ensures |after| == |before| + i
  {
    ShortestStep(At(states, id), steps[i..], to);
    StepIsLawful(states, c, id, steps[i], i);
  }

  lemma GoesOn(was: States, states: States, before: seq<Event>, mid: seq<Event>, after: seq<Event>, id: EpnId,
               steps: seq<AdmissionState>, i: nat, to: AdmissionState, c: Cause)
    requires OnWay(was, states, before, mid, id, steps, i, to, c) && i < |steps|
    requires Logged(mid, after, StepDraft(c, id, Known(states, id), steps[i], i))
    requires Progress(mid, after, id, [steps[i]])
    ensures OnWay(was, states[id := steps[i]], before, after, id, steps, i + 1, to, c)
  {
    ShortestStep(At(states, id), steps[i..], to);
    MovedOn(was, id, steps, i);
    ProgressOn(before, mid, after, id, steps[..i], steps[i]);
    CitedOn(before, mid, after, c, id, Known(states, id), steps[i]);
  }

  lemma OnWayIs(was: States, states: States, before: seq<Event>, after: seq<Event>, id: EpnId,
                steps: seq<AdmissionState>, i: nat, to: AdmissionState, c: Cause)
    requires OnWay(was, states, before, after, id, steps, i, to, c)
    ensures Progress(before, after, id, steps[..i]) && states == Moved(was, id, steps[..i])
    ensures Cited(before, after, c) && steps[..i] <= steps && (i == |steps| ==> steps[..i] == steps)
  {
  }
}
