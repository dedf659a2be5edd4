/**
 The admission states that the ledger's events add up to, over every run of the engine, its crashes and reopenings.
 */
module EngineRuns {
  import opened Wrappers
  import opened Model
  import opened Admission
  import opened Search
  import opened EpnIds
  import opened Replay
  import opened Honest
  import opened LedgerRuns

  type States = map<EpnId, AdmissionState>

  /** The artifact whose state a draft sets. */
  function Subject(d: EventDraft): Option<EpnId> {
    if d.subject.Some? && d.newState.Some? then Parse(d.subject.value) else None
  }

  function Folded(states: States, d: EventDraft): States {
    if Subject(d).Some? then states[Subject(d).value := d.newState.value] else states
  }

  /** States are derived from the ledger: the last event about an artifact decides. */
  function StatesOf(es: seq<Event>): States {
    if es == [] then map[] else Folded(StatesOf(es[..|es| - 1]), es[|es| - 1].draft)
  }

  /** The loop that opening runs over the replayed events. */
  method RebuildStates(es: seq<Event>) returns (states: States)
    ensures states == StatesOf(es)
  {
    states := map[];
    for i := 0 to |es|
      invariant states == StatesOf(es[..i])
    {
      assert es[..i + 1][..i] == es[..i];
      states := Folded(states, es[i].draft);
    }
    assert es[..|es|] == es;
  }

  lemma StatesAppend(es: seq<Event>, e: Event)
    ensures StatesOf(es + [e]) == Folded(StatesOf(es), e.draft)
  {
    assert (es + [e])[..|es|] == es;
  }

  function Known(states: States, id: EpnId): Option<AdmissionState> {
    if id in states then Some(states[id]) else None
  }

  function At(states: States, id: EpnId): AdmissionState {
    if id in states then states[id] else Unknown
  }

  /** A draft changes a state only as a TRANSITION, from the recorded state, along a permitted edge to another state. */
  predicate Lawful(states: States, d: EventDraft) {
    Subject(d).Some? ==>
      var from := At(states, Subject(d).value);
      && d.kind.Transition? && d.oldState == Known(states, Subject(d).value)
      && d.newState.value != from && CanBecome(from, d.newState.value)
  }

  predicate AllLawful(es: seq<Event>) {
    es == [] || (AllLawful(es[..|es| - 1]) && Lawful(StatesOf(es[..|es| - 1]), es[|es| - 1].draft))
  }

  lemma LawfulAppend(es: seq<Event>, e: Event)
    requires AllLawful(es) && Lawful(StatesOf(es), e.draft)
    ensures AllLawful(es + [e])
  {
    assert (es + [e])[..|es|] == es;
  }

  // ----- Runs -----

  /** Acknowledged events are lawful, and so is one that was only half written, should a reopening adopt it. */
  predicate LawfulLog(history: seq<Event>, tail: Tail<Event>) {
    AllLawful(history) && (tail.Piece? ==> Lawful(StatesOf(history), tail.record.draft))
  }

  predicate Sound(k: Keys, s: Sys) {
    Inv(k, s) && LawfulLog(s.history, s.eventTail)
  }

  /** The engine appends lawful drafts only. */
  predicate Proper(k: Keys, s: Sys, a: Action) {
    Legal(k, s, a) && (a.Append? ==> Lawful(StatesOf(s.history), a.draft))
  }

  lemma LawfulWrite(history: seq<Event>, tail: Tail<Event>, e: Event, frame: seq<Hashing.byte>, end: Ending)
    requires LawfulLog(history, tail) && Lawful(StatesOf(history), e.draft)
    ensures LawfulLog(if end.Written? then history + [e] else history, TailAfter(e, frame, end))
  {
    if end.Written? {
      LawfulAppend(history, e);
    }
  }

  lemma SoundAppend(k: Keys, s: Sys, a: Action)
    requires LawfulLog(s.history, s.eventTail) && a.Append? && Lawful(StatesOf(s.history), a.draft)
    ensures LawfulLog(Step(k, s, a).history, Step(k, s, a).eventTail)
  {
    if s.mem.Some? && !s.mem.value.poisoned {
      var ev := NextEvent(s.mem.value, a.draft, a.stamp);
      LawfulWrite(s.history, s.eventTail, ev, Framing.Frame(k.h, k.signEvent(ev)), a.end);
    }
  }

  /** What opening recovers is lawful. */
  lemma LawfulRecovered(k: Keys, s: Sys)
    requires LawfulLog(s.history, s.eventTail)
    ensures LawfulLog(RecoveredEvents(k, s), Clean)
  {
    if s.eventTail.Piece? {
      LawfulAppend(s.history, s.eventTail.record);
    }
  }

  lemma SoundOpen(k: Keys, s: Sys)
    requires Sound(k, s)
    ensures Sound(k, OpenStep(k, s)) && OpenStep(k, s).history == RecoveredEvents(k, s)
  {
    OpenRecovers(k, s);
    LawfulRecovered(k, s);
  }

  lemma SoundWrite(k: Keys, s: Sys, a: Action)
    requires Sound(k, s) && Proper(k, s, a) && a.Append?
    ensures Sound(k, Step(k, s, a))
  {
    StepKeeps(k, s, a);
    SoundAppend(k, s, a);
  }

  lemma LawfulCut(s: Sys, o: Sys)
    requires LawfulLog(s.history, s.eventTail)
    ensures LawfulLog(CutAfterTrim(s, o).history, CutAfterTrim(s, o).eventTail)
  {
  }

  lemma SoundCut(k: Keys, s: Sys)
    requires Sound(k, s)
    ensures Sound(k, OpenCutStep(k, s))
  {
    OpenCutKeeps(k, s);
    LawfulCut(s, OpenStep(k, s));
  }

  lemma SoundCommit(k: Keys, s: Sys, a: Action)
    requires Sound(k, s) && Proper(k, s, a) && a.Commit?
    ensures Sound(k, Step(k, s, a))
  {
    StepKeeps(k, s, a);
  }

  lemma SoundStep(k: Keys, s: Sys, a: Action)
    requires Sound(k, s) && Proper(k, s, a)
    ensures Sound(k, Step(k, s, a))
  {
    match a
    case Append(_, _, _) => SoundWrite(k, s, a);
    case Commit(_, _) => SoundCommit(k, s, a);
    case Crash =>
    case Open => SoundOpen(k, s);
    case OpenCut => SoundCut(k, s);
  }

  predicate ProperRun(k: Keys, s: Sys, actions: seq<Action>)
    decreases |actions|
  {
    actions == [] || (Proper(k, s, actions[0]) && ProperRun(k, Step(k, s, actions[0]), actions[1..]))
  }

  lemma {:induction false} SoundRun(k: Keys, s: Sys, actions: seq<Action>)
    requires Sound(k, s) && ProperRun(k, s, actions)
    ensures Sound(k, RunFrom(k, s, actions))
    decreases |actions|
  {
    if actions != [] {
      SoundStep(k, s, actions[0]);
      SoundRun(k, Step(k, s, actions[0]), actions[1..]);
    }
  }

  lemma SoundCreated(k: Keys, genesis: Event)
    requires Follows(k, [], genesis) && genesis.draft.newState.None?
    ensures Sound(k, Created(k, genesis))
  {
    CreatedInv(k, genesis);
    LawfulAppend([], genesis);
    assert [] + [genesis] == [genesis];
  }

  // ----- One artifact's history -----

  /** The states an artifact was put into, in order. */
  function Moves(es: seq<Event>, id: EpnId): seq<AdmissionState> {
    if es == [] then []
    else
      var d := es[|es| - 1].draft;
      Moves(es[..|es| - 1], id) + if Subject(d) == Some(id) then [d.newState.value] else []
  }

  lemma {:induction false} LeadsAppend(from: AdmissionState, path: seq<AdmissionState>, mid: AdmissionState,
                                       to: AdmissionState)
    requires Leads(CanBecome, from, path, mid) && CanBecome(mid, to)
    ensures Leads(CanBecome, from, path + [to], to)
    decreases |path|
  {
    if path == [] {
      assert path + [to] == [to] && Leads(CanBecome, to, [to][1..], to);
    } else {
      LeadsAppend(path[0], path[1..], mid, to);
      assert (path + [to])[1..] == path[1..] + [to];
    }
  }

  /** Nothing but the last state is REVOKED. */
  predicate EndsAtRevoked(moves: seq<AdmissionState>) {
    forall i :: 0 <= i < |moves| - 1 ==> !moves[i].Revoked?
  }

  lemma ChainGrows(moves: seq<AdmissionState>, from: AdmissionState, to: AdmissionState)
    requires Leads(CanBecome, Unknown, moves, from) && EndsAtRevoked(moves)
    requires moves != [] ==> moves[|moves| - 1] == from
    requires CanBecome(from, to) && from != to
    ensures Leads(CanBecome, Unknown, moves + [to], to) && EndsAtRevoked(moves + [to])
  {
    LeadsAppend(Unknown, moves, from, to);
    assert !from.Revoked?;
  }

  /**
   An artifact's events form one chain of permitted transitions from UNKNOWN to its current state, each to another
   state, and nothing follows REVOKED.
   */
  lemma {:induction false} OneChain(es: seq<Event>, id: EpnId)
    requires AllLawful(es)
    ensures Leads(CanBecome, Unknown, Moves(es, id), At(StatesOf(es), id))
    ensures EndsAtRevoked(Moves(es, id))
    ensures var moves := Moves(es, id);
            Known(StatesOf(es), id) == if moves == [] then None else Some(moves[|moves| - 1])
  {
    if es != [] {
      var before, d := es[..|es| - 1], es[|es| - 1].draft;
      OneChain(before, id);
      if Subject(d) == Some(id) {
        ChainGrows(Moves(before, id), At(StatesOf(before), id), d.newState.value);
      } else {
        assert Moves(es, id) == Moves(before, id);
      }
    }
  }

  /**
   In every run of the engine, with failed and half-written appends, crashes and reopenings: the next opening succeeds,
   recovers the acknowledged events and at most one that was written whole, and every artifact's events then form one
   lawful chain that ends in the state the engine rebuilds.
   */
  lemma EveryRunIsLawful(k: Keys, genesis: Event, actions: seq<Action>, id: EpnId)
    requires Follows(k, [], genesis) && genesis.draft.newState.None?
    requires ProperRun(k, Created(k, genesis), actions)
    ensures var s := RunFrom(k, Created(k, genesis), actions);
            var t := OpenStep(k, s);
            && Sound(k, t) && t.mem.Some? && t.history == RecoveredEvents(k, s)
            && Leads(CanBecome, Unknown, Moves(t.history, id), At(StatesOf(t.history), id))
            && EndsAtRevoked(Moves(t.history, id))
  {
    SoundCreated(k, genesis);
    SoundRun(k, Created(k, genesis), actions);
    var s := RunFrom(k, Created(k, genesis), actions);
    SoundOpen(k, s);
    OpenRecovers(k, s);
    OneChain(OpenStep(k, s).history, id);
  }
}
