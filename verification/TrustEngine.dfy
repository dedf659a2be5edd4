/** The trust engine: decisions about artifacts are logged one permitted transition at a time. */
module TrustEngine {
  import opened Wrappers
  import opened Hashing
  import opened Model
  import opened Admission
  import opened Search
  import opened EpnIds
  import opened Replay
  import opened LedgerRuns
  import opened LedgerStore
  import opened EngineRuns
  import opened Journaling
  import opened EngineSteps

  datatype EngineError = NoRoute | LedgerFailed

  /** The steps from an artifact's recorded state: none if it is there already. */
  method StepsTo(states: States, id: EpnId, to: AdmissionState) returns (r: Option<seq<AdmissionState>>)
    ensures r.Some? <==> Reachable(At(states, id), to)
    ensures r.Some? ==> Shortest(CanBecome, At(states, id), r.value, to) && |r.value| <= 3
  {
    if Known(states, id) == Some(to) {
      return Some([]);
    }
    r := Route(At(states, id), to);
    if r.Some? {
      ShortRoutes(At(states, id), r.value, to);
    }
  }

  /** Logs one permitted transition: exactly the artifact's state changes in what the events add up to. */
  method LogMove(journal: Journal, d: EventDraft, id: EpnId, to: AdmissionState, stamp: Stamp, io: Io)
    returns (ok: bool)
    requires journal.Valid() && MovesTo(StatesOf(journal.history), d, id, to)
    requires Writable(journal.ledger.k, d, stamp) && |journal.history| < MAX_SEQ
    modifies journal, journal.ledger, journal.ledger.tree
    ensures journal.Valid()
    ensures ok ==> Progress(old(journal.history), journal.history, id, [to]) &&
                   StatesOf(journal.history) == old(StatesOf(journal.history))[id := to]
    ensures !ok ==> journal.history == old(journal.history)
    ensures ok <==> !old(journal.ledger.poisoned) && Works(io)
    ensures ok ==> !journal.ledger.poisoned && Logged(old(journal.history), journal.history, d)
  {
    ghost var end;
    ok, end := journal.Log(d, stamp, io);
    if ok {
      StepLogged(old(journal.history), journal.history, d, id, to);
    }
  }

  /** Each of the steps of a decision can be written. */
  ghost predicate AllWork(ios: nat -> Io) {
    forall i :: 0 <= i < 3 ==> Works(ios(i))
  }

  class Engine {
    const journal: Journal
    var states: States

    /** The states held in memory are the ones the acknowledged events add up to. */
    ghost predicate Valid()
      reads this, journal, journal.ledger, journal.ledger.tree
    {
      journal.Valid() && states == StatesOf(journal.history)
    }

    /** Opening: the states are rebuilt from the events the ledger returned. */
    constructor (journal: Journal, events: seq<Event>)
      requires journal.Valid() && events == journal.history
      ensures Valid() && this.journal == journal
    {
      this.journal := journal;
      var rebuilt := RebuildStates(events);
      this.states := rebuilt;
    }

    /** Takes over the states that the events add up to. */
    method Hold(moved: States)
      requires journal.Valid() && moved == StatesOf(journal.history)
      modifies this
      ensures Valid() && states == moved
    {
      states := moved;
    }

    /** Logs one permitted transition and moves the artifact with it. */
    method Take(d: EventDraft, id: EpnId, to: AdmissionState, stamp: Stamp, io: Io) returns (ok: bool)
      requires Valid() && MovesTo(StatesOf(journal.history), d, id, to)
      requires Writable(journal.ledger.k, d, stamp) && |journal.history| < MAX_SEQ
      modifies this, journal, journal.ledger, journal.ledger.tree
      ensures Valid()
      ensures ok ==> Progress(old(journal.history), journal.history, id, [to]) && states == old(states)[id := to]
      ensures !ok ==> journal.history == old(journal.history) && states == old(states)
      ensures ok <==> !old(journal.ledger.poisoned) && Works(io)
      ensures ok ==> !journal.ledger.poisoned && Logged(old(journal.history), journal.history, d)
    {
      ok := LogMove(journal, d, id, to, stamp, io);
      var moved := if ok then states[id := to] else states;
      assert moved == StatesOf(journal.history);
      Hold(moved);
    }

    /** Takes the steps of a route in turn, until one cannot be logged. */
    method TakeAll(id: EpnId, steps: seq<AdmissionState>, ghost to: AdmissionState, c: Cause, stamp: Stamp,
                   ios: nat -> Io)
      returns (ok: bool, ghost taken: seq<AdmissionState>)
      requires Valid() && WritableSteps(journal.ledger.k, c, id, stamp)
      requires |steps| <= 3 && |journal.history| + |steps| <= MAX_SEQ
      requires Shortest(CanBecome, At(states, id), steps, to)
      modifies this, journal, journal.ledger, journal.ledger.tree
      ensures Valid() && Progress(old(journal.history), journal.history, id, taken)
      ensures states == Moved(old(states), id, taken)
      ensures taken <= steps && (ok ==> taken == steps) && Cited(old(journal.history), journal.history, c)
      ensures !old(journal.ledger.poisoned) && AllWork(ios) ==> ok && !journal.ledger.poisoned
    {
      Starts(states, journal.history, id, steps, to, c);
      for i := 0 to |steps|
        invariant Valid() && OnWay(old(states), states, old(journal.history), journal.history, id, steps, i, to, c)
        invariant !old(journal.ledger.poisoned) && AllWork(ios) ==> !journal.ledger.poisoned
      {
        ghost var was, before := states, journal.history;
        NextIsLawful(old(states), states, old(journal.history), before, id, steps, i, to, c);
        var d := StepDraft(c, id, Known(states, id), steps[i], i);
        assert Writable(journal.ledger.k, d, stamp);
        ok := Take(d, id, steps[i], stamp, ios(i));
        if !ok {
          OnWayIs(old(states), was, old(journal.history), before, id, steps, i, to, c);
          return false, steps[..i];
        }
        GoesOn(old(states), was, old(journal.history), before, journal.history, id, steps, i, to, c);
      }
      OnWayIs(old(states), states, old(journal.history), journal.history, id, steps, |steps|, to, c);
      taken := steps;
      ok := true;
    }

    /**
     Moves an artifact to `to` by a shortest legal route, one logged step at a time. If a step cannot be logged the
     artifact stays where the acknowledged steps took it.
     */
    method ApplyDecision(id: EpnId, to: AdmissionState, c: Cause, stamp: Stamp, ios: nat -> Io)
      returns (r: Result<nat, EngineError>, ghost taken: seq<AdmissionState>)
      requires Valid() && WritableSteps(journal.ledger.k, c, id, stamp) && |journal.history| + 3 <= MAX_SEQ
      modifies this, journal, journal.ledger, journal.ledger.tree
      ensures Valid() && Progress(old(journal.history), journal.history, id, taken)
      ensures states == Moved(old(states), id, taken)
      ensures |taken| <= 3 && Cited(old(journal.history), journal.history, c)
      ensures r.Ok? ==> r.value == |taken| && Shortest(CanBecome, At(old(states), id), taken, to)
      ensures r == Err(NoRoute) <==> !Reachable(At(old(states), id), to)
      ensures !old(journal.ledger.poisoned) && AllWork(ios) ==> r != Err(LedgerFailed) && !journal.ledger.poisoned
    {
      taken := [];
      NoProgress(journal.history, id);
      var found := StepsTo(states, id, to);
      if found.None? {
        return Err(NoRoute), taken;
      }
      var ok;
      ok, taken := TakeAll(id, found.value, to, c, stamp, ios);
      r := if ok then Ok(|found.value|) else Err(LedgerFailed);
    }
  }

  /** Opens an engine on the logs that any run left behind. */
  method OpenEngine(k: Keys, events: seq<byte>, checkpoints: seq<byte>, ghost s: Sys) returns (engine: Engine)
    requires Sound(k, s) && s.events == events && s.checkpoints == checkpoints
    ensures fresh(engine) && fresh(engine.journal) && fresh(engine.journal.ledger) && fresh(engine.journal.ledger.tree)
    ensures engine.Valid() && engine.journal.ledger.k == k && !engine.journal.ledger.poisoned
    ensures engine.journal.history == RecoveredEvents(k, s) && engine.states == StatesOf(RecoveredEvents(k, s))
  {
    var journal, replayed := OpenJournal(k, events, checkpoints, s);
    engine := new Engine(journal, replayed);
  }
}
