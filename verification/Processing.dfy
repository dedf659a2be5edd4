/** What the engine does with an artifact it measured: evaluate it, and degrade what used to be at its path. */
module Processing {
  import opened Wrappers
  import opened Model
  import opened Admission
  import opened Search
  import opened EpnIds
  import opened EngineRuns
  import opened Journaling
  import opened EngineSteps
  import opened TrustEngine
  import opened Replacing
  import opened LedgerStore
  import PolicyRules
  import Decisions

  /** The facts about an artifact as the engine holds them now. */
  function FactsNow(states: States, id: EpnId, f: Decisions.Facts): Decisions.Facts {
    f.(prior := Known(states, id))
  }

  lemma DecisionHasRoute(p: PolicyRules.Policy, rule: PolicyRules.NameRule, states: States, id: EpnId,
                         f: Decisions.Facts, now: nat)
    requires PolicyRules.ValidPolicy(p, rule)
    ensures Reachable(At(states, id), Decisions.Decide(p, FactsNow(states, id, f), now).state)
  {
    Decisions.DecisionIsReachable(p, rule, FactsNow(states, id, f), now);
  }

  /** Whatever the policy and the approvals, changed content does not stay trusted. */
  lemma ChangedIsNotTrusted(p: PolicyRules.Policy, f: Decisions.Facts, now: nat)
    requires p.tiers != [] && PolicyRules.ContentDigestMismatch in f.evidence
    ensures var s := Decisions.Decide(p, f, now).state;
            s.Revoked? || s.Degraded? || s.Quarantined?
  {
  }

  lemma RemarkChangesNothing(before: seq<Event>, after: seq<Event>, d: EventDraft)
    requires Remark(d) && Logged(before, after, d)
    ensures StatesOf(after) == StatesOf(before)
  {
    assert after == before + [after[|before|]];
    StatesAppend(before, after[|before|]);
  }

  /** Logs an event that sets no state; the states stay those the events add up to. */
  method Note(e: Engine, d: EventDraft, stamp: Stamp, io: Io) returns (ok: bool)
    requires e.Valid() && Remark(d) && Writable(e.journal.ledger.k, d, stamp) && |e.journal.history| < MAX_SEQ
    modifies e.journal, e.journal.ledger, e.journal.ledger.tree
    ensures e.Valid() && |e.journal.history| <= old(|e.journal.history|) + 1 && e.states == old(e.states)
    ensures ok ==> Logged(old(e.journal.history), e.journal.history, d) && !e.journal.ledger.poisoned
    ensures ok <==> !old(e.journal.ledger.poisoned) && Works(io)
    ensures !ok ==> e.journal.history == old(e.journal.history)
  {
    ghost var end;
    ok, end := e.journal.Log(d, stamp, io);
    if ok {
      RemarkChangesNothing(old(e.journal.history), e.journal.history, d);
    }
  }

  lemma MovesOnly(states: States, id: EpnId, taken: seq<AdmissionState>)
    ensures OnlyMoves(states, Moved(states, id, taken), {id})
  {
  }

  lemma EndsThere(states: States, id: EpnId, taken: seq<AdmissionState>, to: AdmissionState)
    requires Leads(CanBecome, At(states, id), taken, to)
    ensures At(Moved(states, id, taken), id) == to
  {
    LeadsToLast(At(states, id), taken, to);
  }

  lemma {:induction false} LeadsToLast(from: AdmissionState, path: seq<AdmissionState>, to: AdmissionState)
    requires Leads(CanBecome, from, path, to)
    ensures path == [] ==> from == to
    ensures path != [] ==> path[|path| - 1] == to
    decreases |path|
  {
    if path != [] {
      LeadsToLast(path[0], path[1..], to);
    }
  }

  /** Moves an artifact to a state it can reach; only a failing ledger prevents that. */
  method Settle(e: Engine, id: EpnId, to: AdmissionState, c: Cause, stamp: Stamp, ios: nat -> Io)
    returns (r: Result<nat, EngineError>)
    requires e.Valid() && WritableSteps(e.journal.ledger.k, c, id, stamp) && |e.journal.history| + 3 <= MAX_SEQ
    requires Reachable(At(e.states, id), to)
    modifies e, e.journal, e.journal.ledger, e.journal.ledger.tree
    ensures e.Valid() && |e.journal.history| <= old(|e.journal.history|) + 3
    ensures OnlyMoves(old(e.states), e.states, {id}) && old(e.journal.history) <= e.journal.history
    ensures r.Ok? ==> At(e.states, id) == to
    ensures r.Err? ==> r.error == LedgerFailed
    ensures !old(e.journal.ledger.poisoned) && AllWork(ios) ==> r.Ok? && !e.journal.ledger.poisoned
  {
    ghost var was := e.states;
    ghost var taken;
    r, taken := e.ApplyDecision(id, to, c, stamp, ios);
    MovesOnly(was, id, taken);
    if r.Ok? {
      EndsThere(was, id, taken, to);
    }
  }

  /** The state for an artifact whose content changed; it needs no record of the artifact. */
  method StateIfChanged(p: PolicyRules.Policy, ghost rule: PolicyRules.NameRule, states: States, id: EpnId,
                        record: Option<Decisions.Facts>, now: nat)
    returns (to: AdmissionState)
    requires PolicyRules.ValidPolicy(p, rule) && id in states && !states[id].Revoked?
    requires record.Some? ==> record.value.evidence == [PolicyRules.ContentDigestMismatch]
    ensures to == AfterChange(states[id], record) && !PermitsNormalExecution(to)
    ensures Reachable(At(states, id), to)
  {
    if record.None? {
      return if PermitsNormalExecution(states[id]) then Degraded else Quarantined;
    }
    var f := FactsNow(states, id, record.value);
    DecisionHasRoute(p, rule, states, id, record.value, now);
    ChangedIsNotTrusted(p, f, now);
    var decision := Decisions.Evaluate(p, f, now);
    to := decision.state;
  }

  /** Logs the mismatch and moves the artifact where it does not run. */
  method Distrust(e: Engine, p: PolicyRules.Policy, ghost rule: PolicyRules.NameRule, id: EpnId,
                  record: Option<Decisions.Facts>, now: nat, mismatch: EventDraft, c: Cause, stamp: Stamp, io: Io,
                  ios: nat -> Io)
    returns (r: Result<nat, EngineError>)
    requires e.Valid() && PolicyRules.ValidPolicy(p, rule) && |e.journal.history| + 4 <= MAX_SEQ
    requires record.Some? ==> record.value.evidence == [PolicyRules.ContentDigestMismatch]
    requires Remark(mismatch) && Writable(e.journal.ledger.k, mismatch, stamp)
    requires WritableSteps(e.journal.ledger.k, c, id, stamp)
    requires id in e.states && !e.states[id].Revoked?
    modifies e, e.journal, e.journal.ledger, e.journal.ledger.tree
    ensures e.Valid() && |e.journal.history| <= old(|e.journal.history|) + 4
    ensures OnlyMoves(old(e.states), e.states, {id})
    ensures r.Ok? ==>
              && At(e.states, id) == AfterChange(old(e.states)[id], record)
              && Begins(old(e.journal.history), e.journal.history, mismatch)
    ensures r.Err? ==> r.error == LedgerFailed && old(e.journal.history) <= e.journal.history
    ensures !old(e.journal.ledger.poisoned) && Works(io) && AllWork(ios) ==> r.Ok? && !e.journal.ledger.poisoned
  {
    var to := StateIfChanged(p, rule, e.states, id, record, now);
    var noted := Note(e, mismatch, stamp, io);
    if !noted {
      return Err(LedgerFailed);
    }
    ghost var mid := e.journal.history;
    r := Settle(e, id, to, c, stamp, ios);
    BeginsWith(old(e.journal.history), mid, e.journal.history, mismatch);
  }

  /**
   Handles a path whose content changed: the artifact that was there is put where it does not run, and that is logged.
   Only a failing ledger prevents that, and no legal route is ever missing.
   */
  method OnReplaced(e: Engine, p: PolicyRules.Policy, ghost rule: PolicyRules.NameRule, former: Former, now: nat,
                    stamp: Stamp, io: Io, ios: nat -> Io)
    returns (r: Result<nat, EngineError>)
    requires e.Valid() && PolicyRules.ValidPolicy(p, rule) && |e.journal.history| + 4 <= MAX_SEQ
    requires Loggable(e.journal.ledger.k, former, stamp)
    modifies e, e.journal, e.journal.ledger, e.journal.ledger.tree
    ensures e.Valid() && Changed(old(e.states), e.states, old(e.journal.history), e.journal.history, former, r.Ok?)
    ensures r.Err? ==> r.error == LedgerFailed
    ensures !old(e.journal.ledger.poisoned) && Works(io) && AllWork(ios) ==> r.Ok? && !e.journal.ledger.poisoned
  {
    if !StillTrusted(e.states, former.id) {
      NothingChanged(e.states, e.journal.history, former);
      return Ok(0);
    }
    r := Distrust(e, p, rule, former.id, former.record, now, former.mismatch, former.cause, stamp, io, ios);
    ContentChanged(old(e.states), e.states, old(e.journal.history), e.journal.history, former, r.Ok?);
  }

  /** Logs an artifact's discovery, if it is new, and moves it to the decided state. */
  method Decided(e: Engine, id: EpnId, to: AdmissionState, isNew: bool, discover: EventDraft, c: Cause, stamp: Stamp,
                 io: Io, ios: nat -> Io)
    returns (r: Result<nat, EngineError>)
    requires e.Valid() && |e.journal.history| + 4 <= MAX_SEQ && Reachable(At(e.states, id), to)
    requires RemarkOn(discover, Discover, id) && Writable(e.journal.ledger.k, discover, stamp)
    requires WritableSteps(e.journal.ledger.k, c, id, stamp)
    modifies e, e.journal, e.journal.ledger, e.journal.ledger.tree
    ensures e.Valid() && OnlyMoves(old(e.states), e.states, {id})
    ensures r.Ok? ==> At(e.states, id) == to
    ensures r.Ok? && (isNew || id !in old(e.states)) ==> Begins(old(e.journal.history), e.journal.history, discover)
    ensures r.Err? ==> r.error == LedgerFailed
    ensures old(e.journal.history) <= e.journal.history
    ensures !old(e.journal.ledger.poisoned) && Works(io) && AllWork(ios) ==> r.Ok? && !e.journal.ledger.poisoned
  {
    if isNew || id !in e.states {
      var noted := Note(e, discover, stamp, io);
      if !noted {
        return Err(LedgerFailed);
      }
      ghost var mid := e.journal.history;
      r := Settle(e, id, to, c, stamp, ios);
      BeginsWith(old(e.journal.history), mid, e.journal.history, discover);
    } else {
      r := Settle(e, id, to, c, stamp, ios);
    }
  }

  /** Distrusts the artifact that the index names for the path, if it is another one. */
  method DistrustFormer(e: Engine, p: PolicyRules.Policy, ghost rule: PolicyRules.NameRule, was: Option<Former>,
                        id: EpnId, now: nat, stamp: Stamp, io: Io, ios: nat -> Io)
    returns (r: Result<nat, EngineError>)
    requires e.Valid() && PolicyRules.ValidPolicy(p, rule) && |e.journal.history| + 4 <= MAX_SEQ
    requires was.Some? ==> Loggable(e.journal.ledger.k, was.value, stamp)
    modifies e, e.journal, e.journal.ledger, e.journal.ledger.tree
    ensures e.Valid() && Handled(old(e.states), e.states, old(e.journal.history), e.journal.history, id, was, r.Ok?)
    ensures r.Err? ==> r.error == LedgerFailed
    ensures !old(e.journal.ledger.poisoned) && Works(io) && AllWork(ios) ==> r.Ok? && !e.journal.ledger.poisoned
  {
    if was.None? || was.value.id == id {
      return Ok(0);
    }
    r := OnReplaced(e, p, rule, was.value, now, stamp, io, ios);
  }

  /** Evaluates an artifact and logs what was decided. */
  method Conclude(e: Engine, p: PolicyRules.Policy, ghost rule: PolicyRules.NameRule, id: EpnId, f: Decisions.Facts,
                  now: nat, isNew: bool, discover: EventDraft, c: Cause, stamp: Stamp, io: Io, ios: nat -> Io)
    returns (r: Result<Decisions.Decision, EngineError>)
    requires e.Valid() && PolicyRules.ValidPolicy(p, rule) && |e.journal.history| + 4 <= MAX_SEQ
    requires RemarkOn(discover, Discover, id) && Writable(e.journal.ledger.k, discover, stamp)
    requires WritableSteps(e.journal.ledger.k, c, id, stamp)
    modifies e, e.journal, e.journal.ledger, e.journal.ledger.tree
    ensures e.Valid() && OnlyMoves(old(e.states), e.states, {id}) && old(e.journal.history) <= e.journal.history
    ensures r.Ok? ==>
              && r.value == Decisions.Decide(p, FactsNow(old(e.states), id, f), now)
              && At(e.states, id) == r.value.state
    ensures r.Ok? && (isNew || id !in old(e.states)) ==> Begins(old(e.journal.history), e.journal.history, discover)
    ensures r.Err? ==> r.error == LedgerFailed
    ensures !old(e.journal.ledger.poisoned) && Works(io) && AllWork(ios) ==> r.Ok?
  {
    DecisionHasRoute(p, rule, e.states, id, f, now);
    var decision := Decisions.Evaluate(p, FactsNow(e.states, id, f), now);
    var moved := Decided(e, id, decision.state, isNew, discover, c, stamp, io, ios);
    r := if moved.Ok? then Ok(decision) else Err(moved.error);
  }

  /**
   Evaluates an artifact that was measured and logs what was decided, after distrusting another that the index names for
   the same path. The artifact is then in the state that policy, evidence and approvals make of it, the other one is
   where it does not run, and no third one is touched; only a failing ledger prevents that.
   */
  method Process(e: Engine, p: PolicyRules.Policy, ghost rule: PolicyRules.NameRule, was: Option<Former>, id: EpnId,
                 f: Decisions.Facts, now: nat, isNew: bool, discover: EventDraft, c: Cause, stamp: Stamp,
                 wasIo: Io, wasIos: nat -> Io, io: Io, ios: nat -> Io)
    returns (r: Result<Decisions.Decision, EngineError>)
    requires e.Valid() && PolicyRules.ValidPolicy(p, rule) && |e.journal.history| + 8 <= MAX_SEQ
    requires was.Some? ==> Loggable(e.journal.ledger.k, was.value, stamp)
    requires RemarkOn(discover, Discover, id) && Writable(e.journal.ledger.k, discover, stamp)
    requires WritableSteps(e.journal.ledger.k, c, id, stamp)
    modifies e, e.journal, e.journal.ledger, e.journal.ledger.tree
    ensures e.Valid()
    ensures Processed(old(e.states), e.states, old(e.journal.history), e.journal.history, id, was, isNew, discover,
                      r.Ok?)
    ensures r.Ok? ==>
              && r.value == Decisions.Decide(p, FactsNow(old(e.states), id, f), now)
              && At(e.states, id) == r.value.state
    ensures r.Err? ==> r.error == LedgerFailed
    ensures !old(e.journal.ledger.poisoned) && Works(wasIo) && AllWork(wasIos) && Works(io) && AllWork(ios) ==> r.Ok?
  {
    var replaced := DistrustFormer(e, p, rule, was, id, now, stamp, wasIo, wasIos);
    ghost var mid, noted := e.states, e.journal.history;
    HandledAside(old(e.states), mid, old(e.journal.history), noted, id, was, replaced.Ok?);
    if replaced.Err? {
      FailsEarly(old(e.states), mid, old(e.journal.history), noted, id, was, isNew, discover);
      return Err(replaced.error);
    }
    r := Conclude(e, p, rule, id, f, now, isNew, discover, c, stamp, io, ios);
    InTurn(old(e.states), mid, e.states, old(e.journal.history), noted, e.journal.history, id, was, isNew, discover,
           r.Ok?);
  }
}
