/** The engine's side of the ledger: every event it logs is lawful, so the ledger stays sound. */
module Journaling {
  import opened Hashing
  import opened Model
  import opened Replay
  import opened Honest
  import opened LedgerRuns
  import opened LedgerStore
  import opened EngineRuns

  const MAX_SEQ: nat := 0x1_0000_0000_0000_0000

  /** Envelopes of this draft fit a frame, wherever in the chain it lands. */
  ghost predicate Writable(k: Keys, d: EventDraft, stamp: Stamp) {
    forall e: Event :: e.draft == d && e.stamp == stamp && e.seqno < MAX_SEQ ==> CanWrite(k, e)
  }

  /** The history grew by one event with this draft. */
  predicate Logged(before: seq<Event>, after: seq<Event>, d: EventDraft) {
    |after| == |before| + 1 && after[..|before|] == before && after[|before|].draft == d
  }

  /** What appending does to the acknowledged history. */
  lemma AppendHistory(k: Keys, s: Sys, d: EventDraft, stamp: Stamp, end: Ending)
    ensures var t := Step(k, s, Action.Append(d, stamp, end));
            if s.mem.Some? && !s.mem.value.poisoned && end.Written? then Logged(s.history, t.history, d)
            else t.history == s.history
  {
  }

  lemma AppendIsProper(k: Keys, s: Sys, d: EventDraft, stamp: Stamp, end: Ending)
    requires Inv(k, s) && Lawful(StatesOf(s.history), d)
    requires d.kind != Genesis && Writable(k, d, stamp) && |s.history| < MAX_SEQ
    ensures Proper(k, s, Action.Append(d, stamp, end))
  {
  }

  /** An append keeps the ledger sound, whether or not it succeeds. */
  lemma LogStep(k: Keys, s: Sys, d: EventDraft, stamp: Stamp, end: Ending)
    requires Sound(k, s) && Lawful(StatesOf(s.history), d)
    requires d.kind != Genesis && Writable(k, d, stamp) && |s.history| < MAX_SEQ
    ensures Sound(k, Step(k, s, Action.Append(d, stamp, end)))
  {
    AppendIsProper(k, s, d, stamp, end);
    SoundStep(k, s, Action.Append(d, stamp, end));
  }

  /** Appends to the ledger, and names the way the write ended. */
  method AppendTo(ledger: Ledger, d: EventDraft, stamp: Stamp, io: Io, ghost s: Sys)
    returns (ok: bool, ghost end: Ending)
    requires ledger.Valid() && ledger.Represents(s)
    modifies ledger, ledger.tree
    ensures ledger.Valid() && ledger.Represents(Step(ledger.k, s, Action.Append(d, stamp, end)))
    ensures ok <==> s.mem.Some? && !s.mem.value.poisoned && end.Written?
    ensures ok <==> !old(ledger.poisoned) && Works(io)
    ensures ok ==> !ledger.poisoned
  {
    end := EndingOf(io, Framing.Frame(ledger.k.h, ledger.k.signEvent(NextEvent(ledger.View(), d, stamp))));
    var r := ledger.Append(d, stamp, io, s);
    ok := r.Ok?;
  }

  class Journal {
    const ledger: Ledger
    ghost var sys: Sys
    ghost var history: seq<Event>

    ghost predicate Valid()
      reads this, ledger, ledger.tree
    {
      ledger.Valid() && ledger.Represents(sys) && Sound(ledger.k, sys) && history == sys.history
    }

    constructor (ledger: Ledger, ghost sys: Sys)
      requires ledger.Valid() && ledger.Represents(sys) && Sound(ledger.k, sys)
      ensures Valid() && this.ledger == ledger && this.sys == sys && history == sys.history
    {
      this.ledger, this.sys, history := ledger, sys, sys.history;
    }

    /** Logs one event: a step of the ledger, whichever way the write ends. A failure leaves the history as it is. */
    method Log(d: EventDraft, stamp: Stamp, io: Io) returns (ok: bool, ghost end: Ending)
      requires Valid() && Lawful(StatesOf(history), d)
      requires d.kind != Genesis && Writable(ledger.k, d, stamp) && |history| < MAX_SEQ
      modifies this, ledger, ledger.tree
      ensures Valid() && sys == Step(ledger.k, old(sys), Action.Append(d, stamp, end))
      ensures ok <==> old(sys.mem).Some? && !old(sys.mem).value.poisoned && end.Written?
      ensures ok <==> !old(ledger.poisoned) && Works(io)
      ensures ok ==> !ledger.poisoned
      ensures if ok then Logged(old(history), history, d) else history == old(history)
    {
      ok, end := AppendTo(ledger, d, stamp, io, sys);
      LogStep(ledger.k, sys, d, stamp, end);
      AppendHistory(ledger.k, sys, d, stamp, end);
      Follow(Step(ledger.k, sys, Action.Append(d, stamp, end)));
    }

    /** The ledger is in this state now. */
    ghost method Follow(next: Sys)
      requires ledger.Valid() && ledger.Represents(next) && Sound(ledger.k, next)
      modifies this
      ensures Valid() && sys == next && history == next.history
    {
      sys, history := next, next.history;
    }
  }

  /**
   Opens the ledger that any run left behind. It always succeeds, and the history it starts from is the acknowledged
   events and at most one more that was written whole.
   */
  method OpenJournal(k: Keys, events: seq<byte>, checkpoints: seq<byte>, ghost s: Sys)
    returns (journal: Journal, replayed: seq<Event>)
    requires Sound(k, s) && s.events == events && s.checkpoints == checkpoints
    ensures fresh(journal) && fresh(journal.ledger) && fresh(journal.ledger.tree)
    ensures journal.Valid() && journal.ledger.k == k && journal.sys == OpenStep(k, s) && !journal.ledger.poisoned
    ensures replayed == journal.history == RecoveredEvents(k, s)
  {
    SoundOpen(k, s);
    OpenRecovers(k, s);
    var ledger, report := OpenLedger(k, events, checkpoints, s);
    journal := new Journal(ledger, OpenStep(k, s));
    replayed := report.value.events;
  }
}
