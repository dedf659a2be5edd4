/** The engine's signed files, beside its journal. Every grant is a step of `AuthorityRuns`. */
module AuthorityStore {
  import opened Hashing
  import opened Model
  import opened Replay
  import opened LedgerRuns
  import opened LedgerStore
  import opened EngineRuns
  import opened Journaling
  import opened Authority
  import opened AuthorityRuns

  lemma OverrideIsLawful(states: States, d: EventDraft, s: Subject, digest: Digest)
    requires IsOverride(d, s, digest)
    ensures Lawful(states, d) && d.kind != Genesis
  {
  }

  /** The files of a directory are removed exactly as a grant's step says. */
  lemma RemovedIsPruned(r: Rules, files: Files, after: Files, g: Grant)
    requires StemOf(r.directory, g.subject).Some? && g.removed == files.Keys - after.Keys
    requires OnlyRemoved(files, after, StemOf(r.directory, g.subject).value, NewFile(r, g.subject, g.bytes))
    ensures after == Pruned(r, files, g)
  {
  }

  /** Holding the new file beside the others is holding what is current after the grant. */
  lemma HoldsGranted(r: Rules, current: Current, held: map<Subject, seq<byte>>, s: Subject, bytes: seq<byte>)
    requires HoldsCurrent(r, current, held) && StemOf(r.directory, s).Some?
    ensures HoldsCurrent(r, current[s := r.h(bytes)], held[s := bytes])
  {
  }

  lemma LoggedCurrent(before: seq<Event>, after: seq<Event>, d: EventDraft, s: Subject, digest: Digest)
    requires Logged(before, after, d) && IsOverride(d, s, digest)
    ensures CurrentOf(after) == CurrentOf(before)[s := digest]
  {
    assert after == before + [after[|before|]];
    CurrentAppend(before, after[|before|]);
  }

  /** Superseded files that are listed are gone, except where removing them did not work or the power went. */
  ghost predicate Cleared(r: Rules, files: Files, g: Grant, listing: seq<File>, e: RemoveEnd)
    requires StemOf(r.directory, g.subject).Some?
  {
    var stem := StemOf(r.directory, g.subject).value;
    e.entries >= |listing| ==>
      forall f :: f in files && f in listing && Superseded(stem, NewFile(r, g.subject, g.bytes), f) ==> !e.works(f)
  }

  class Store {
    const r: Rules
    const journal: Journal
    var files: Files
    var held: map<Subject, seq<byte>>

    ghost function Value(): Auth
      reads this, journal
    {
      Auth(files, journal.sys)
    }

    /** Every file the ledger names is there, and the files held in memory are the current ones. */
    ghost predicate Valid()
      reads this, journal, journal.ledger, journal.ledger.tree
    {
      && journal.Valid() && Durable(journal.ledger.k, r, Value())
      && HoldsCurrent(r, CurrentOf(journal.history), held)
    }

    constructor (r: Rules, journal: Journal, files: Files, held: map<Subject, seq<byte>>)
      requires journal.Valid() && Durable(journal.ledger.k, r, Auth(files, journal.sys))
      requires HoldsCurrent(r, CurrentOf(journal.history), held)
      ensures Valid() && this.r == r && this.journal == journal && this.files == files && this.held == held
    {
      this.r, this.journal, this.files, this.held := r, journal, files, held;
    }

    /** Writes the new file. */
    method WriteFile(g: Grant)
      requires StemOf(r.directory, g.subject).Some?
      modifies this`files
      ensures files == FileWritten(r, old(files), g)
    {
      if g.write.Written? || g.write.there {
        files := files[NewFile(r, g.subject, g.bytes) := g.bytes];
      }
    }

    /** Removes the files that the new one supersedes, as far as that works. */
    method Prune(g: Grant, listing: seq<File>, e: RemoveEnd) returns (ghost removed: set<File>)
      requires StemOf(r.directory, g.subject).Some?
      modifies this`files
      ensures files == Pruned(r, old(files), g.(removed := removed)) && Cleared(r, files, g, listing, e)
    {
      ghost var before := files;
      var stem := StemOf(r.directory, g.subject).value;
      files := RemoveSuperseded(files, listing, stem, NewFile(r, g.subject, g.bytes), e);
      removed := before.Keys - files.Keys;
      RemovedIsPruned(r, before, files, g.(removed := removed));
    }

    /**
     Grants new authority to a subject: a file of its own, then the event, then removal of what it supersedes. It is the
     step proved about, so every file that the ledger names, or may name once reopened, is there however it ends. Memory
     follows the acknowledged events.
     */
    method Issue(g: Grant, io: Io, listing: seq<File>, e: RemoveEnd) returns (ok: bool, ghost done: Grant)
      requires Valid() && !g.write.WriteDies? && ProperGrant(journal.ledger.k, r, Value(), g)
      requires Writable(journal.ledger.k, g.draft, g.stamp) && |journal.history| < MAX_SEQ
      modifies this, journal, journal.ledger, journal.ledger.tree
      ensures SameGrant(g, done) && StemOf(r.directory, done.subject).Some?
      ensures Valid() && Value() == GrantStep(journal.ledger.k, r, old(Value()), done)
      ensures if ok then Logged(old(journal.history), journal.history, g.draft)
              else journal.history == old(journal.history)
      ensures held == if ok then old(held)[g.subject := g.bytes] else old(held)
      ensures ok <==> g.write.Written? && !old(journal.ledger.poisoned) && Works(io)
      ensures ok ==> Cleared(r, files, g, listing, e)
    {
      ghost var a := Value();
      WriteFile(g);
      if !g.write.Written? {
        Unwritten(journal.ledger.k, r, a, g);
        return false, g;
      }
      ghost var end;
      ok, end := LogGrant(g, io);
      ghost var removed := {};
      if ok {
        removed := Prune(g, listing, e);
      }
      done := g.(log := end, removed := removed);
      Completed(journal.ledger.k, r, a, g, done, files, journal.sys);
    }

    /** Logs the event that makes the new file current. The file held in memory is put back if that fails. */
    method LogGrant(g: Grant, io: Io) returns (ok: bool, ghost end: Ending)
      requires journal.Valid() && HoldsCurrent(r, CurrentOf(journal.history), held)
      requires IsOverride(g.draft, g.subject, r.h(g.bytes)) && StemOf(r.directory, g.subject).Some?
      requires Writable(journal.ledger.k, g.draft, g.stamp) && |journal.history| < MAX_SEQ
      modifies this`held, journal, journal.ledger, journal.ledger.tree
      ensures journal.Valid() && HoldsCurrent(r, CurrentOf(journal.history), held)
      ensures journal.sys == Step(journal.ledger.k, old(journal.sys), Append(g.draft, g.stamp, end))
      ensures ok <==> Acknowledged(old(journal.sys), end)
      ensures ok <==> !old(journal.ledger.poisoned) && Works(io)
      ensures if ok then Logged(old(journal.history), journal.history, g.draft)
              else journal.history == old(journal.history)
      ensures held == if ok then old(held)[g.subject := g.bytes] else old(held)
    {
      var previous := held;
      held := held[g.subject := g.bytes];
      OverrideIsLawful(StatesOf(journal.history), g.draft, g.subject, r.h(g.bytes));
      ok, end := journal.Log(g.draft, g.stamp, io);
      if ok {
        LoggedCurrent(old(journal.history), journal.history, g.draft, g.subject, r.h(g.bytes));
        HoldsGranted(r, CurrentOf(old(journal.history)), previous, g.subject, g.bytes);
      } else {
        held := previous;
      }
    }
  }

  lemma Unwritten(k: Keys, r: Rules, a: Auth, g: Grant)
    requires Durable(k, r, a) && ProperGrant(k, r, a, g) && g.write.WriteFails?
    ensures var b := Auth(FileWritten(r, a.files, g), a.sys);
            Durable(k, r, b) && b == GrantStep(k, r, a, g)
  {
    GrantKeeps(k, r, a, g);
  }

  lemma Completed(k: Keys, r: Rules, a: Auth, g: Grant, done: Grant, files: Files, sys: Sys)
    requires Durable(k, r, a) && ProperGrant(k, r, a, g) && SameGrant(g, done) && g.write.Written?
    requires sys == Step(k, a.sys, Append(g.draft, g.stamp, done.log))
    requires files == if Acknowledged(a.sys, done.log) then Pruned(r, FileWritten(r, a.files, g), done)
                      else FileWritten(r, a.files, g)
    ensures StemOf(r.directory, done.subject).Some?
    ensures Durable(k, r, Auth(files, sys)) && Auth(files, sys) == GrantStep(k, r, a, done)
  {
    ProperAnyEnd(k, r, a, g, done);
    GrantKeeps(k, r, a, done);
  }

  /** The same grant, whichever way its log write and its removals ended. */
  predicate SameGrant(g: Grant, done: Grant) {
    done == g.(log := done.log, removed := done.removed)
  }

  lemma ProperAnyEnd(k: Keys, r: Rules, a: Auth, g: Grant, done: Grant)
    requires ProperGrant(k, r, a, g) && SameGrant(g, done)
    ensures ProperGrant(k, r, a, done)
  {
  }

  /**
   Opens the signed files on the logs that any run of grants left behind. What the ledger recovers says what is current;
   exactly the current file of every subject is honoured, and every other file is reported.
   */
  method OpenStore(k: Keys, r: Rules, events: seq<byte>, checkpoints: seq<byte>, files: Files, listing: seq<File>,
                   ghost s: Sys)
    returns (store: Store, problems: seq<File>)
    requires Durable(k, r, Auth(files, s)) && s.events == events && s.checkpoints == checkpoints
    requires (forall f :: f in files && EndsWith(f, SUFFIX) ==> f in listing) && forall f :: f in listing ==> f in files
    ensures fresh(store) && store.Valid() && store.r == r && store.files == files && store.journal.ledger.k == k
    ensures store.journal.history == RecoveredEvents(k, s)
    ensures HoldsCurrent(r, CurrentOf(RecoveredEvents(k, s)), store.held)
    ensures forall f :: f in listing ==>
              (f in problems <==> !Honoured(r, CurrentOf(RecoveredEvents(k, s)), files[f]))
  {
    OpenBacks(k, r, Auth(files, s));
    SoundOpen(k, s);
    var journal, replayed := OpenJournal(k, events, checkpoints, s);
    var current := RebuildCurrent(replayed);
    var held;
    held, problems := HonourFiles(r, files, listing, current);
    store := new Store(r, journal, files, held);
  }
}
