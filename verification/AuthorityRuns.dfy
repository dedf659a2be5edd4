/**
 Grants over time, on the ledger: a grant writes a new file, logs the OVERRIDE event, and only then removes the files it
 supersedes. It can fail or die at any point, and between grants anything else may happen to the ledger.
 */
module AuthorityRuns {
  import opened Wrappers
  import opened Hashing
  import opened Model
  import opened Replay
  import opened Honest
  import opened LedgerRuns
  import opened EngineRuns
  import opened Authority

  /** The signed files of a directory and the ledger. */
  datatype Auth = Auth(files: Files, sys: Sys)

  /** Every file that the acknowledged events name is there, and every file an adopted event would name. */
  predicate Backs(r: Rules, files: Files, history: seq<Event>, tail: Tail<Event>) {
    && AllBacked(r, files, CurrentOf(history))
    && (tail.Piece? ==> AllBacked(r, files, Recorded(CurrentOf(history), tail.record.draft)))
  }

  predicate Durable(k: Keys, r: Rules, a: Auth) {
    Sound(k, a.sys) && Backs(r, a.files, a.sys.history, a.sys.eventTail)
  }

  /** What an opening recovers is backed. */
  lemma RecoveredIsBacked(k: Keys, r: Rules, a: Auth)
    requires Backs(r, a.files, a.sys.history, a.sys.eventTail)
    ensures AllBacked(r, a.files, CurrentOf(RecoveredEvents(k, a.sys)))
  {
    if a.sys.eventTail.Piece? {
      CurrentAppend(a.sys.history, a.sys.eventTail.record);
    }
  }

  // ----- Steps -----

  /** How writing the new file ends; after an error or a power cut it may be there or not. */
  datatype WriteEnd = Written | WriteFails(there: bool) | WriteDies(there: bool)

  /** A grant: the signed bytes, the event's draft, how each step ends, and the files whose removal works. */
  datatype Grant = Grant(
    subject: Subject, bytes: seq<byte>, draft: EventDraft, stamp: Stamp, write: WriteEnd, log: Ending,
    removed: set<File>)

  datatype Deed =
    | Granting(g: Grant)
    | Other(a: Action)

  function FileWritten(r: Rules, files: Files, g: Grant): Files
    requires StemOf(r.directory, g.subject).Some?
  {
    if g.write.Written? || g.write.there then files[NewFile(r, g.subject, g.bytes) := g.bytes] else files
  }

  function Pruned(r: Rules, files: Files, g: Grant): Files
    requires StemOf(r.directory, g.subject).Some?
  {
    var stem := StemOf(r.directory, g.subject).value;
    files - (set f | f in g.removed && Superseded(stem, FileFor(stem, r.h(g.bytes)), f))
  }

  /** Whether the append of a grant is acknowledged. */
  predicate Acknowledged(s: Sys, end: Ending) {
    s.mem.Some? && !s.mem.value.poisoned && end.Written?
  }

  function GrantStep(k: Keys, r: Rules, a: Auth, g: Grant): Auth
    requires StemOf(r.directory, g.subject).Some?
  {
    var files := FileWritten(r, a.files, g);
    if g.write.WriteDies? then Auth(files, a.sys.(mem := None))
    else if g.write.WriteFails? then Auth(files, a.sys)
    else
      var sys := Step(k, a.sys, Append(g.draft, g.stamp, g.log));
      Auth(if Acknowledged(a.sys, g.log) then Pruned(r, files, g) else files, sys)
  }

  function DeedStep(k: Keys, r: Rules, a: Auth, d: Deed): Auth
    requires d.Granting? ==> StemOf(r.directory, d.g.subject).Some?
  {
    match d
    case Granting(g) => GrantStep(k, r, a, g)
    case Other(x) => Auth(a.files, Step(k, a.sys, x))
  }

  /** The draft of the OVERRIDE event for these bytes. */
  predicate IsOverride(d: EventDraft, s: Subject, digest: Digest) {
    d.kind.Override? && d.subject == Some(s) && d.evidence == [digest] && d.newState.None?
  }

  /**
   No name of a file that is current, or may be adopted as current, is taken, and no other subject shares the stem.
   */
  predicate Clear(r: Rules, current: Current, g: Grant) {
    !Overwrites(current, g.subject, r.h(g.bytes)) && Alone(r, current, g.subject)
  }

  predicate ProperGrant(k: Keys, r: Rules, a: Auth, g: Grant) {
    && StemOf(r.directory, g.subject).Some? && r.subjectOf(g.bytes) == Some(g.subject)
    && IsOverride(g.draft, g.subject, r.h(g.bytes))
    && Legal(k, a.sys, Append(g.draft, g.stamp, g.log))
    && Clear(r, CurrentOf(a.sys.history), g)
    && (a.sys.eventTail.Piece? ==> Clear(r, Recorded(CurrentOf(a.sys.history), a.sys.eventTail.record.draft), g))
  }

  predicate ProperDeed(k: Keys, r: Rules, a: Auth, d: Deed) {
    match d
    case Granting(g) => ProperGrant(k, r, a, g)
    case Other(x) => Proper(k, a.sys, x) && (x.Append? ==> !Grants(x.draft))
  }

  // ----- Grants keep what is recorded -----

  lemma WrittenBacks(r: Rules, files: Files, history: seq<Event>, tail: Tail<Event>, g: Grant)
    requires Backs(r, files, history, tail)
    requires StemOf(r.directory, g.subject).Some? && r.subjectOf(g.bytes) == Some(g.subject)
    requires Clear(r, CurrentOf(history), g)
    requires tail.Piece? ==> Clear(r, Recorded(CurrentOf(history), tail.record.draft), g)
    ensures Backs(r, FileWritten(r, files, g), history, tail)
    ensures g.write.Written? ==> Backed(r, FileWritten(r, files, g), g.subject, r.h(g.bytes))
  {
    WriteKeepsBackedIff(r, files, CurrentOf(history), g.subject, g.bytes);
    if tail.Piece? {
      WriteKeepsBackedIff(r, files, Recorded(CurrentOf(history), tail.record.draft), g.subject, g.bytes);
    }
  }

  /** Recording a digest whose file is there keeps everything backed. */
  lemma RecordedBacks(r: Rules, files: Files, current: Current, d: EventDraft, s: Subject, digest: Digest)
    requires AllBacked(r, files, current) && Backed(r, files, s, digest) && IsOverride(d, s, digest)
    ensures AllBacked(r, files, Recorded(current, d)) && Recorded(current, d) == current[s := digest]
  {
  }

  lemma LoggedBacks(r: Rules, files: Files, history: seq<Event>, e: Event, s: Subject, digest: Digest,
                    frame: seq<byte>, end: Ending)
    requires AllBacked(r, files, CurrentOf(history)) && Backed(r, files, s, digest) && IsOverride(e.draft, s, digest)
    ensures Backs(r, files, if end.Written? then history + [e] else history, TailAfter(e, frame, end))
  {
    RecordedBacks(r, files, CurrentOf(history), e.draft, s, digest);
    CurrentAppend(history, e);
  }

  lemma PrunedBacks(r: Rules, files: Files, current: Current, g: Grant)
    requires AllBacked(r, files, current) && StemOf(r.directory, g.subject).Some? && Alone(r, current, g.subject)
    requires g.subject in current && current[g.subject] == r.h(g.bytes)
    ensures AllBacked(r, Pruned(r, files, g), current)
  {
    RemovalKeepsBacked(r, files, Pruned(r, files, g), current, g.subject);
  }

  lemma StillAlone(r: Rules, current: Current, s: Subject, d: Digest)
    requires Alone(r, current, s)
    ensures Alone(r, current[s := d], s)
  {
  }

  /** The ledger side of a grant. */
  lemma GrantLogs(k: Keys, r: Rules, files: Files, s: Sys, g: Grant)
    requires Backs(r, files, s.history, s.eventTail) && StemOf(r.directory, g.subject).Some?
    requires Backed(r, files, g.subject, r.h(g.bytes)) && IsOverride(g.draft, g.subject, r.h(g.bytes))
    ensures var t := Step(k, s, Append(g.draft, g.stamp, g.log));
            && Backs(r, files, t.history, t.eventTail)
            && (Acknowledged(s, g.log) ==>
                  t.eventTail.Clean? && CurrentOf(t.history) == CurrentOf(s.history)[g.subject := r.h(g.bytes)])
  {
    if s.mem.Some? && !s.mem.value.poisoned {
      var e := NextEvent(s.mem.value, g.draft, g.stamp);
      var frame := Framing.Frame(k.h, k.signEvent(e));
      LoggedBacks(r, files, s.history, e, g.subject, r.h(g.bytes), frame, g.log);
      CurrentAppend(s.history, e);
    }
  }

  lemma GrantBacks(k: Keys, r: Rules, a: Auth, g: Grant)
    requires Backs(r, a.files, a.sys.history, a.sys.eventTail) && ProperGrant(k, r, a, g)
    ensures var b := GrantStep(k, r, a, g);
            Backs(r, b.files, b.sys.history, b.sys.eventTail)
  {
    WrittenBacks(r, a.files, a.sys.history, a.sys.eventTail, g);
    if g.write.Written? {
      var files := FileWritten(r, a.files, g);
      GrantLogs(k, r, files, a.sys, g);
      if Acknowledged(a.sys, g.log) {
        var t := Step(k, a.sys, Append(g.draft, g.stamp, g.log));
        StillAlone(r, CurrentOf(a.sys.history), g.subject, r.h(g.bytes));
        PrunedBacks(r, files, CurrentOf(t.history), g);
      }
    }
  }

  lemma GrantSound(k: Keys, r: Rules, a: Auth, g: Grant)
    requires Sound(k, a.sys) && ProperGrant(k, r, a, g)
    ensures Sound(k, GrantStep(k, r, a, g).sys)
  {
    if g.write.Written? {
      SoundStep(k, a.sys, Append(g.draft, g.stamp, g.log));
    } else if g.write.WriteDies? {
      SoundStep(k, a.sys, Crash);
    }
  }

  /** However a grant ends, every file that the ledger names, or may name once reopened, is there. */
  lemma GrantKeeps(k: Keys, r: Rules, a: Auth, g: Grant)
    requires Durable(k, r, a) && ProperGrant(k, r, a, g)
    ensures Durable(k, r, GrantStep(k, r, a, g))
  {
    GrantBacks(k, r, a, g);
    GrantSound(k, r, a, g);
  }

  // ----- Whatever else happens -----

  lemma OtherAppendBacks(k: Keys, r: Rules, files: Files, s: Sys, x: Action)
    requires Backs(r, files, s.history, s.eventTail) && x.Append? && !Grants(x.draft)
    ensures Backs(r, files, Step(k, s, x).history, Step(k, s, x).eventTail)
  {
    if s.mem.Some? && !s.mem.value.poisoned {
      CurrentAppend(s.history, NextEvent(s.mem.value, x.draft, x.stamp));
    }
  }

  lemma OpenBacks(k: Keys, r: Rules, a: Auth)
    requires Durable(k, r, a)
    ensures Backs(r, a.files, OpenStep(k, a.sys).history, OpenStep(k, a.sys).eventTail)
  {
    OpenRecovers(k, a.sys);
    RecoveredIsBacked(k, r, a);
  }

  lemma CutBacks(r: Rules, files: Files, s: Sys, o: Sys)
    requires Backs(r, files, s.history, s.eventTail)
    ensures Backs(r, files, CutAfterTrim(s, o).history, CutAfterTrim(s, o).eventTail)
  {
  }

  lemma OtherBacks(k: Keys, r: Rules, a: Auth, x: Action)
    requires Durable(k, r, a) && (x.Append? ==> !Grants(x.draft))
    ensures Backs(r, a.files, Step(k, a.sys, x).history, Step(k, a.sys, x).eventTail)
  {
    match x
    case Append(_, _, _) => OtherAppendBacks(k, r, a.files, a.sys, x);
    case Commit(_, _) =>
    case Crash =>
    case Open => OpenBacks(k, r, a);
    case OpenCut => CutBacks(r, a.files, a.sys, OpenStep(k, a.sys));
  }

  lemma DeedKeeps(k: Keys, r: Rules, a: Auth, d: Deed)
    requires Durable(k, r, a) && ProperDeed(k, r, a, d)
    ensures Durable(k, r, DeedStep(k, r, a, d))
  {
    match d
    case Granting(g) => GrantKeeps(k, r, a, g);
    case Other(x) =>
      OtherBacks(k, r, a, x);
      SoundStep(k, a.sys, x);
  }

  // ----- Runs -----

  predicate ProperDeeds(k: Keys, r: Rules, a: Auth, deeds: seq<Deed>)
    decreases |deeds|
  {
    deeds == [] || (ProperDeed(k, r, a, deeds[0]) && ProperDeeds(k, r, DeedStep(k, r, a, deeds[0]), deeds[1..]))
  }

  function RunDeeds(k: Keys, r: Rules, a: Auth, deeds: seq<Deed>): Auth
    requires ProperDeeds(k, r, a, deeds)
    decreases |deeds|
  {
    if deeds == [] then a else RunDeeds(k, r, DeedStep(k, r, a, deeds[0]), deeds[1..])
  }

  lemma {:induction false} DeedsKeep(k: Keys, r: Rules, a: Auth, deeds: seq<Deed>)
    requires Durable(k, r, a) && ProperDeeds(k, r, a, deeds)
    ensures Durable(k, r, RunDeeds(k, r, a, deeds))
    decreases |deeds|
  {
    if deeds != [] {
      DeedKeeps(k, r, a, deeds[0]);
      DeedsKeep(k, r, DeedStep(k, r, a, deeds[0]), deeds[1..]);
    }
  }

  lemma NothingGranted(k: Keys, r: Rules, genesis: Event)
    requires Follows(k, [], genesis) && genesis.draft.newState.None? && genesis.draft.kind.Genesis?
    ensures Durable(k, r, Auth(map[], Created(k, genesis)))
  {
    SoundCreated(k, genesis);
    CurrentAppend([], genesis);
    assert [] + [genesis] == [genesis];
  }

  /**
   From a created ledger and an empty directory, after any run of grants that fail or die anywhere, of other appends,
   checkpoints, crashes and reopenings: the next opening recovers the ledger, and the file whose digest is the
   evidence of the latest OVERRIDE event for a subject is there, for every subject.
   */
  lemma AuthoritySurvives(k: Keys, r: Rules, genesis: Event, deeds: seq<Deed>, s: Subject, i: nat)
    requires Follows(k, [], genesis) && genesis.draft.newState.None? && genesis.draft.kind.Genesis?
    requires ProperDeeds(k, r, Auth(map[], Created(k, genesis)), deeds)
    requires var a := RunDeeds(k, r, Auth(map[], Created(k, genesis)), deeds);
             Latest(OpenStep(k, a.sys).history, i, s) && StemOf(r.directory, s).Some?
    ensures var a := RunDeeds(k, r, Auth(map[], Created(k, genesis)), deeds);
            var t := OpenStep(k, a.sys);
            && t.mem.Some? && t.history == RecoveredEvents(k, a.sys) && i < |t.history|
            && t.history[i].draft.evidence != [] && Backed(r, a.files, s, t.history[i].draft.evidence[0])
  {
    NothingGranted(k, r, genesis);
    DeedsKeep(k, r, Auth(map[], Created(k, genesis)), deeds);
    var a := RunDeeds(k, r, Auth(map[], Created(k, genesis)), deeds);
    OpenRecovers(k, a.sys);
    RecoveredIsBacked(k, r, a);
    CurrentIsLatest(RecoveredEvents(k, a.sys), s);
  }

  /** A grant that is not logged and whose digest clashes with the current one costs the subject its current file. */
  lemma ClashLosesFile(k: Keys, r: Rules, a: Auth, g: Grant)
    requires StemOf(r.directory, g.subject).Some? && Overwrites(CurrentOf(a.sys.history), g.subject, r.h(g.bytes))
    requires g.write.Written? && g.log.RolledBack?
    ensures var b := GrantStep(k, r, a, g);
            && CurrentOf(b.sys.history) == CurrentOf(a.sys.history)
            && !Backed(r, b.files, g.subject, CurrentOf(b.sys.history)[g.subject])
  {
    WriteLosesFile(r, a.files, CurrentOf(a.sys.history), g.subject, g.bytes);
  }
}
