/**
 The ledger over time: a writer that appends events and checkpoints, whose writes can fail part-way, be rolled back or
 leave bytes behind, and that can crash and reopen at any point.
 */
module LedgerRuns {
  import opened Wrappers
  import opened Hashing
  import opened Merkle
  import opened Framing
  import opened Model
  import opened Replay
  import opened Honest

  /** The in-memory fields of an open ledger. */
  datatype Mem = Mem(leaves: seq<Digest>, lastEnv: Digest, nextSeq: nat, counter: nat, lastCheckpointSize: nat,
                     poisoned: bool)

  /** How writing one frame ends. `n` bytes of it remain in the file in the last two cases. */
  datatype Ending =
    | Written
    | RolledBack                 // the write or the sync failed and the file was cut back
    | LeftBehind(n: nat)         // ... and could not be cut back
    | CutShort(n: nat)           // the process died

  function Kept(frame: seq<byte>, end: Ending): (left: seq<byte>)
    ensures left <= frame
  {
    match end
    case Written => frame
    case RolledBack => []
    case LeftBehind(n) => frame[..if n < |frame| then n else |frame|]
    case CutShort(n) => frame[..if n < |frame| then n else |frame|]
  }

  /** Bytes at the end of a log that were never acknowledged: a piece of the frame of a record. */
  datatype Tail<T> = Clean | Piece(record: T, n: nat)

  /**
   Both logs, the open ledger if there is one, and a history that no code sees: the events and checkpoints whose
   append returned, or which an open returned, and where the unacknowledged bytes come from.
   */
  datatype Sys = Sys(
    events: seq<byte>,
    checkpoints: seq<byte>,
    mem: Option<Mem>,
    history: seq<Event>,
    committed: seq<Checkpoint>,
    eventTail: Tail<Event>,
    checkpointTail: Tail<Checkpoint>)

  function NextEvent(m: Mem, draft: EventDraft, stamp: Stamp): Event {
    Event(m.nextSeq, stamp, draft, m.lastEnv)
  }

  function NextCheckpoint(k: Keys, m: Mem, stamp: Stamp): Checkpoint {
    Checkpoint(Origin(k.node), |m.leaves|, RootOf(k.h, m.leaves), stamp.bootId, stamp.wallTime, m.counter + 1, Software)
  }

  /** The ledger after a write that ended this way; `done` is the ledger with the write acknowledged. */
  function MemAfter(m: Mem, done: Mem, end: Ending): Option<Mem> {
    match end
    case Written => Some(done)
    case RolledBack => Some(m)
    case LeftBehind(_) => Some(m.(poisoned := true))
    case CutShort(_) => None
  }

  function TailAfter<T>(record: T, frame: seq<byte>, end: Ending): Tail<T> {
    if end.Written? || end.RolledBack? then Clean else Piece(record, |Kept(frame, end)|)
  }

  function Appended(k: Keys, m: Mem, ev: Event): Mem {
    var env := k.signEvent(ev);
    m.(leaves := m.leaves + [LeafHash(k.h, env)], lastEnv := k.h(env), nextSeq := m.nextSeq + 1)
  }

  function AppendStep(k: Keys, s: Sys, m: Mem, ev: Event, end: Ending): Sys {
    var frame := Frame(k.h, k.signEvent(ev));
    s.(events := s.events + Kept(frame, end),
       mem := MemAfter(m, Appended(k, m, ev), end),
       history := if end.Written? then s.history + [ev] else s.history,
       eventTail := TailAfter(ev, frame, end))
  }

  function CommitStep(k: Keys, s: Sys, m: Mem, cp: Checkpoint, end: Ending): Sys {
    var frame := Frame(k.h, k.signCheckpoint(cp));
    s.(checkpoints := s.checkpoints + Kept(frame, end),
       mem := MemAfter(m, m.(counter := cp.counter, lastCheckpointSize := cp.size), end),
       committed := if end.Written? then s.committed + [cp] else s.committed,
       checkpointTail := TailAfter(cp, frame, end))
  }

  function LastCounter(cps: seq<Checkpoint>): nat {
    if cps == [] then 0 else cps[|cps| - 1].counter
  }

  function LastSize(cps: seq<Checkpoint>): nat {
    if cps == [] then 0 else cps[|cps| - 1].size
  }

  /** The ledger that opening yields. */
  function Reopened(k: Keys, r: Replayed): Mem {
    Mem(Leaves(k.h, r.frames), r.lastEnv, |r.events|, LastCounter(r.checkpoints), LastSize(r.checkpoints), false)
  }

  lemma ReplayBounds(k: Keys, cpData: seq<byte>, eventData: seq<byte>, full: bool)
    requires ReplayLogs(k, cpData, eventData, full).Ok?
    ensures var r := ReplayLogs(k, cpData, eventData, full).value;
            r.covered + r.torn == |eventData| && r.cpCovered + r.cpTorn == |cpData|
  {
    SplitConserves(k.h, eventData);
    SplitConserves(k.h, cpData);
  }

  /** The first `n` bytes of a log. */
  function Cut(data: seq<byte>, n: nat): seq<byte> {
    if n <= |data| then data[..n] else data
  }

  /** What opening makes of a replay: incomplete tails are cut off, and the ledger starts from what was replayed. */
  function Opened(k: Keys, s: Sys, r: Result<Replayed, LedgerError>): Sys {
    if r.Err? || r.value.events == [] then s.(mem := None)
    else
      Sys(Cut(s.events, r.value.covered), Cut(s.checkpoints, r.value.cpCovered), Some(Reopened(k, r.value)),
          r.value.events, r.value.checkpoints, Clean, Clean)
  }

  /** Opening replays fast. */
  function OpenStep(k: Keys, s: Sys): Sys {
    Opened(k, s, ReplayLogs(k, s.checkpoints, s.events, false))
  }

  /** What an opening that would have led to `o` leaves when it dies after trimming the event log. */
  function CutAfterTrim(s: Sys, o: Sys): Sys {
    if o.mem.None? then s.(mem := None)
    else if o.history == s.history then s.(events := o.events, mem := None, eventTail := Clean)
    else s.(events := o.events, mem := None)
  }

  function OpenCutStep(k: Keys, s: Sys): Sys {
    CutAfterTrim(s, OpenStep(k, s))
  }

  datatype Action =
    | Append(draft: EventDraft, stamp: Stamp, end: Ending)
    | Commit(stamp: Stamp, end: Ending)
    | Crash
    | Open
    | OpenCut

  function Step(k: Keys, s: Sys, a: Action): Sys {
    match a
    case Append(draft, stamp, end) =>
      if s.mem.None? || s.mem.value.poisoned then s
      else AppendStep(k, s, s.mem.value, NextEvent(s.mem.value, draft, stamp), end)
    case Commit(stamp, end) =>
      if s.mem.None? || s.mem.value.poisoned then s
      else CommitStep(k, s, s.mem.value, NextCheckpoint(k, s.mem.value, stamp), end)
    case Crash => s.(mem := None)
    case Open => OpenStep(k, s)
    case OpenCut => OpenCutStep(k, s)
  }

  /** What the writer's callers and its envelopes provide: only `create` drafts GENESIS, and envelopes fit a frame. */
  predicate Legal(k: Keys, s: Sys, a: Action) {
    s.mem.Some? ==>
      match a
      case Append(draft, stamp, _) => draft.kind != Genesis && CanWrite(k, NextEvent(s.mem.value, draft, stamp))
      case Commit(stamp, _) => CanCommit(k, NextCheckpoint(k, s.mem.value, stamp))
      case _ => true
  }

  // ----- The invariant -----

  function TailBytes(frame: seq<byte>, n: nat): seq<byte> {
    frame[..if n < |frame| then n else |frame|]
  }

  /** The log holds the acknowledged frames and then, at most, a piece of one more. */
  predicate EventLog(k: Keys, data: seq<byte>, es: seq<Event>, tail: Tail<Event>) {
    && (tail.Piece? ==> Follows(k, es, tail.record))
    && data == Frames(k.h, Envs(k, es)) +
               if tail.Clean? then [] else TailBytes(Frame(k.h, k.signEvent(tail.record)), tail.n)
  }

  predicate CheckpointLog(k: Keys, data: seq<byte>, es: seq<Event>, cps: seq<Checkpoint>, tail: Tail<Checkpoint>) {
    && (tail.Piece? ==> Commits(k, es, cps, tail.record))
    && data == Frames(k.h, CpEnvs(k, cps)) +
               if tail.Clean? then [] else TailBytes(Frame(k.h, k.signCheckpoint(tail.record)), tail.n)
  }

  /** The open ledger knows what the logs hold. */
  predicate Knows(k: Keys, m: Mem, es: seq<Event>, cps: seq<Checkpoint>) {
    && m.leaves == EventLeaves(k, es)
    && m.lastEnv == Replay.Head(k.h, Envs(k, es))
    && m.nextSeq == |es|
    && m.counter == LastCounter(cps)
    && m.lastCheckpointSize == LastSize(cps)
  }

  predicate Inv(k: Keys, s: Sys) {
    && s.history != []
    && Chain(k, s.history)
    && AllCommit(k, s.history, s.committed)
    && EventLog(k, s.events, s.history, s.eventTail)
    && CheckpointLog(k, s.checkpoints, s.history, s.committed, s.checkpointTail)
    && (s.mem.Some? ==> Knows(k, s.mem.value, s.history, s.committed))
    && (s.mem.Some? && !s.mem.value.poisoned ==> s.eventTail.Clean? && s.checkpointTail.Clean?)
  }

  // ----- Recovery -----

  /** A tail that holds the whole frame of its record. */
  predicate WholePiece<T>(t: Tail<T>, frame: seq<byte>) {
    t.Piece? && t.n >= |frame|
  }

  /** The acknowledged events, and an unacknowledged one that was written whole. */
  function RecoveredEvents(k: Keys, s: Sys): seq<Event> {
    if s.eventTail.Piece? && WholePiece(s.eventTail, Frame(k.h, k.signEvent(s.eventTail.record)))
    then s.history + [s.eventTail.record] else s.history
  }

  function RecoveredCheckpoints(k: Keys, s: Sys): seq<Checkpoint> {
    if s.checkpointTail.Piece? && WholePiece(s.checkpointTail, Frame(k.h, k.signCheckpoint(s.checkpointTail.record)))
    then s.committed + [s.checkpointTail.record] else s.committed
  }

  /** A log with a piece of one more frame is honest: the piece is that whole frame, or torn. */
  lemma PieceIsHonest(h: Sha, envs: seq<seq<byte>>, next: seq<byte>, n: nat)
    requires Framable(next)
    ensures var data := Frames(h, envs) + TailBytes(Frame(h, next), n);
            HonestLog(h, if n >= |Frame(h, next)| then envs + [next] else envs, data)
  {
    var frame := Frame(h, next);
    var data := Frames(h, envs) + TailBytes(frame, n);
    if n >= |frame| {
      FramesAppend(h, envs, next);
      assert data == Frames(h, envs + [next]) && data[|Frames(h, envs + [next])|..] == [];
    } else {
      FrontOfTorn(h, next, n);
      assert data[|Frames(h, envs)|..] == frame[..n];
    }
  }

  lemma CleanIsHonest(h: Sha, envs: seq<seq<byte>>)
    ensures HonestLog(h, envs, Frames(h, envs) + [])
  {
    assert (Frames(h, envs) + [])[|Frames(h, envs)|..] == [];
  }

  lemma EventLogHonest(k: Keys, s: Sys)
    requires Inv(k, s)
    ensures Chain(k, RecoveredEvents(k, s))
    ensures HonestLog(k.h, Envs(k, RecoveredEvents(k, s)), s.events)
  {
    if s.eventTail.Piece? {
      var e := s.eventTail.record;
      PieceIsHonest(k.h, Envs(k, s.history), k.signEvent(e), s.eventTail.n);
      EnvsAppend(k, s.history, e);
      ChainAppend(k, s.history, e);
    } else {
      CleanIsHonest(k.h, Envs(k, s.history));
    }
  }

  lemma CheckpointLogHonest(k: Keys, s: Sys)
    requires Inv(k, s)
    ensures AllCommit(k, s.history, RecoveredCheckpoints(k, s))
    ensures HonestLog(k.h, CpEnvs(k, RecoveredCheckpoints(k, s)), s.checkpoints)
  {
    if s.checkpointTail.Piece? {
      var cp := s.checkpointTail.record;
      PieceIsHonest(k.h, CpEnvs(k, s.committed), k.signCheckpoint(cp), s.checkpointTail.n);
      CpEnvsAppend(k, s.committed, cp);
      AllCommitAppend(k, s.history, s.committed, cp);
    } else {
      CleanIsHonest(k.h, CpEnvs(k, s.committed));
    }
  }

  /** Replaying a reachable state yields exactly the acknowledged records and what was written whole after them. */
  lemma ReplayRecovers(k: Keys, s: Sys, full: bool)
    requires Inv(k, s)
    ensures var es, cps := RecoveredEvents(k, s), RecoveredCheckpoints(k, s);
            && HonestLogs(k, es, cps, s.events, s.checkpoints)
            && ReplayLogs(k, s.checkpoints, s.events, full) == Ok(HonestReplay(k, es, cps, s.events, s.checkpoints))
  {
    var es, cps := RecoveredEvents(k, s), RecoveredCheckpoints(k, s);
    EventLogHonest(k, s);
    CheckpointLogHonest(k, s);
    AllCommitExtend(k, s.history, es, cps);
    ReplayHonest(k, es, cps, s.events, s.checkpoints, full);
  }

  // ----- Every step keeps the invariant -----

  lemma NextEventFollows(k: Keys, s: Sys, draft: EventDraft, stamp: Stamp)
    requires Inv(k, s) && s.mem.Some? && Legal(k, s, Append(draft, stamp, Written))
    ensures Follows(k, s.history, NextEvent(s.mem.value, draft, stamp))
  {
  }

  lemma LastCommits(k: Keys, es: seq<Event>, cps: seq<Checkpoint>)
    requires AllCommit(k, es, cps)
    ensures LastSize(cps) <= |es|
  {
    if cps != [] {
      assert Commits(k, es, cps[..|cps| - 1], cps[|cps| - 1]);
    }
  }

  /** A checkpoint over all events, with a new counter, follows the ones there are. */
  lemma WholeCommits(k: Keys, es: seq<Event>, cps: seq<Checkpoint>, cp: Checkpoint)
    requires CanCommit(k, cp) && LastSize(cps) <= |es| && cp.origin == Origin(k.node) && cp.size == |es|
    requires cp.root == RootOf(k.h, EventLeaves(k, es)) && cp.counter == LastCounter(cps) + 1
    ensures Commits(k, es, cps, cp)
  {
    var leaves := EventLeaves(k, es);
    assert leaves[..|leaves|] == leaves;
  }

  lemma NextCheckpointCommits(k: Keys, s: Sys, stamp: Stamp)
    requires Inv(k, s) && s.mem.Some? && Legal(k, s, Commit(stamp, Written))
    ensures Commits(k, s.history, s.committed, NextCheckpoint(k, s.mem.value, stamp))
  {
    LastCommits(k, s.history, s.committed);
    WholeCommits(k, s.history, s.committed, NextCheckpoint(k, s.mem.value, stamp));
  }

  /** The next event carries what its caller gave, after the last event in the chain. */
  lemma NextEventIs(k: Keys, s: Sys, draft: EventDraft, stamp: Stamp)
    requires Inv(k, s) && s.mem.Some?
    ensures var e := NextEvent(s.mem.value, draft, stamp);
            && e.draft == draft && e.stamp == stamp && e.seqno == |s.history|
            && e.prev == k.h(k.signEvent(s.history[|s.history| - 1]))
  {
  }

  lemma AppendWritten(k: Keys, s: Sys, m: Mem, ev: Event)
    requires Inv(k, s) && s.mem == Some(m) && !m.poisoned && Follows(k, s.history, ev)
    ensures Inv(k, AppendStep(k, s, m, ev, Written))
  {
    var t := AppendStep(k, s, m, ev, Written);
    ChainAppend(k, s.history, ev);
    AllCommitExtend(k, s.history, t.history, s.committed);
    EventLogGrows(k, s.events, s.history, ev);
    KnowsAppended(k, m, s.history, s.committed, ev);
  }

  lemma EventLogGrows(k: Keys, data: seq<byte>, es: seq<Event>, e: Event)
    requires EventLog(k, data, es, Clean)
    ensures EventLog(k, data + Frame(k.h, k.signEvent(e)), es + [e], Clean)
  {
    EnvsAppend(k, es, e);
    FramesAppend(k.h, Envs(k, es), k.signEvent(e));
    assert data == Frames(k.h, Envs(k, es));
  }

  lemma CheckpointLogGrows(k: Keys, data: seq<byte>, es: seq<Event>, cps: seq<Checkpoint>, cp: Checkpoint)
    requires CheckpointLog(k, data, es, cps, Clean)
    ensures CheckpointLog(k, data + Frame(k.h, k.signCheckpoint(cp)), es, cps + [cp], Clean)
  {
    CpEnvsAppend(k, cps, cp);
    FramesAppend(k.h, CpEnvs(k, cps), k.signCheckpoint(cp));
    assert data == Frames(k.h, CpEnvs(k, cps));
  }

  lemma KnowsAppended(k: Keys, m: Mem, es: seq<Event>, cps: seq<Checkpoint>, e: Event)
    requires Knows(k, m, es, cps)
    ensures Knows(k, Appended(k, m, e), es + [e], cps)
  {
    EnvsAppend(k, es, e);
    LeavesAppend(k.h, Envs(k, es), k.signEvent(e));
  }

  lemma LeavesAppend(h: Sha, frames: seq<seq<byte>>, frame: seq<byte>)
    ensures Leaves(h, frames + [frame]) == Leaves(h, frames) + [LeafHash(h, frame)]
  {
  }

  lemma AppendFailed(k: Keys, s: Sys, m: Mem, ev: Event, end: Ending)
    requires Inv(k, s) && s.mem == Some(m) && !m.poisoned && Follows(k, s.history, ev) && !end.Written?
    ensures Inv(k, AppendStep(k, s, m, ev, end))
  {
    var t := AppendStep(k, s, m, ev, end);
    var frame := Frame(k.h, k.signEvent(ev));
    if end.RolledBack? {
      assert t == s.(events := s.events + []);
    } else {
      assert TailBytes(frame, |Kept(frame, end)|) == Kept(frame, end);
      assert s.events == Frames(k.h, Envs(k, s.history));
    }
  }

  lemma CommitWritten(k: Keys, s: Sys, m: Mem, cp: Checkpoint)
    requires Inv(k, s) && s.mem == Some(m) && !m.poisoned && Commits(k, s.history, s.committed, cp)
    ensures Inv(k, CommitStep(k, s, m, cp, Written))
  {
    var t := CommitStep(k, s, m, cp, Written);
    AllCommitAppend(k, s.history, s.committed, cp);
    CheckpointLogGrows(k, s.checkpoints, s.history, s.committed, cp);
  }

  lemma CommitFailed(k: Keys, s: Sys, m: Mem, cp: Checkpoint, end: Ending)
    requires Inv(k, s) && s.mem == Some(m) && !m.poisoned && Commits(k, s.history, s.committed, cp) && !end.Written?
    ensures Inv(k, CommitStep(k, s, m, cp, end))
  {
    var t := CommitStep(k, s, m, cp, end);
    var frame := Frame(k.h, k.signCheckpoint(cp));
    if end.RolledBack? {
      assert t == s.(checkpoints := s.checkpoints + []);
    } else {
      assert TailBytes(frame, |Kept(frame, end)|) == Kept(frame, end);
      assert s.checkpoints == Frames(k.h, CpEnvs(k, s.committed));
    }
  }

  lemma CutHonest(h: Sha, envs: seq<seq<byte>>, data: seq<byte>)
    requires HonestLog(h, envs, data)
    ensures Cut(data, |Frames(h, envs)|) == Frames(h, envs)
  {
  }

  lemma WrittenEvents(k: Keys, es: seq<Event>)
    ensures EventLog(k, Frames(k.h, Envs(k, es)), es, Clean)
  {
    assert Frames(k.h, Envs(k, es)) + [] == Frames(k.h, Envs(k, es));
  }

  lemma WrittenCheckpoints(k: Keys, es: seq<Event>, cps: seq<Checkpoint>)
    ensures CheckpointLog(k, Frames(k.h, CpEnvs(k, cps)), es, cps, Clean)
  {
    assert Frames(k.h, CpEnvs(k, cps)) + [] == Frames(k.h, CpEnvs(k, cps));
  }

  /** What an honest replay yields is what the writer knew. */
  lemma ReopenedKnows(k: Keys, es: seq<Event>, cps: seq<Checkpoint>, eventData: seq<byte>, cpData: seq<byte>)
    requires HonestLogs(k, es, cps, eventData, cpData)
    ensures Knows(k, Reopened(k, HonestReplay(k, es, cps, eventData, cpData)), es, cps)
  {
  }

  lemma OpenedHonest(k: Keys, s: Sys, es: seq<Event>, cps: seq<Checkpoint>)
    requires HonestLogs(k, es, cps, s.events, s.checkpoints) && es != []
    ensures var t := Opened(k, s, Ok(HonestReplay(k, es, cps, s.events, s.checkpoints)));
            t.mem.Some? && t.history == es && t.committed == cps && t.eventTail.Clean? && Inv(k, t)
  {
    CutHonest(k.h, Envs(k, es), s.events);
    CutHonest(k.h, CpEnvs(k, cps), s.checkpoints);
    WrittenEvents(k, es);
    WrittenCheckpoints(k, es, cps);
    ReopenedKnows(k, es, cps, s.events, s.checkpoints);
  }

  /** Opening a reachable state succeeds, and starts from exactly what was recovered. */
  lemma OpenRecovers(k: Keys, s: Sys)
    requires Inv(k, s)
    ensures var t := OpenStep(k, s);
            && t.mem.Some? && t.history == RecoveredEvents(k, s) && t.committed == RecoveredCheckpoints(k, s)
            && t.eventTail.Clean? && Inv(k, t)
  {
    ReplayRecovers(k, s, false);
    OpenedHonest(k, s, RecoveredEvents(k, s), RecoveredCheckpoints(k, s));
  }

  lemma CutAfterTrimKeeps(k: Keys, s: Sys, o: Sys)
    requires Inv(k, s) && Inv(k, o) && o.mem.Some? && o.eventTail.Clean? && o.history == RecoveredEvents(k, s)
    ensures Inv(k, CutAfterTrim(s, o))
  {
    if o.history != s.history {
      WholeEventLog(k, o.events, s.history, s.eventTail);
    }
  }

  lemma OpenCutKeeps(k: Keys, s: Sys)
    requires Inv(k, s)
    ensures Inv(k, OpenCutStep(k, s))
  {
    OpenRecovers(k, s);
    CutAfterTrimKeeps(k, s, OpenStep(k, s));
  }

  /** Trimming a log whose tail is a whole frame leaves it as it is. */
  lemma WholeEventLog(k: Keys, data: seq<byte>, es: seq<Event>, tail: Tail<Event>)
    requires tail.Piece? && Follows(k, es, tail.record) && tail.n >= |Frame(k.h, k.signEvent(tail.record))|
    requires EventLog(k, data, es + [tail.record], Clean)
    ensures EventLog(k, data, es, tail)
  {
    EnvsAppend(k, es, tail.record);
    FramesAppend(k.h, Envs(k, es), k.signEvent(tail.record));
    assert data == Frames(k.h, Envs(k, es + [tail.record]));
  }

  lemma AppendKeeps(k: Keys, s: Sys, m: Mem, draft: EventDraft, stamp: Stamp, end: Ending)
    requires Inv(k, s) && s.mem == Some(m) && !m.poisoned && Legal(k, s, Append(draft, stamp, end))
    ensures Inv(k, AppendStep(k, s, m, NextEvent(m, draft, stamp), end))
  {
    NextEventFollows(k, s, draft, stamp);
    if end.Written? {
      AppendWritten(k, s, m, NextEvent(m, draft, stamp));
    } else {
      AppendFailed(k, s, m, NextEvent(m, draft, stamp), end);
    }
  }

  lemma CommitKeeps(k: Keys, s: Sys, m: Mem, stamp: Stamp, end: Ending)
    requires Inv(k, s) && s.mem == Some(m) && !m.poisoned && Legal(k, s, Commit(stamp, end))
    ensures Inv(k, CommitStep(k, s, m, NextCheckpoint(k, m, stamp), end))
  {
    NextCheckpointCommits(k, s, stamp);
    if end.Written? {
      CommitWritten(k, s, m, NextCheckpoint(k, m, stamp));
    } else {
      CommitFailed(k, s, m, NextCheckpoint(k, m, stamp), end);
    }
  }

  lemma StepKeeps(k: Keys, s: Sys, a: Action)
    requires Inv(k, s) && Legal(k, s, a)
    ensures Inv(k, Step(k, s, a))
  {
    match a
    case Append(draft, stamp, end) =>
      if s.mem.Some? && !s.mem.value.poisoned {
        AppendKeeps(k, s, s.mem.value, draft, stamp, end);
      }
    case Commit(stamp, end) =>
      if s.mem.Some? && !s.mem.value.poisoned {
        CommitKeeps(k, s, s.mem.value, stamp, end);
      }
    case Crash =>
    case Open => OpenRecovers(k, s);
    case OpenCut => OpenCutKeeps(k, s);
  }

  /** The records acknowledged in `s` are acknowledged in `t`, in the same places. */
  predicate Grows(s: Sys, t: Sys) {
    s.history <= t.history && s.committed <= t.committed
  }

  lemma WriteGrows(k: Keys, s: Sys, a: Action)
    requires a.Append? || a.Commit?
    ensures Grows(s, Step(k, s, a))
  {
  }

  lemma OpenGrows(k: Keys, s: Sys)
    requires Inv(k, s)
    ensures Grows(s, OpenStep(k, s))
  {
    OpenRecovers(k, s);
  }

  lemma OpenCutGrows(s: Sys, o: Sys)
    ensures Grows(s, CutAfterTrim(s, o))
  {
  }

  /** Acknowledged records are never taken back. */
  lemma StepGrows(k: Keys, s: Sys, a: Action)
    requires Inv(k, s)
    ensures Grows(s, Step(k, s, a))
  {
    match a
    case Append(_, _, _) => WriteGrows(k, s, a);
    case Commit(_, _) => WriteGrows(k, s, a);
    case Crash =>
    case Open => OpenGrows(k, s);
    case OpenCut => OpenCutGrows(s, OpenStep(k, s));
  }

  // ----- Runs -----

  function RunFrom(k: Keys, s: Sys, actions: seq<Action>): Sys
    decreases |actions|
  {
    if actions == [] then s else RunFrom(k, Step(k, s, actions[0]), actions[1..])
  }

  predicate LegalRun(k: Keys, s: Sys, actions: seq<Action>)
    decreases |actions|
  {
    actions == [] || (Legal(k, s, actions[0]) && LegalRun(k, Step(k, s, actions[0]), actions[1..]))
  }

  /** A ledger just created: its only event is GENESIS. */
  function Created(k: Keys, genesis: Event): Sys {
    var env := k.signEvent(genesis);
    Sys(Frames(k.h, [env]), [], Some(Mem([LeafHash(k.h, env)], k.h(env), 1, 0, 0, false)), [genesis], [], Clean, Clean)
  }

  /** Two empty logs, opened by the creation of a ledger. */
  function Nothing(): Sys {
    Sys([], [], Some(Mem([], ZERO, 0, 0, 0, false)), [], [], Clean, Clean)
  }

  lemma CreateIsAppend(k: Keys, draft: EventDraft, stamp: Stamp)
    ensures Step(k, Nothing(), Append(draft, stamp, Written)) == Created(k, Event(0, stamp, draft, ZERO))
  {
    var genesis := Event(0, stamp, draft, ZERO);
    var env := k.signEvent(genesis);
    assert Frames(k.h, [env]) == Frame(k.h, env) + Frames(k.h, []);
    assert [] + Frame(k.h, env) == Frame(k.h, env) + [];
    assert [] + [LeafHash(k.h, env)] == [LeafHash(k.h, env)] && [] + [genesis] == [genesis];
  }

  /** Creating a ledger is refused when the event log has any bytes. */
  predicate CanCreate(events: seq<byte>) {
    events == []
  }

  predicate CanOpen(k: Keys, events: seq<byte>) {
    var r := ReplayLogs(k, [], events, false);
    r.Ok? && r.value.events != []
  }

  /**
   A creation cut short after `n` bytes can be repeated if and only if nothing was written, and its ledger can be
   opened if and only if the whole GENESIS frame was. In between, neither works until the torn file is removed.
   */
  lemma CreateCutShort(k: Keys, genesis: Event, n: nat)
    requires Follows(k, [], genesis)
    ensures var frame := Frame(k.h, k.signEvent(genesis));
            var left := Kept(frame, CutShort(n));
            && (CanCreate(left) <==> n == 0)
            && (CanOpen(k, left) <==> n >= |frame|)
  {
    var env := k.signEvent(genesis);
    var frame := Frame(k.h, env);
    if n < |frame| {
      TornGenesis(k, env, n);
    } else {
      WholeGenesis(k, genesis);
      assert frame[..|frame|] == frame;
    }
  }

  lemma TornGenesis(k: Keys, env: seq<byte>, n: nat)
    requires Framable(env) && n < |Frame(k.h, env)|
    ensures !CanOpen(k, Frame(k.h, env)[..n])
  {
    var data := Frame(k.h, env)[..n];
    FrontOfTorn(k.h, env, n);
    assert Envs(k, []) == [] && CpEnvs(k, []) == [] && data[0..] == data;
    ReplayHonest(k, [], [], data, [], false);
  }

  lemma WholeGenesis(k: Keys, genesis: Event)
    requires Follows(k, [], genesis)
    ensures CanOpen(k, Frame(k.h, k.signEvent(genesis)))
  {
    CreatedInv(k, genesis);
    ReplayRecovers(k, Created(k, genesis), false);
    var env := k.signEvent(genesis);
    assert Frames(k.h, [env]) == Frame(k.h, env) + [] == Frame(k.h, env);
  }

  lemma CreatedInv(k: Keys, genesis: Event)
    requires Follows(k, [], genesis)
    ensures Inv(k, Created(k, genesis))
  {
    var s := Created(k, genesis);
    assert s.history[..0] == [];
    assert Envs(k, s.history) == [k.signEvent(genesis)];
    assert s.events == s.events + [];
  }

  lemma {:induction false} RunKeeps(k: Keys, s: Sys, actions: seq<Action>)
    requires Inv(k, s) && LegalRun(k, s, actions)
    ensures Inv(k, RunFrom(k, s, actions)) && Grows(s, RunFrom(k, s, actions))
    decreases |actions|
  {
    if actions != [] {
      StepKeeps(k, s, actions[0]);
      StepGrows(k, s, actions[0]);
      RunKeeps(k, Step(k, s, actions[0]), actions[1..]);
    }
  }

  /**
   Durability over whole runs: whatever was acknowledged at some moment (in `s`, reached by a first run) is recovered,
   in order and unchanged, by a replay after any further run, with at most one event more than was acknowledged by then.
   */
  lemma NothingAcknowledgedIsLost(k: Keys, genesis: Event, before: seq<Action>, after: seq<Action>, full: bool)
    requires Follows(k, [], genesis) && LegalRun(k, Created(k, genesis), before)
    requires LegalRun(k, RunFrom(k, Created(k, genesis), before), after)
    ensures var s := RunFrom(k, Created(k, genesis), before);
            var t := RunFrom(k, s, after);
            var r := ReplayLogs(k, t.checkpoints, t.events, full);
            && r.Ok?
            && s.history <= t.history <= r.value.events && |r.value.events| <= |t.history| + 1
            && s.committed <= t.committed <= r.value.checkpoints && |r.value.checkpoints| <= |t.committed| + 1
            && r.value.lastEnv == Replay.Head(k.h, Envs(k, r.value.events))
            && Leaves(k.h, r.value.frames) == EventLeaves(k, r.value.events)
  {
    CreatedInv(k, genesis);
    RunKeeps(k, Created(k, genesis), before);
    var s := RunFrom(k, Created(k, genesis), before);
    RunKeeps(k, s, after);
    ReplayRecovers(k, RunFrom(k, s, after), full);
  }
}
