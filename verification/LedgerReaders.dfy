/** What readers of a ledger can rely on: beside a running writer, on the fast path, and against a forged log. */
module LedgerReaders {
  import opened Wrappers
  import opened Hashing
  import opened Merkle
  import opened MerkleVerify
  import opened Framing
  import opened Model
  import opened Replay
  import opened Honest
  import opened LedgerRuns

  // ----- A reader without a lock -----

  /** A write in progress: the record and how many bytes of its frame are in the file already. */
  datatype InFlight<T> = Idle | Writing(record: T, n: nat)

  /** What the checkpoint log looks like to a reader while the writer is in state `s`. */
  function VisibleCheckpoints(k: Keys, s: Sys, w: InFlight<Stamp>): seq<byte> {
    if w.Idle? then s.checkpoints else Step(k, s, Commit(w.record, CutShort(w.n))).checkpoints
  }

  function VisibleEvents(k: Keys, s: Sys, w: InFlight<(EventDraft, Stamp)>): seq<byte> {
    if w.Idle? then s.events else Step(k, s, Append(w.record.0, w.record.1, CutShort(w.n))).events
  }

  predicate LegalCommit(k: Keys, s: Sys, w: InFlight<Stamp>) {
    w.Writing? ==> Legal(k, s, Commit(w.record, CutShort(w.n)))
  }

  predicate LegalAppend(k: Keys, s: Sys, w: InFlight<(EventDraft, Stamp)>) {
    w.Writing? ==> Legal(k, s, Append(w.record.0, w.record.1, CutShort(w.n)))
  }

  /** The checkpoints a reader sees commit to events acknowledged by then. */
  lemma SeenCheckpoints(k: Keys, s: Sys, w: InFlight<Stamp>) returns (cps: seq<Checkpoint>)
    requires Inv(k, s) && LegalCommit(k, s, w)
    ensures AllCommit(k, s.history, cps) && HonestLog(k.h, CpEnvs(k, cps), VisibleCheckpoints(k, s, w))
    ensures s.committed <= cps
  {
    var t := if w.Idle? then s else Step(k, s, Commit(w.record, CutShort(w.n)));
    if w.Writing? {
      StepKeeps(k, s, Commit(w.record, CutShort(w.n)));
    }
    CheckpointLogHonest(k, t);
    cps := RecoveredCheckpoints(k, t);
  }

  lemma SeenEvents(k: Keys, s: Sys, w: InFlight<(EventDraft, Stamp)>) returns (es: seq<Event>)
    requires Inv(k, s) && LegalAppend(k, s, w)
    ensures s.history <= es && |es| <= |s.history| + 1
    ensures Chain(k, es) && HonestLog(k.h, Envs(k, es), VisibleEvents(k, s, w))
  {
    var t := if w.Idle? then s else Step(k, s, Append(w.record.0, w.record.1, CutShort(w.n)));
    if w.Writing? {
      StepKeeps(k, s, Append(w.record.0, w.record.1, CutShort(w.n)));
    }
    EventLogHonest(k, t);
    es := RecoveredEvents(k, t);
  }

  /**
   A reader takes no lock: it reads the checkpoints at one moment of a run and the events at a later one, each possibly
   in the middle of a write that may still be rolled back. The replay of what it read never reports a problem, and
   yields every event acknowledged by the second moment.
   */
  lemma ReaderSeesNoProblem(k: Keys, s: Sys, w: InFlight<Stamp>, between: seq<Action>,
                            v: InFlight<(EventDraft, Stamp)>, full: bool)
    requires Inv(k, s) && LegalCommit(k, s, w)
    requires LegalRun(k, s, between) && LegalAppend(k, RunFrom(k, s, between), v)
    ensures var t := RunFrom(k, s, between);
            var r := ReplayLogs(k, VisibleCheckpoints(k, s, w), VisibleEvents(k, t, v), full);
            r.Ok? && t.history <= r.value.events && |r.value.events| <= |t.history| + 1
  {
    var t := RunFrom(k, s, between);
    RunKeeps(k, s, between);
    var cps := SeenCheckpoints(k, s, w);
    var es := SeenEvents(k, t, v);
    AllCommitExtend(k, s.history, es, cps);
    ReplayHonest(k, es, cps, VisibleEvents(k, t, v), VisibleCheckpoints(k, s, w), full);
  }

  // ----- Oversized envelopes -----

  lemma OversizeSplit(h: Sha, envs: seq<seq<byte>>, env: seq<byte>)
    requires AllFramable(envs) && !Framable(env) && |env| < 0x1_0000_0000
    ensures SplitLog(h, Frames(h, envs) + Frame(h, env)).Err?
  {
    FrontOfOversize(h, env);
    SplitAfterFrames(h, [], 0, envs, Frame(h, env));
  }

  lemma OversizeFails(k: Keys, history: seq<Event>, env: seq<byte>, cpData: seq<byte>, full: bool)
    requires Chain(k, history) && !Framable(env) && |env| < 0x1_0000_0000
    ensures ReplayLogs(k, cpData, Frames(k.h, Envs(k, history)) + Frame(k.h, env), full).Err?
  {
    ChainFramable(k, history);
    OversizeSplit(k.h, Envs(k, history), env);
  }

  /** Wherever a replay succeeds, every event is in its place. */
  lemma {:induction false} EventsInPlace(k: Keys, trusted: nat, frames: seq<seq<byte>>, done: seq<Event>, j: nat)
    requires |done| <= j < |frames| && CheckEvents(k, trusted, frames, done).Ok?
    ensures EventIn(k, trusted, j, frames[j]).Ok?
    ensures CheckPlace(j, Replay.Head(k.h, frames[..j]), EventIn(k, trusted, j, frames[j]).value) == None
    decreases |frames| - |done|
  {
    if |done| < j {
      EventsInPlace(k, trusted, frames, done + [EventIn(k, trusted, |done|, frames[|done|]).value], j);
    }
  }

  /** A frame that verifies and parses. */
  predicate Opens(k: Keys, ev: Event) {
    k.openEvent(k.signEvent(ev)) == Some(ev) && k.peekEvent(k.signEvent(ev)) == Some(ev)
  }

  lemma LastOutOfPlace(k: Keys, trusted: nat, frames: seq<seq<byte>>, ev: Event)
    requires Opens(k, ev) && CheckPlace(|frames|, Replay.Head(k.h, frames), ev).Some?
    ensures CheckEvents(k, trusted, frames + [k.signEvent(ev)], []).Err?
  {
    var all := frames + [k.signEvent(ev)];
    assert all[..|frames|] == frames;
    if CheckEvents(k, trusted, all, []).Ok? {
      EventsInPlace(k, trusted, all, [], |frames|);
    }
  }

  lemma OutOfPlaceFails(k: Keys, history: seq<Event>, ev: Event, cpData: seq<byte>, full: bool)
    requires Chain(k, history) && Framable(k.signEvent(ev)) && Opens(k, ev)
    requires CheckPlace(|history|, Replay.Head(k.h, Envs(k, history)), ev).Some?
    ensures ReplayLogs(k, cpData, Frames(k.h, Envs(k, history)) + Frame(k.h, k.signEvent(ev)), full).Err?
  {
    var envs := Envs(k, history);
    var all := envs + [k.signEvent(ev)];
    ChainFramable(k, history);
    FramesAppend(k.h, envs, k.signEvent(ev));
    CleanIsHonest(k.h, all);
    assert Frames(k.h, all) + [] == Frames(k.h, all);
    HonestSplit(k.h, all, Frames(k.h, all));
    forall trusted: nat ensures CheckEvents(k, trusted, all, []).Err? {
      LastOutOfPlace(k, trusted, envs, ev);
    }
  }

  lemma NextPlace(k: Keys, s: Sys, d: EventDraft, stamp: Stamp)
    requires Inv(k, s) && s.mem.Some?
    ensures CheckPlace(|s.history|, Replay.Head(k.h, Envs(k, s.history)), NextEvent(s.mem.value, d, stamp)) ==
            if d.kind == Genesis then Some(Corrupt(|s.history|, SecondGenesis)) else None
    ensures s.mem.value.nextSeq == |s.history|
  {
  }

  lemma ReadableBytes(k: Keys, s: Sys, m: Mem, ev: Event)
    requires Inv(k, s) && s.mem == Some(m) && !m.poisoned
    ensures AppendStep(k, s, m, ev, Written).events == Frames(k.h, Envs(k, s.history)) + Frame(k.h, k.signEvent(ev))
    ensures AppendStep(k, s, m, ev, Written).checkpoints == s.checkpoints
  {
    CleanLog(k, s.events, s.history);
  }

  lemma PlacedIsReadable(k: Keys, s: Sys, m: Mem, ev: Event, full: bool)
    requires Inv(k, s) && s.mem == Some(m) && !m.poisoned && Follows(k, s.history, ev)
    ensures var t := AppendStep(k, s, m, ev, Written);
            var r := ReplayLogs(k, t.checkpoints, t.events, full);
            r.Ok? && r.value.events == t.history
  {
    AppendWritten(k, s, m, ev);
    ReplayRecovers(k, AppendStep(k, s, m, ev, Written), full);
  }

  /**
   Appending checks neither the size of an envelope nor the kind of the draft. An acknowledged event is readable if and
   only if its envelope fits a frame and it is not a second GENESIS; any other makes every later replay fail.
   */
  lemma AppendReadableIff(k: Keys, s: Sys, d: EventDraft, stamp: Stamp, full: bool)
    requires Inv(k, s) && s.mem.Some? && !s.mem.value.poisoned
    requires var ev := NextEvent(s.mem.value, d, stamp);
             |k.signEvent(ev)| < 0x1_0000_0000 && Opens(k, ev)
    ensures var ev := NextEvent(s.mem.value, d, stamp);
            var t := Step(k, s, Append(d, stamp, Written));
            var r := ReplayLogs(k, t.checkpoints, t.events, full);
            && t.history == s.history + [ev]
            && (r.Ok? <==> Framable(k.signEvent(ev)) && d.kind != Genesis)
            && (r.Ok? ==> r.value.events == t.history)
  {
    var m := s.mem.value;
    var ev := NextEvent(m, d, stamp);
    NextPlace(k, s, d, stamp);
    ReadableBytes(k, s, m, ev);
    if !Framable(k.signEvent(ev)) {
      OversizeFails(k, s.history, k.signEvent(ev), s.checkpoints, full);
    } else if d.kind == Genesis {
      OutOfPlaceFails(k, s.history, ev, s.checkpoints, full);
    } else {
      PlacedIsReadable(k, s, m, ev, full);
    }
  }

  lemma CleanLog(k: Keys, data: seq<byte>, es: seq<Event>)
    requires EventLog(k, data, es, Clean)
    ensures data == Frames(k.h, Envs(k, es))
  {
  }

  // ----- The fast path -----

  /** Parsing without verification agrees with verification wherever the latter accepts. */
  ghost predicate Faithful(k: Keys) {
    forall b :: k.openEvent(b).Some? ==> k.peekEvent(b) == k.openEvent(b)
  }

  lemma {:induction false} FastEvents(k: Keys, trusted: nat, frames: seq<seq<byte>>, done: seq<Event>)
    requires Faithful(k) && |done| <= |frames| && CheckEvents(k, 0, frames, done).Ok?
    ensures CheckEvents(k, trusted, frames, done) == CheckEvents(k, 0, frames, done)
    decreases |frames| - |done|
  {
    if |done| < |frames| {
      var ev := EventIn(k, 0, |done|, frames[|done|]).value;
      FastEvents(k, trusted, frames, done + [ev]);
    }
  }

  /** The fast replay refines the full one, on any bytes: where the full replay succeeds, both give the same. */
  lemma FastRefinesFull(k: Keys, cpData: seq<byte>, eventData: seq<byte>)
    requires Faithful(k) && ReplayLogs(k, cpData, eventData, true).Ok?
    ensures ReplayLogs(k, cpData, eventData, false) == ReplayLogs(k, cpData, eventData, true)
  {
    var r := ReplayLogs(k, cpData, eventData, true).value;
    FastEvents(k, TrustedPrefix(false, r.checkpoints), r.frames, []);
  }

  // ----- A forged log -----

  /** The position where two lists of the same length first differ. */
  function FirstDifference<T(==)>(a: seq<T>, b: seq<T>): (i: nat)
    requires |a| == |b| && a != b
    ensures i < |a| && a[i] != b[i]
  {
    if a[0] != b[0] then 0 else
      assert a == [a[0]] + a[1..] && b == [b[0]] + b[1..];
      1 + FirstDifference(a[1..], b[1..])
  }

  /** From two different lists of frames under one root, computes a collision. */
  function FramesForgery(h: Sha, a: seq<seq<byte>>, b: seq<seq<byte>>): (c: Collision)
    requires |a| == |b| && a != b && RootOf(h, Leaves(h, a)) == RootOf(h, Leaves(h, b))
    ensures Collides(h, c)
  {
    if Leaves(h, a) != Leaves(h, b) then RootForgery(h, Leaves(h, a), Leaves(h, b))
    else
      var i := FirstDifference(a, b);
      assert LeafHash(h, a[i]) == Leaves(h, a)[i] == Leaves(h, b)[i] == LeafHash(h, b[i]);
      assert ([0] + a[i])[1..] == a[i] && ([0] + b[i])[1..] == b[i];
      Collision([0] + a[i], [0] + b[i])
  }

  lemma {:induction false} CheckpointsHold(k: Keys, leaves: seq<Digest>, done: seq<Checkpoint>, frames: seq<seq<byte>>)
    requires CheckCheckpoints(k, leaves, done, frames).Ok?
    requires forall i :: 0 <= i < |done| ==>
               done[i].size <= |leaves| && done[i].root == RootOf(k.h, leaves[..done[i].size])
    ensures var cps := CheckCheckpoints(k, leaves, done, frames).value;
            forall i :: 0 <= i < |cps| ==> cps[i].size <= |leaves| && cps[i].root == RootOf(k.h, leaves[..cps[i].size])
    decreases |frames|
  {
    if frames != [] {
      CheckpointsHold(k, leaves, done + [k.openCheckpoint(frames[0]).value], frames[1..]);
    }
  }

  /**
   The fast path skips the signatures of the events its newest checkpoint covers. If that checkpoint was written over
   the events `es`, the covered frames are byte for byte the frames of `es`; otherwise the log yields a collision.
   */
  function CoveredForgery(k: Keys, cpData: seq<byte>, eventData: seq<byte>, full: bool, es: seq<Event>): (c: Collision)
    requires var r := ReplayLogs(k, cpData, eventData, full);
             && r.Ok? && r.value.checkpoints != []
             && var cp := r.value.checkpoints[|r.value.checkpoints| - 1];
                && cp.size == |es| && cp.root == RootOf(k.h, EventLeaves(k, es))
                && (|r.value.frames| >= cp.size ==> r.value.frames[..cp.size] != Envs(k, es))
    ensures Collides(k.h, c)
  {
    var r := ReplayLogs(k, cpData, eventData, full).value;
    CheckpointsHold(k, Leaves(k.h, r.frames), [], SplitLog(k.h, cpData).value.frames);
    assert Leaves(k.h, r.frames)[..|es|] == Leaves(k.h, r.frames[..|es|]);
    FramesForgery(k.h, r.frames[..|es|], Envs(k, es))
  }

  lemma CommitsToPrefix(k: Keys, es: seq<Event>, before: seq<Checkpoint>, cp: Checkpoint)
    requires Commits(k, es, before, cp)
    ensures cp.size <= |es| && cp.root == RootOf(k.h, EventLeaves(k, es[..cp.size]))
  {
    assert EventLeaves(k, es)[..cp.size] == EventLeaves(k, es[..cp.size]);
  }

  lemma OneOfCommits(k: Keys, es: seq<Event>, cps: seq<Checkpoint>, cp: Checkpoint)
    requires AllCommit(k, es, cps) && cp in cps
    ensures cp.size <= |es| && cp.root == RootOf(k.h, EventLeaves(k, es[..cp.size]))
  {
    var j :| 0 <= j < |cps| && cps[j] == cp;
    CommitsToPrefix(k, es, cps[..j], cps[j]);
  }

  /** A checkpoint of a run commits to the events acknowledged when it was written. */
  lemma WrittenCheckpoint(k: Keys, s: Sys, cp: Checkpoint)
    requires Inv(k, s) && cp in RecoveredCheckpoints(k, s)
    ensures cp.size <= |s.history| && cp.root == RootOf(k.h, EventLeaves(k, s.history[..cp.size]))
  {
    CheckpointLogHonest(k, s);
    OneOfCommits(k, s.history, RecoveredCheckpoints(k, s), cp);
  }

  /** The newest checkpoint of a replay is one that the writer wrote in the run that led to `s`, if there is any. */
  predicate NewestWritten(k: Keys, s: Sys, r: Replayed) {
    r.checkpoints != [] ==> r.checkpoints[|r.checkpoints| - 1] in RecoveredCheckpoints(k, s)
  }

  /** The events that the newest checkpoint covers are, byte for byte, the ones acknowledged in the run. */
  predicate CoveredAsWritten(k: Keys, s: Sys, r: Replayed) {
    r.checkpoints != [] ==>
      var size := r.checkpoints[|r.checkpoints| - 1].size;
      size <= |s.history| && size <= |r.frames| && r.frames[..size] == Envs(k, s.history[..size])
  }

  /**
   Whatever bytes are read, if the newest checkpoint in them was written in a run of the ledger, the events it covers
   are the ones acknowledged in that run; otherwise the bytes yield a collision.
   */
  function WrittenForgery(k: Keys, s: Sys, cpData: seq<byte>, eventData: seq<byte>, full: bool): (c: Collision)
    requires Inv(k, s)
    requires var r := ReplayLogs(k, cpData, eventData, full);
             r.Ok? && NewestWritten(k, s, r.value) && !CoveredAsWritten(k, s, r.value)
    ensures Collides(k.h, c)
  {
    var cps := ReplayLogs(k, cpData, eventData, full).value.checkpoints;
    var cp := cps[|cps| - 1];
    WrittenCheckpoint(k, s, cp);
    CoveredForgery(k, cpData, eventData, full, s.history[..cp.size])
  }

  /** Skipping verification makes no difference where it would succeed. */
  lemma {:induction false} SkippedAgree(k: Keys, trusted: nat, frames: seq<seq<byte>>, done: seq<Event>)
    requires |done| <= |frames|
    requires forall j :: 0 <= j < trusted && j < |frames| ==>
               k.openEvent(frames[j]).Some? && k.peekEvent(frames[j]) == k.openEvent(frames[j])
    ensures CheckEvents(k, trusted, frames, done) == CheckEvents(k, 0, frames, done)
    decreases |frames| - |done|
  {
    if |done| < |frames| {
      var i := |done|;
      assert EventIn(k, trusted, i, frames[i]) == EventIn(k, 0, i, frames[i]);
      var ev := EventIn(k, 0, i, frames[i]);
      if ev.Ok? {
        SkippedAgree(k, trusted, frames, done + [ev.value]);
      }
    }
  }

  lemma WrittenOpens(k: Keys, es: seq<Event>, frames: seq<seq<byte>>, size: nat, j: nat)
    requires Chain(k, es) && j < size <= |es| && size <= |frames| && frames[..size] == Envs(k, es[..size])
    ensures k.openEvent(frames[j]).Some? && k.peekEvent(frames[j]) == k.openEvent(frames[j])
  {
    assert Follows(k, es[..j], es[j]);
    assert frames[j] == frames[..size][j] == k.signEvent(es[j]);
  }

  lemma CoveredAgree(k: Keys, es: seq<Event>, frames: seq<seq<byte>>, size: nat)
    requires Chain(k, es) && size <= |es| && size <= |frames| && frames[..size] == Envs(k, es[..size])
    ensures CheckEvents(k, size, frames, []) == CheckEvents(k, 0, frames, [])
  {
    forall j | 0 <= j < size && j < |frames|
      ensures k.openEvent(frames[j]).Some? && k.peekEvent(frames[j]) == k.openEvent(frames[j])
    {
      WrittenOpens(k, es, frames, size, j);
    }
    SkippedAgree(k, size, frames, []);
  }

  /** The two replays differ in how the events are checked only. */
  lemma FullFromFast(k: Keys, cpData: seq<byte>, eventData: seq<byte>, r: Replayed)
    requires ReplayLogs(k, cpData, eventData, false) == Ok(r)
    requires CheckEvents(k, TrustedPrefix(false, r.checkpoints), r.frames, []) == CheckEvents(k, 0, r.frames, [])
    ensures ReplayLogs(k, cpData, eventData, true) == Ok(r)
  {
  }

  lemma FastIsFull(k: Keys, s: Sys, cpData: seq<byte>, eventData: seq<byte>)
    requires Inv(k, s)
    requires var r := ReplayLogs(k, cpData, eventData, false);
             r.Ok? && CoveredAsWritten(k, s, r.value)
    ensures ReplayLogs(k, cpData, eventData, true) == ReplayLogs(k, cpData, eventData, false)
  {
    var r := ReplayLogs(k, cpData, eventData, false).value;
    if r.checkpoints != [] {
      CoveredAgree(k, s.history, r.frames, TrustedPrefix(false, r.checkpoints));
    }
    FullFromFast(k, cpData, eventData, r);
  }

  /**
   The fast replay is as good as the full one: where it succeeds, on any bytes whose newest checkpoint was written in a
   run, the full replay gives the same; otherwise the bytes yield a collision.
   */
  function FastForgery(k: Keys, s: Sys, cpData: seq<byte>, eventData: seq<byte>): (c: Collision)
    requires Inv(k, s)
    requires var r := ReplayLogs(k, cpData, eventData, false);
             r.Ok? && NewestWritten(k, s, r.value) && ReplayLogs(k, cpData, eventData, true) != r
    ensures Collides(k.h, c)
  {
    assert !CoveredAsWritten(k, s, ReplayLogs(k, cpData, eventData, false).value) by {
      if CoveredAsWritten(k, s, ReplayLogs(k, cpData, eventData, false).value) {
        FastIsFull(k, s, cpData, eventData);
      }
    }
    WrittenForgery(k, s, cpData, eventData, false)
  }

  // ----- Verification against an independently kept checkpoint -----

  datatype VerifyReport = VerifyReport(
    events: nat,
    root: Digest,
    checkpoints: nat,
    matched: bool,
    torn: nat,
    cpTorn: nat,
    anchor: Option<Anchor>)

  /** What backs the newest checkpoint. */
  function NewestAnchor(cps: seq<Checkpoint>): Option<Anchor> {
    if cps == [] then None else Some(cps[|cps| - 1].anchor)
  }

  /** A checkpoint of this ledger, kept elsewhere, commits to a prefix of the frames. */
  predicate Matches(k: Keys, frames: seq<seq<byte>>, external: seq<byte>) {
    && k.openCheckpoint(external).Some?
    && var cp := k.openCheckpoint(external).value;
       cp.origin == Origin(k.node) && cp.size <= |frames| && cp.root == RootOf(k.h, Leaves(k.h, frames[..cp.size]))
  }

  /** Verifies a ledger, optionally against a checkpoint envelope kept elsewhere. */
  method VerifyDir(k: Keys, cpData: seq<byte>, eventData: seq<byte>, external: Option<seq<byte>>)
    returns (r: Result<VerifyReport, LedgerError>)
    ensures ReplayLogs(k, cpData, eventData, true).Err? ==> r == Err(ReplayLogs(k, cpData, eventData, true).error)
    ensures r.Ok? <==>
              var full := ReplayLogs(k, cpData, eventData, true);
              full.Ok? && full.value.events != [] && (external.None? || Matches(k, full.value.frames, external.value))
    ensures r.Ok? ==>
              var f := ReplayLogs(k, cpData, eventData, true).value;
              r.value == VerifyReport(|f.events|, RootOf(k.h, Leaves(k.h, f.frames)), |f.checkpoints|, external.Some?,
                                      f.torn, f.cpTorn, NewestAnchor(f.checkpoints))
    ensures r.Ok? ==>
              var f := ReplayLogs(k, cpData, eventData, true).value;
              Proves(k, cpData, eventData, true, f) && IsHead(k.h, Leaves(k.h, f.frames), r.value.root)
    ensures r.Err? && ReplayLogs(k, cpData, eventData, true).Ok? ==>
              var frames := ReplayLogs(k, cpData, eventData, true).value.frames;
              match r.error
              case Empty => ReplayLogs(k, cpData, eventData, true).value.events == []
              case Truncated(committed, found) =>
                external.Some? && k.openCheckpoint(external.value).Some? && found == |frames| < committed
              case Forked(size) =>
                && external.Some? && k.openCheckpoint(external.value).Some?
                && var cp := k.openCheckpoint(external.value).value;
                   cp.size == size <= |frames| && cp.root != RootOf(k.h, Leaves(k.h, frames[..size]))
              case Corrupt(_, problem) => external.Some? && (problem.BadCheckpoint? || problem.OtherLedger?)
  {
    var replayed, tree := Run(k, cpData, eventData, true);
    if replayed.Err? {
      return Err(replayed.error);
    }
    var f := replayed.value;
    EventsLength(k, 0, f.frames, []);
    if |f.events| == 0 {
      return Err(Empty);
    }
    if external.Some? {
      var envelope := k.openCheckpoint(external.value);
      if envelope.None? {
        return Err(LedgerError.Corrupt(0, BadCheckpoint));
      }
      var cp := envelope.value;
      if cp.origin != Origin(k.node) {
        return Err(LedgerError.Corrupt(0, OtherLedger));
      }
      if cp.size > |f.events| {
        return Err(Truncated(cp.size, |f.events|));
      }
      var root := tree.RootAt(cp.size);
      assert tree.leaves[..cp.size] == Leaves(k.h, f.frames[..cp.size]);
      if root != Some(cp.root) {
        return Err(Forked(cp.size));
      }
    }
    var root := tree.Root();
    var anchor := NewestAnchor(f.checkpoints);
    r := Ok(VerifyReport(|f.events|, root, |f.checkpoints|, external.Some?, f.torn, f.cpTorn, anchor));
  }

  lemma {:induction false} EventsLength(k: Keys, trusted: nat, frames: seq<seq<byte>>, done: seq<Event>)
    requires |done| <= |frames| && CheckEvents(k, trusted, frames, done).Ok?
    ensures |CheckEvents(k, trusted, frames, done).value| == |frames|
    decreases |frames| - |done|
  {
    if |done| < |frames| {
      var ev := EventIn(k, trusted, |done|, frames[|done|]).value;
      EventsLength(k, trusted, frames, done + [ev]);
    }
  }
}
