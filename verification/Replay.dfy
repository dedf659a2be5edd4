/**
 Replaying a ledger: what the two logs mean.

 Signed records are abstract here: `Keys` says which envelopes the writer makes and what verification and parsing
 yield for an arbitrary one. `Envelope` supplies the concrete form.
 */
module Replay {
  import opened Wrappers
  import opened Hashing
  import opened Merkle
  import opened MerkleTree
  import opened Framing
  import opened Model

  datatype Keys = Keys(
    h: Sha,
    node: string,
    signEvent: Event -> seq<byte>,                // the writer's envelope of an event
    openEvent: seq<byte> -> Option<Event>,        // signature verification and parsing
    peekEvent: seq<byte> -> Option<Event>,        // parsing without verification
    signCheckpoint: Checkpoint -> seq<byte>,
    openCheckpoint: seq<byte> -> Option<Checkpoint>)

  datatype Problem =
    | Misframed(reason: Reason) | BadCheckpoint | OtherLedger | WentBackwards
    | BadEvent | MalformedEnvelope | OutOfPlace | BrokenLink | NotGenesis | SecondGenesis

  datatype LedgerError =
    | Corrupt(seqno: nat, problem: Problem)
    | Truncated(committed: nat, found: nat)
    | Forked(size: nat)
    | Empty

  datatype Replayed = Replayed(
    events: seq<Event>,
    frames: seq<seq<byte>>,
    lastEnv: Digest,
    torn: nat,
    covered: nat,
    checkpoints: seq<Checkpoint>,
    cpTorn: nat,
    cpCovered: nat)

  function Origin(node: string): string {
    "jlr/" + node + "/evidence"
  }

  function Leaves(h: Sha, frames: seq<seq<byte>>): (leaves: seq<Digest>)
    ensures |leaves| == |frames|
  {
    seq(|frames|, i requires 0 <= i < |frames| => LeafHash(h, frames[i]))
  }

  /** Checks a verified checkpoint against the ones before it and against the leaves. */
  function CheckOne(k: Keys, leaves: seq<Digest>, done: seq<Checkpoint>, cp: Checkpoint): Option<LedgerError> {
    if cp.origin != Origin(k.node) then Some(Corrupt(|done|, OtherLedger))
    else if done != [] && (cp.counter <= done[|done| - 1].counter || cp.size < done[|done| - 1].size) then
      Some(Corrupt(|done|, WentBackwards))
    else if cp.size > |leaves| then Some(Truncated(cp.size, |leaves|))
    else if cp.root != RootOf(k.h, leaves[..cp.size]) then Some(Forked(cp.size))
    else None
  }

  function CheckCheckpoints(k: Keys, leaves: seq<Digest>, done: seq<Checkpoint>, frames: seq<seq<byte>>)
    : Result<seq<Checkpoint>, LedgerError>
    decreases |frames|
  {
    if frames == [] then Ok(done)
    else
      match k.openCheckpoint(frames[0])
      case None => Err(Corrupt(|done|, BadCheckpoint))
      case Some(cp) =>
        var e := CheckOne(k, leaves, done, cp);
        if e.Some? then Err(e.value) else CheckCheckpoints(k, leaves, done + [cp], frames[1..])
  }

  /** The event in a frame: verified, unless a signed root covers its position. */
  function EventIn(k: Keys, trusted: nat, i: nat, frame: seq<byte>): Result<Event, LedgerError> {
    if i < trusted then
      if k.peekEvent(frame).None? then Err(Corrupt(i, MalformedEnvelope)) else Ok(k.peekEvent(frame).value)
    else
      if k.openEvent(frame).None? then Err(Corrupt(i, BadEvent)) else Ok(k.openEvent(frame).value)
  }

  /** An event's place in the chain. */
  function CheckPlace(i: nat, prev: Digest, ev: Event): Option<LedgerError> {
    if ev.seqno != i then Some(Corrupt(i, OutOfPlace))
    else if ev.prev != prev then Some(Corrupt(i, BrokenLink))
    else if i == 0 && ev.draft.kind != Genesis then Some(Corrupt(i, NotGenesis))
    else if i > 0 && ev.draft.kind == Genesis then Some(Corrupt(i, SecondGenesis))
    else None
  }

  /** The link an event after these frames carries. */
  function Head(h: Sha, frames: seq<seq<byte>>): Digest {
    if frames == [] then ZERO else h(frames[|frames| - 1])
  }

  function CheckEvents(k: Keys, trusted: nat, frames: seq<seq<byte>>, done: seq<Event>)
    : Result<seq<Event>, LedgerError>
    requires |done| <= |frames|
    decreases |frames| - |done|
  {
    var i := |done|;
    if i == |frames| then Ok(done)
    else
      var ev :- EventIn(k, trusted, i, frames[i]);
      var e := CheckPlace(i, Head(k.h, frames[..i]), ev);
      if e.Some? then Err(e.value) else CheckEvents(k, trusted, frames, done + [ev])
  }

  /** How many leading events a replay may trust without verifying their signatures. */
  function TrustedPrefix(full: bool, checkpoints: seq<Checkpoint>): nat {
    if full || checkpoints == [] then 0 else checkpoints[|checkpoints| - 1].size
  }

  function ReplayLogs(k: Keys, cpData: seq<byte>, eventData: seq<byte>, full: bool): Result<Replayed, LedgerError> {
    match SplitLog(k.h, eventData)
    case Err(c) => Err(Corrupt(c.seqno, Misframed(c.reason)))
    case Ok(s) =>
      match SplitLog(k.h, cpData)
      case Err(c) => Err(Corrupt(c.seqno, Misframed(c.reason)))
      case Ok(cs) =>
        var checkpoints :- CheckCheckpoints(k, Leaves(k.h, s.frames), [], cs.frames);
        var events :- CheckEvents(k, TrustedPrefix(full, checkpoints), s.frames, []);
        Ok(Replayed(events, s.frames, Head(k.h, s.frames), s.torn, s.covered, checkpoints, cs.torn, cs.covered))
  }

  // ----- What a successful replay says about the two logs -----

  /** An event that verifies, or parses where a signed root covers it, and stands in its place in the hash chain. */
  predicate EventHolds(k: Keys, trusted: nat, frames: seq<seq<byte>>, es: seq<Event>, i: nat)
    requires i < |es| && i < |frames|
  {
    && (if i < trusted then k.peekEvent(frames[i]) == Some(es[i]) else k.openEvent(frames[i]) == Some(es[i]))
    && es[i].seqno == i
    && es[i].prev == (if i == 0 then ZERO else k.h(frames[i - 1]))
    && (es[i].draft.kind.Genesis? <==> i == 0)
  }

  predicate EventsHold(k: Keys, trusted: nat, frames: seq<seq<byte>>, es: seq<Event>) {
    |es| == |frames| && forall i :: 0 <= i < |es| ==> EventHolds(k, trusted, frames, es, i)
  }

  lemma EventStep(k: Keys, trusted: nat, frames: seq<seq<byte>>, es: seq<Event>, i: nat)
    requires i < |es| && i < |frames|
    ensures EventHolds(k, trusted, frames, es, i) <==>
            EventIn(k, trusted, i, frames[i]) == Ok(es[i]) && CheckPlace(i, Head(k.h, frames[..i]), es[i]) == None
  {
  }

  lemma {:induction false} EventsFrom(k: Keys, trusted: nat, frames: seq<seq<byte>>, done: seq<Event>, es: seq<Event>)
    requires |done| <= |frames|
    ensures CheckEvents(k, trusted, frames, done) == Ok(es) <==>
            && |es| == |frames| && done <= es
            && forall i :: |done| <= i < |es| ==> EventHolds(k, trusted, frames, es, i)
    decreases |frames| - |done|
  {
    var i := |done|;
    if i < |frames| {
      var ev := EventIn(k, trusted, i, frames[i]);
      if |es| == |frames| {
        EventStep(k, trusted, frames, es, i);
      }
      if ev.Ok? {
        EventsFrom(k, trusted, frames, done + [ev.value], es);
        assert done + [ev.value] <= es ==> es[i] == ev.value;
        assert done <= es && |es| > i && es[i] == ev.value ==> done + [ev.value] <= es;
      }
    } else {
      assert done <= es && |es| == |done| ==> es == done;
    }
  }

  /** The events a replay yields are exactly those that verify and form the hash chain. */
  lemma EventsExact(k: Keys, trusted: nat, frames: seq<seq<byte>>, es: seq<Event>)
    ensures CheckEvents(k, trusted, frames, []) == Ok(es) <==> EventsHold(k, trusted, frames, es)
  {
    EventsFrom(k, trusted, frames, [], es);
  }

  /** What is wrong with the event in frame `i`. */
  predicate EventFault(k: Keys, trusted: nat, frames: seq<seq<byte>>, i: nat, e: LedgerError)
    requires i < |frames|
  {
    var ev := if i < trusted then k.peekEvent(frames[i]) else k.openEvent(frames[i]);
    && e.Corrupt? && e.seqno == i
    && match e.problem
       case BadEvent => i >= trusted && ev.None?
       case MalformedEnvelope => i < trusted && ev.None?
       case OutOfPlace => ev.Some? && ev.value.seqno != i
       case BrokenLink => ev.Some? && ev.value.prev != (if i == 0 then ZERO else k.h(frames[i - 1]))
       case NotGenesis => ev.Some? && i == 0 && !ev.value.draft.kind.Genesis?
       case SecondGenesis => ev.Some? && i > 0 && ev.value.draft.kind.Genesis?
       case _ => false
  }

  /** An error is about the first event that does not hold, and says what is wrong with it. */
  lemma {:induction false} EventsFail(k: Keys, trusted: nat, frames: seq<seq<byte>>, done: seq<Event>)
    returns (es: seq<Event>)
    requires |done| <= |frames| && CheckEvents(k, trusted, frames, done).Err?
    requires forall j :: 0 <= j < |done| ==> EventHolds(k, trusted, frames, done, j)
    ensures |es| < |frames| && forall j :: 0 <= j < |es| ==> EventHolds(k, trusted, frames, es, j)
    ensures EventFault(k, trusted, frames, |es|, CheckEvents(k, trusted, frames, done).error)
    decreases |frames| - |done|
  {
    es := done;
    var i := |done|;
    var ev := EventIn(k, trusted, i, frames[i]);
    if ev.Ok? && CheckPlace(i, Head(k.h, frames[..i]), ev.value) == None {
      var more := done + [ev.value];
      EventStep(k, trusted, frames, more, i);
      forall j | 0 <= j < i ensures EventHolds(k, trusted, frames, more, j) {
        assert EventHolds(k, trusted, frames, done, j);
      }
      es := EventsFail(k, trusted, frames, more);
    }
  }

  /**
   A checkpoint that verifies, is of this ledger, follows the one before it, and commits to a prefix of the leaves.
   */
  ghost predicate CheckpointHolds(k: Keys, leaves: seq<Digest>, frames: seq<seq<byte>>, cps: seq<Checkpoint>, j: nat)
    requires j < |cps| && j < |frames|
  {
    && k.openCheckpoint(frames[j]) == Some(cps[j])
    && cps[j].origin == "jlr/" + k.node + "/evidence"
    && (j > 0 ==> cps[j - 1].counter < cps[j].counter && cps[j - 1].size <= cps[j].size)
    && cps[j].size <= |leaves| && IsHead(k.h, leaves[..cps[j].size], cps[j].root)
  }

  ghost predicate CheckpointsHold(k: Keys, leaves: seq<Digest>, frames: seq<seq<byte>>, cps: seq<Checkpoint>) {
    |cps| == |frames| && forall j :: 0 <= j < |cps| ==> CheckpointHolds(k, leaves, frames, cps, j)
  }

  lemma CheckpointStep(k: Keys, leaves: seq<Digest>, frames: seq<seq<byte>>, cps: seq<Checkpoint>, j: nat)
    requires j < |cps| && j < |frames|
    ensures CheckpointHolds(k, leaves, frames, cps, j) <==>
            k.openCheckpoint(frames[j]) == Some(cps[j]) && CheckOne(k, leaves, cps[..j], cps[j]) == None
  {
    if cps[j].size <= |leaves| {
      RootIsHead(k.h, leaves[..cps[j].size], cps[j].root);
    }
  }

  lemma {:induction false} CheckpointsFrom(k: Keys, leaves: seq<Digest>, frames: seq<seq<byte>>, i: nat,
                                           done: seq<Checkpoint>, cps: seq<Checkpoint>)
    requires |done| == i <= |frames|
    ensures CheckCheckpoints(k, leaves, done, frames[i..]) == Ok(cps) <==>
            && |cps| == |frames| && done <= cps
            && forall j :: i <= j < |cps| ==> CheckpointHolds(k, leaves, frames, cps, j)
    decreases |frames| - i
  {
    if i < |frames| {
      assert frames[i..][1..] == frames[i + 1..];
      var envelope := k.openCheckpoint(frames[i]);
      if |cps| == |frames| && done <= cps {
        CheckpointStep(k, leaves, frames, cps, i);
        assert cps[..i] == done;
      }
      if envelope.Some? {
        CheckpointsFrom(k, leaves, frames, i + 1, done + [envelope.value], cps);
        assert done + [envelope.value] <= cps ==> done <= cps && cps[i] == envelope.value;
        assert done <= cps && |cps| > i && cps[i] == envelope.value ==> done + [envelope.value] <= cps;
      }
    } else {
      assert done <= cps && |cps| == |done| ==> cps == done;
    }
  }

  lemma CheckpointsExact(k: Keys, leaves: seq<Digest>, frames: seq<seq<byte>>, cps: seq<Checkpoint>)
    ensures CheckCheckpoints(k, leaves, [], frames) == Ok(cps) <==> CheckpointsHold(k, leaves, frames, cps)
  {
    assert frames[0..] == frames;
    CheckpointsFrom(k, leaves, frames, 0, [], cps);
  }

  /** The leaf of a frame. */
  lemma LeavesAre(h: Sha, frames: seq<seq<byte>>)
    ensures forall i :: 0 <= i < |frames| ==> Leaves(h, frames)[i] == h([0] + frames[i])
  {
  }

  /** The logs split into frames whose events form the hash chain and whose checkpoints commit to its prefixes. */
  ghost predicate Proves(k: Keys, cpData: seq<byte>, eventData: seq<byte>, full: bool, r: Replayed) {
    && SplitLog(k.h, eventData) == Ok(Split(r.frames, r.covered, r.torn))
    && r.lastEnv == (if r.frames == [] then ZERO else k.h(r.frames[|r.frames| - 1]))
    && EventsHold(k, TrustedPrefix(full, r.checkpoints), r.frames, r.events)
    && exists cpFrames ::
         && SplitLog(k.h, cpData) == Ok(Split(cpFrames, r.cpCovered, r.cpTorn))
         && CheckpointsHold(k, Leaves(k.h, r.frames), cpFrames, r.checkpoints)
  }

  /** A replay succeeds with a result if and only if the logs prove it. */
  lemma ReplayExact(k: Keys, cpData: seq<byte>, eventData: seq<byte>, full: bool, r: Replayed)
    ensures ReplayLogs(k, cpData, eventData, full) == Ok(r) <==> Proves(k, cpData, eventData, full, r)
  {
    var s, cs := SplitLog(k.h, eventData), SplitLog(k.h, cpData);
    if s.Ok? && cs.Ok? {
      CheckpointsExact(k, Leaves(k.h, s.value.frames), cs.value.frames, r.checkpoints);
      EventsExact(k, TrustedPrefix(full, r.checkpoints), s.value.frames, r.events);
    }
  }

  lemma LeavesGrow(h: Sha, frames: seq<seq<byte>>, i: nat)
    requires i < |frames|
    ensures Leaves(h, frames[..i + 1]) == Leaves(h, frames[..i]) + [LeafHash(h, frames[i])]
  {
  }

  /** Puts the leaves of all frames into a new tree. */
  method Grow(h: Sha, frames: seq<seq<byte>>) returns (tree: Tree)
    ensures tree.Valid() && tree.h == h && fresh(tree) && tree.leaves == Leaves(h, frames)
  {
    tree := new Tree(h);
    for i := 0 to |frames|
      invariant tree.Valid() && tree.h == h && fresh(tree)
      invariant tree.leaves == Leaves(h, frames[..i])
    {
      LeavesGrow(h, frames, i);
      tree.Push(LeafHash(h, frames[i]));
    }
    assert frames[..|frames|] == frames;
  }

  /** The replay, with the incremental tree. */
  method Run(k: Keys, cpData: seq<byte>, eventData: seq<byte>, full: bool)
    returns (r: Result<Replayed, LedgerError>, tree: Tree)
    ensures r == ReplayLogs(k, cpData, eventData, full)
    ensures tree.Valid() && tree.h == k.h && fresh(tree)
    ensures r.Ok? ==> tree.leaves == Leaves(k.h, r.value.frames) && Proves(k, cpData, eventData, full, r.value)
  {
    var split := SplitFrames(k.h, eventData);
    if split.Err? {
      tree := new Tree(k.h);
      return Err(Corrupt(split.error.seqno, Misframed(split.error.reason))), tree;
    }
    var frames := split.value.frames;
    tree := Grow(k.h, frames);
    var cpSplit := SplitFrames(k.h, cpData);
    if cpSplit.Err? {
      return Err(Corrupt(cpSplit.error.seqno, Misframed(cpSplit.error.reason))), tree;
    }
    var checkpoints := RunCheckpoints(k, tree, cpSplit.value.frames);
    if checkpoints.Err? {
      return Err(checkpoints.error), tree;
    }
    var trusted := TrustedPrefix(full, checkpoints.value);
    var events := RunEvents(k, trusted, frames);
    if events.Err? {
      return Err(events.error), tree;
    }
    r := Ok(Replayed(events.value.0, frames, events.value.1, split.value.torn, split.value.covered,
                     checkpoints.value, cpSplit.value.torn, cpSplit.value.covered));
    ReplayExact(k, cpData, eventData, full, r.value);
  }

  method RunCheckpoints(k: Keys, tree: Tree, frames: seq<seq<byte>>) returns (r: Result<seq<Checkpoint>, LedgerError>)
    requires tree.Valid() && tree.h == k.h
    ensures r == CheckCheckpoints(k, tree.leaves, [], frames)
  {
    var done: seq<Checkpoint> := [];
    assert frames[0..] == frames;
    for i := 0 to |frames|
      invariant |done| == i
      invariant CheckCheckpoints(k, tree.leaves, [], frames) == CheckCheckpoints(k, tree.leaves, done, frames[i..])
    {
      assert frames[i..][1..] == frames[i + 1..];
      var envelope := k.openCheckpoint(frames[i]);
      if envelope.None? {
        return Err(Corrupt(i, BadCheckpoint));
      }
      var cp := envelope.value;
      if cp.origin != Origin(k.node) {
        return Err(Corrupt(i, OtherLedger));
      }
      if done != [] {
        var last := done[|done| - 1];
        if cp.counter <= last.counter || cp.size < last.size {
          return Err(Corrupt(i, WentBackwards));
        }
      }
      var root := tree.RootAt(cp.size);
      if root.None? {
        return Err(Truncated(cp.size, |tree.leaves|));
      }
      if root.value != cp.root {
        return Err(Forked(cp.size));
      }
      done := done + [cp];
    }
    r := Ok(done);
  }

  method RunEvents(k: Keys, trusted: nat, frames: seq<seq<byte>>)
    returns (r: Result<(seq<Event>, Digest), LedgerError>)
    ensures var spec := CheckEvents(k, trusted, frames, []);
            if spec.Err? then r.Err? && r.error == spec.error else r == Ok((spec.value, Head(k.h, frames)))
  {
    var prev: Digest := ZERO;
    var done: seq<Event> := [];
    for i := 0 to |frames|
      invariant |done| == i && prev == Head(k.h, frames[..i])
      invariant CheckEvents(k, trusted, frames, []) == CheckEvents(k, trusted, frames, done)
    {
      var ev :- EventIn(k, trusted, i, frames[i]);
      if ev.seqno != i {
        return Err(Corrupt(i, OutOfPlace));
      }
      if ev.prev != prev {
        return Err(Corrupt(i, BrokenLink));
      }
      if i == 0 && ev.draft.kind != Genesis {
        return Err(Corrupt(i, NotGenesis));
      }
      if i > 0 && ev.draft.kind == Genesis {
        return Err(Corrupt(i, SecondGenesis));
      }
      prev := k.h(frames[i]);
      done := done + [ev];
      assert frames[..i + 1][i] == frames[i];
    }
    assert frames[..|frames|] == frames;
    r := Ok((done, prev));
  }
}
