/** The ledger object: its two files and the fields it keeps beside them. Every method is a step of `LedgerRuns`. */
module LedgerStore {
  import opened Wrappers
  import opened Hashing
  import opened MerkleTree
  import opened Framing
  import opened Model
  import opened Replay
  import opened LedgerRuns

  /** How the calls on a file behave during one append; `wrote` bytes reach the file when writing fails. */
  datatype Io = Io(lenFails: bool, appendFails: bool, wrote: nat, syncFails: bool, truncateFails: bool)

  datatype AppendError = Failed | RollbackFailed

  function EndingOf(io: Io, frame: seq<byte>): Ending {
    if io.lenFails then RolledBack
    else if !io.appendFails && !io.syncFails then Written
    else if !io.truncateFails then RolledBack
    else LeftBehind(if io.appendFails then io.wrote else |frame|)
  }

  /** Every call on the file works. */
  predicate Works(io: Io) {
    !io.lenFails && !io.appendFails && !io.syncFails
  }

  /** Appends one frame to a file; a failed write or sync is cut back to the previous length. */
  method AppendFrame(file: seq<byte>, bytes: seq<byte>, io: Io)
    returns (after: seq<byte>, r: Result<(), AppendError>)
    ensures var end := EndingOf(io, bytes);
            && after == file + Kept(bytes, end)
            && r == if end.Written? then Ok(()) else Err(if end.RolledBack? then Failed else RollbackFailed)
    ensures r.Ok? <==> Works(io)
    ensures r.Ok? ==> after == file + bytes
    ensures r == Err(Failed) ==> after == file
  {
    after := file;
    if io.lenFails {
      return after, Err(Failed);
    }
    var before := |file|;
    after := after + if io.appendFails then bytes[..if io.wrote < |bytes| then io.wrote else |bytes|] else bytes;
    if !io.appendFails && !io.syncFails {
      return after, Ok(());
    }
    if !io.truncateFails {
      after := after[..before];
      return after, Err(Failed);
    }
    r := Err(RollbackFailed);
  }

  /** What an append does to the files and the memory. */
  lemma AppendFields(k: Keys, s: Sys, m: Mem, draft: EventDraft, stamp: Stamp, end: Ending)
    requires s.mem == Some(m) && !m.poisoned
    ensures var ev := NextEvent(m, draft, stamp);
            var t := Step(k, s, Action.Append(draft, stamp, end));
            && t.events == s.events + Kept(Frame(k.h, k.signEvent(ev)), end) && t.checkpoints == s.checkpoints
            && t.mem == MemAfter(m, Appended(k, m, ev), end)
  {
  }

  lemma CommitFields(k: Keys, s: Sys, m: Mem, stamp: Stamp, end: Ending)
    requires s.mem == Some(m) && !m.poisoned
    ensures var cp := NextCheckpoint(k, m, stamp);
            var t := Step(k, s, Commit(stamp, end));
            && t.checkpoints == s.checkpoints + Kept(Frame(k.h, k.signCheckpoint(cp)), end) && t.events == s.events
            && t.mem == MemAfter(m, m.(counter := cp.counter, lastCheckpointSize := cp.size), end)
  {
  }

  class Ledger {
    const k: Keys
    const tree: Tree
    var events: seq<byte>
    var checkpoints: seq<byte>
    var lastEnv: Digest
    var nextSeq: nat
    var counter: nat
    var lastCheckpointSize: nat
    var poisoned: bool

    ghost predicate Valid()
      reads this, tree
    {
      tree.Valid() && tree.h == k.h
    }

    ghost function View(): Mem
      reads this, tree
    {
      Mem(tree.leaves, lastEnv, nextSeq, counter, lastCheckpointSize, poisoned)
    }

    /** The object holds the files and the memory of `s`. */
    ghost predicate Represents(s: Sys)
      reads this, tree
    {
      s.events == events && s.checkpoints == checkpoints && s.mem == Some(View())
    }

    /** The ledger that opening builds from a replay. */
    constructor (k: Keys, tree: Tree, r: Replayed, events: seq<byte>, checkpoints: seq<byte>)
      requires tree.Valid() && tree.h == k.h && tree.leaves == Leaves(k.h, r.frames)
      ensures Valid() && this.k == k && this.tree == tree
      ensures this.events == events && this.checkpoints == checkpoints && View() == Reopened(k, r)
    {
      this.k, this.tree := k, tree;
      this.events, this.checkpoints := events, checkpoints;
      lastEnv, nextSeq := r.lastEnv, |r.events|;
      counter := if r.checkpoints == [] then 0 else r.checkpoints[|r.checkpoints| - 1].counter;
      lastCheckpointSize := if r.checkpoints == [] then 0 else r.checkpoints[|r.checkpoints| - 1].size;
      poisoned := false;
    }

    /** Appends an event and returns its sequence number and envelope digest. */
    method Append(draft: EventDraft, stamp: Stamp, io: Io, ghost s: Sys) returns (r: Result<(nat, Digest), AppendError>)
      requires Valid() && Represents(s)
      modifies this, tree
      ensures Valid()
      ensures var end := EndingOf(io, Frame(k.h, k.signEvent(NextEvent(old(View()), draft, stamp))));
              && Represents(Step(k, s, Action.Append(draft, stamp, end)))
              && r == if old(poisoned) then Err(RollbackFailed)
                      else if end.Written? then Ok((old(nextSeq), lastEnv))
                      else Err(if end.RolledBack? then Failed else RollbackFailed)
      ensures r.Ok? <==> !old(poisoned) && Works(io)
      ensures r.Ok? ==> !poisoned
    {
      if poisoned {
        return Err(RollbackFailed);
      }
      var ev := Event(nextSeq, stamp, draft, lastEnv);
      var env := k.signEvent(ev);
      AppendFields(k, s, View(), draft, stamp, EndingOf(io, Frame(k.h, env)));
      var written := WriteEvent(Frame(k.h, env), io);
      if written.Err? {
        return Err(written.error);
      }
      Advance(env);
      r := Ok((ev.seqno, lastEnv));
    }

    /** Writes a frame to the event log; a failure that cannot be undone poisons the ledger. */
    method WriteEvent(frame: seq<byte>, io: Io) returns (r: Result<(), AppendError>)
      requires !poisoned
      modifies this`events, this`poisoned
      ensures var end := EndingOf(io, frame);
              && events == old(events) + Kept(frame, end) && poisoned == end.LeftBehind?
              && r == if end.Written? then Ok(()) else Err(if end.RolledBack? then Failed else RollbackFailed)
      ensures r.Ok? <==> Works(io)
    {
      events, r := AppendFrame(events, frame, io);
      poisoned := r == Err(RollbackFailed);
    }

    /** Takes over a written event: the tree grows by its leaf, and the next one follows it. */
    method Advance(env: seq<byte>)
      requires Valid()
      modifies this`lastEnv, this`nextSeq, tree
      ensures Valid() && lastEnv == k.h(env)
      ensures View() == old(View()).(leaves := old(tree.leaves) + [LeafHash(k.h, env)], lastEnv := k.h(env),
                                     nextSeq := old(nextSeq) + 1)
    {
      tree.Push(LeafHash(k.h, env));
      lastEnv := k.h(env);
      nextSeq := nextSeq + 1;
    }

    /** Writes a signed checkpoint of the current head and returns its envelope. */
    method WriteCheckpoint(stamp: Stamp, io: Io, ghost s: Sys) returns (r: Result<seq<byte>, AppendError>)
      requires Valid() && Represents(s)
      modifies this
      ensures Valid()
      ensures var cp := NextCheckpoint(k, old(View()), stamp);
              var end := EndingOf(io, Frame(k.h, k.signCheckpoint(cp)));
              && Represents(Step(k, s, Commit(stamp, end)))
              && r == if old(poisoned) then Err(RollbackFailed)
                      else if end.Written? then Ok(k.signCheckpoint(cp))
                      else Err(if end.RolledBack? then Failed else RollbackFailed)
      ensures r.Ok? <==> !old(poisoned) && Works(io)
    {
      var root := tree.Root();
      var cp := Checkpoint(Origin(k.node), |tree.leaves|, root, stamp.bootId, stamp.wallTime, counter + 1, Software);
      assert cp == NextCheckpoint(k, View(), stamp);
      var env := k.signCheckpoint(cp);
      if poisoned {
        return Err(RollbackFailed);
      }
      CommitFields(k, s, View(), stamp, EndingOf(io, Frame(k.h, env)));
      var written;
      checkpoints, written := AppendFrame(checkpoints, Frame(k.h, env), io);
      if written.Err? {
        poisoned := written.error.RollbackFailed?;
        return Err(written.error);
      }
      counter := cp.counter;
      lastCheckpointSize := cp.size;
      r := Ok(env);
    }
  }

  /** Creates a ledger whose first event is GENESIS; refused when there is an event log already. */
  method CreateLedger(k: Keys, events: seq<byte>, draft: EventDraft, stamp: Stamp, io: Io)
    returns (ledger: Ledger?, r: Result<(), AppendError>)
    ensures ledger != null ==> fresh(ledger) && fresh(ledger.tree) && ledger.Valid() && ledger.k == k
    ensures ledger != null && r.Ok? ==> ledger.Represents(Created(k, Event(0, stamp, draft, ZERO)))
    ensures !CanCreate(events) ==> ledger == null
    ensures CanCreate(events) ==>
              var end := EndingOf(io, Frame(k.h, k.signEvent(Event(0, stamp, draft, ZERO))));
              && ledger != null && ledger.Represents(Step(k, Nothing(), Action.Append(draft, stamp, end)))
              && (r.Ok? <==> end.Written?)
  {
    if events != [] {
      return null, Err(Failed);
    }
    var tree := new Tree(k.h);
    assert tree.leaves == Leaves(k.h, []);
    ledger := new Ledger(k, tree, Replayed([], [], ZERO, 0, 0, [], 0, 0), [], []);
    assert ledger.Represents(Nothing());
    var appended := ledger.Append(draft, stamp, io, Nothing());
    CreateIsAppend(k, draft, stamp);
    r := if appended.Ok? then Ok(()) else Err(appended.error);
  }

  /** Cuts the torn tail off a log; the tail is kept in a quarantine file. */
  method Trim(data: seq<byte>, covered: nat, torn: nat) returns (kept: seq<byte>, tail: seq<byte>)
    requires covered + torn == |data|
    ensures kept == data[..covered] && data == kept + tail
  {
    kept, tail := data, [];
    if torn > 0 {
      kept, tail := data[..covered], data[covered..];
    }
  }

  /** What opening leaves in the files and builds in memory. */
  lemma OpenFields(k: Keys, s: Sys)
    ensures var r := ReplayLogs(k, s.checkpoints, s.events, false);
            var t := OpenStep(k, s);
            if r.Err? || r.value.events == [] then t.mem.None?
            else
              && r.value.covered <= |s.events| && r.value.cpCovered <= |s.checkpoints|
              && t.events == s.events[..r.value.covered] && t.checkpoints == s.checkpoints[..r.value.cpCovered]
              && t.mem == Some(Reopened(k, r.value)) && t.history == r.value.events
  {
    if ReplayLogs(k, s.checkpoints, s.events, false).Ok? {
      ReplayBounds(k, s.checkpoints, s.events, false);
    }
  }

  /** What opening found, and the torn bytes it moved to quarantine files. */
  datatype OpenReport = OpenReport(events: seq<Event>, checkpoints: nat, torn: seq<byte>, cpTorn: seq<byte>)

  /**
   Opens a ledger for appending. Trimming never destroys bytes: each trimmed log followed by its quarantined tail is
   the log that was found.
   */
  method OpenLedger(k: Keys, events: seq<byte>, checkpoints: seq<byte>, ghost s: Sys)
    returns (ledger: Ledger?, r: Result<OpenReport, LedgerError>)
    requires s.events == events && s.checkpoints == checkpoints
    ensures ledger != null <==> r.Ok?
    ensures ledger == null ==> OpenStep(k, s).mem.None?
    ensures ledger != null ==>
              && fresh(ledger) && fresh(ledger.tree) && ledger.Valid() && ledger.k == k
              && ledger.Represents(OpenStep(k, s))
              && r.value.events == OpenStep(k, s).history
              && events == ledger.events + r.value.torn
              && checkpoints == ledger.checkpoints + r.value.cpTorn
  {
    var replayed, tree := Run(k, checkpoints, events, false);
    if replayed.Err? {
      return null, Err(replayed.error);
    }
    var found := replayed.value;
    if found.events == [] {
      return null, Err(Empty);
    }
    ReplayBounds(k, checkpoints, events, false);
    OpenFields(k, s);
    var kept, tail := Trim(events, found.covered, found.torn);
    var cpKept, cpTail := Trim(checkpoints, found.cpCovered, found.cpTorn);
    ledger := new Ledger(k, tree, found, kept, cpKept);
    r := Ok(OpenReport(found.events, |found.checkpoints|, tail, cpTail));
  }
}
