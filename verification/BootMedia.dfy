/**
 How the boot state is kept on a medium: the new state is written beside the old one, synced, and renamed over it. Any
 call can fail, and power can go at any point, including in the middle of a rename, when the old file is gone and the
 new one is not in its place yet (which is what FAT volumes leave behind).
 */
module BootMedia {
  import opened Wrappers
  import opened Hashing
  import opened BootCodec

  /** The state file and the `.new` file beside it. */
  datatype Disk = Disk(file: Option<seq<byte>>, pending: Option<seq<byte>>)

  datatype StateRead = Fresh | Loaded(state: State) | Recovered(state: State) | Damaged

  function ReadState(d: Disk): StateRead {
    match d.file
    case Some(b) => if ParseState(b).Some? then Loaded(ParseState(b).value) else Damaged
    case None =>
      match d.pending
      case Some(b) => if ParseState(b).Some? then Recovered(ParseState(b).value) else Fresh
      case None => Fresh
  }

  /** How one call ends: it works, it returns an error, or the power goes. */
  datatype Call = Works | Errs | Dies

  /** How every call of one attempt ends; `written` bytes reach the file when writing or syncing does not work. */
  datatype Faults = Faults(
    readPending: Call, promote: Call, removeTorn: Call, create: Call, write: Call, written: nat, sync: Call,
    rename: Call, gap: bool, syncDir: Call, cleanup: Call)

  datatype Outcome = Going | Done | Failed | Dead

  datatype After = After(disk: Disk, outcome: Outcome)

  function Ending(c: Call): Outcome {
    match c
    case Works => Going
    case Errs => Failed
    case Dies => Dead
  }

  /** Makes a complete `.new` with no state file beside it the state file; removes a torn one. */
  function Promoted(d: Disk, f: Faults): After {
    if d.file.Some? || d.pending.None? then After(d, Going)
    else if !f.readPending.Works? then After(d, Ending(f.readPending))
    else if ParseState(d.pending.value).Some? then
      if f.promote.Works? then After(Disk(d.pending, None), Going) else After(d, Ending(f.promote))
    else if f.removeTorn.Works? then After(d.(pending := None), Going)
    else After(d, if f.removeTorn.Dies? then Dead else Going)
  }

  /** Writes and syncs the `.new` file. */
  function Staged(d: Disk, bytes: seq<byte>, f: Faults): After {
    var part := bytes[..if f.written < |bytes| then f.written else |bytes|];
    if !f.create.Works? then After(d, Ending(f.create))
    else if !f.write.Works? then After(d.(pending := Some(part)), Ending(f.write))
    else if !f.sync.Works? then After(d.(pending := Some(part)), Ending(f.sync))
    else After(d.(pending := Some(bytes)), Going)
  }

  /** Renames the `.new` file over the state file and syncs the directory. */
  function Replaced(d: Disk, f: Faults): After {
    if !f.rename.Works? then After(if f.gap then d.(file := None) else d, Ending(f.rename))
    else After(Disk(d.pending, None), if f.syncDir.Works? then Done else Ending(f.syncDir))
  }

  /** A failed attempt removes the `.new` file if the state file is there. */
  function Cleaned(a: After, f: Faults): After {
    if a.outcome.Failed? && a.disk.file.Some? then
      if f.cleanup.Works? then After(a.disk.(pending := None), Failed)
      else After(a.disk, if f.cleanup.Dies? then Dead else Failed)
    else a
  }

  function Written(d: Disk, s: State, f: Faults): After {
    var p := Promoted(d, f);
    if !p.outcome.Going? then p
    else
      var w := Staged(p.disk, StateBytes(s), f);
      Cleaned(if w.outcome.Going? then Replaced(w.disk, f) else w, f)
  }

  class Medium {
    var file: Option<seq<byte>>
    var pending: Option<seq<byte>>

    ghost function Value(): Disk
      reads this
    {
      Disk(file, pending)
    }

    constructor (d: Disk)
      ensures Value() == d
    {
      file, pending := d.file, d.pending;
    }

    method PromoteRecovered(f: Faults) returns (o: Outcome)
      modifies this
      ensures After(Value(), o) == Promoted(old(Value()), f)
    {
      if file.Some? || pending.None? {
        return Going;
      }
      if !f.readPending.Works? {
        return Ending(f.readPending);
      }
      if ParseState(pending.value).Some? {
        if !f.promote.Works? {
          return Ending(f.promote);
        }
        file, pending := pending, None;
        return Going;
      }
      if f.removeTorn.Works? {
        pending := None;
      }
      o := if f.removeTorn.Dies? then Dead else Going;
    }

    method WriteState(s: State, f: Faults) returns (o: Outcome)
      modifies this
      ensures After(Value(), o) == Written(old(Value()), s, f)
    {
      o := PromoteRecovered(f);
      if !o.Going? {
        return;
      }
      o := Replace(StateBytes(s), f);
      if o.Failed? && file.Some? {
        if f.cleanup.Works? {
          pending := None;
        } else if f.cleanup.Dies? {
          o := Dead;
        }
      }
    }

    method Replace(bytes: seq<byte>, f: Faults) returns (o: Outcome)
      modifies this
      ensures var w := Staged(old(Value()), bytes, f);
              After(Value(), o) == if w.outcome.Going? then Replaced(w.disk, f) else w
    {
      if !f.create.Works? {
        return Ending(f.create);
      }
      pending := Some([]);
      if !f.write.Works? || !f.sync.Works? {
        pending := Some(bytes[..if f.written < |bytes| then f.written else |bytes|]);
        return Ending(if f.write.Works? then f.sync else f.write);
      }
      pending := Some(bytes);
      if !f.rename.Works? {
        if f.gap {
          file := None;
        }
        return Ending(f.rename);
      }
      file, pending := pending, None;
      o := if f.syncDir.Works? then Done else Ending(f.syncDir);
    }
  }

  // ----- Crash safety -----

  /** A complete encoding of a state. */
  ghost predicate Complete(b: seq<byte>) {
    exists s :: Storable(s) && b == StateBytes(s)
  }

  /** A piece of one, from its beginning. */
  ghost predicate Piece(b: seq<byte>) {
    exists s, n: nat :: Storable(s) && n <= |StateBytes(s)| && b == StateBytes(s)[..n]
  }

  /** The state file is never torn; the `.new` file may be. */
  ghost predicate Sane(d: Disk) {
    && (d.file.Some? ==> Complete(d.file.value))
    && (d.pending.Some? ==> Piece(d.pending.value))
  }

  /** The state a boot would find. */
  function Current(d: Disk): Option<State> {
    match ReadState(d)
    case Loaded(s) => Some(s)
    case Recovered(s) => Some(s)
    case _ => None
  }

  lemma CompleteParses(b: seq<byte>)
    requires Complete(b)
    ensures ParseState(b).Some?
  {
    var s :| Storable(s) && b == StateBytes(s);
    StateRoundTrip(s);
  }

  /** A piece that parses is complete: truncated encodings never parse. */
  lemma PieceParses(b: seq<byte>)
    requires Piece(b) && ParseState(b).Some?
    ensures Complete(b)
  {
    var s, n: nat :| Storable(s) && n <= |StateBytes(s)| && b == StateBytes(s)[..n];
    if n < |StateBytes(s)| {
      TruncatedState(s, n);
    } else {
      assert b == StateBytes(s);
    }
  }

  lemma SaneNeverDamaged(d: Disk)
    requires Sane(d)
    ensures !ReadState(d).Damaged?
    ensures d.file.Some? ==> Current(d).Some?
  {
    if d.file.Some? {
      CompleteParses(d.file.value);
    }
  }

  /** A state file that does not parse is damage; it is never taken for a medium without one. */
  lemma DamageIsReported(d: Disk)
    ensures ReadState(d).Damaged? <==> d.file.Some? && ParseState(d.file.value).None?
    ensures ReadState(d).Fresh? ==> d.file.None?
    ensures ReadState(d).Loaded? ==> d.file.Some? && ParseState(d.file.value) == Some(ReadState(d).state)
    ensures ReadState(d).Recovered? ==>
              d.file.None? && d.pending.Some? && ParseState(d.pending.value) == Some(ReadState(d).state)
  {
  }

  lemma PromotedKeeps(d: Disk, f: Faults)
    requires Sane(d)
    ensures Sane(Promoted(d, f).disk) && Current(Promoted(d, f).disk) == Current(d)
    ensures Promoted(d, f).outcome.Going? && Current(d).Some? ==> Promoted(d, f).disk.file.Some?
  {
    if d.file.None? && d.pending.Some? && ParseState(d.pending.value).Some? {
      PieceParses(d.pending.value);
    }
  }

  /** A piece of the new state beside the old one, or the whole of it, reads as one of the two. */
  lemma PieceBeside(d: Disk, s: State, n: nat)
    requires Sane(d) && Storable(s) && n <= |StateBytes(s)| && (Current(d).Some? ==> d.file.Some?)
    ensures var e := d.(pending := Some(StateBytes(s)[..n]));
            Sane(e) && (Current(e) == Current(d) || Current(e) == Some(s))
  {
    var e := d.(pending := Some(StateBytes(s)[..n]));
    assert Piece(e.pending.value);
    if d.file.None? {
      if n < |StateBytes(s)| {
        TruncatedState(s, n);
      } else {
        assert e.pending.value == StateBytes(s);
        StateRoundTrip(s);
      }
    }
  }

  /** A complete new state, renamed over the old one or left beside a gap, reads as itself. */
  lemma ReplacedKeeps(d: Disk, s: State, f: Faults)
    requires Sane(d) && Storable(s) && d.pending == Some(StateBytes(s))
    ensures var a := Replaced(d, f);
            && Sane(a.disk)
            && (Current(a.disk) == Current(d) || Current(a.disk) == Some(s))
            && (a.outcome.Done? ==> Current(a.disk) == Some(s) && a.disk.file.Some?)
  {
    StateRoundTrip(s);
    assert Complete(StateBytes(s));
  }

  lemma StagedKeeps(d: Disk, s: State, f: Faults)
    requires Sane(d) && Storable(s) && (Current(d).Some? ==> d.file.Some?)
    ensures var a := Staged(d, StateBytes(s), f);
            && Sane(a.disk)
            && (Current(a.disk) == Current(d) || Current(a.disk) == Some(s))
            && (a.outcome.Going? ==> a.disk.pending == Some(StateBytes(s)))
            && !a.outcome.Done?
  {
    var bytes := StateBytes(s);
    if f.create.Works? {
      if f.write.Works? && f.sync.Works? {
        PieceBeside(d, s, |bytes|);
        assert bytes[..|bytes|] == bytes;
      } else {
        PieceBeside(d, s, if f.written < |bytes| then f.written else |bytes|);
      }
    }
  }

  lemma CleanedKeeps(a: After, f: Faults)
    requires Sane(a.disk)
    ensures Sane(Cleaned(a, f).disk) && Current(Cleaned(a, f).disk) == Current(a.disk)
    ensures Cleaned(a, f).outcome.Done? <==> a.outcome.Done?
  {
  }

  /**
   Atomicity: however an attempt ends, a boot finds the previous state or the new one; a completed one, the new one.
   */
  lemma WriteIsAtomic(d: Disk, s: State, f: Faults)
    requires Sane(d) && Storable(s)
    ensures var a := Written(d, s, f);
            && Sane(a.disk)
            && (Current(a.disk) == Current(d) || Current(a.disk) == Some(s))
            && (a.outcome.Done? ==> Current(a.disk) == Some(s))
  {
    PromotedKeeps(d, f);
    var p := Promoted(d, f);
    if p.outcome.Going? {
      StagedKeeps(p.disk, s, f);
      var w := Staged(p.disk, StateBytes(s), f);
      if w.outcome.Going? {
        ReplacedKeeps(w.disk, s, f);
        CleanedKeeps(Replaced(w.disk, f), f);
      } else {
        CleanedKeeps(w, f);
      }
    }
  }

  /** Nothing is left beside the state file by a completed attempt, or by one that failed and could clean up. */
  lemma NothingLeftBeside(d: Disk, s: State, f: Faults)
    ensures var a := Written(d, s, f);
            && (a.outcome.Done? ==> a.disk.pending.None? && a.disk.file == Some(StateBytes(s)))
            && (a.outcome.Failed? && Promoted(d, f).outcome.Going? && a.disk.file.Some? && f.cleanup.Works? ==>
                  a.disk.pending.None?)
  {
  }

  // ----- Any number of attempts -----

  datatype Attempt = Attempt(state: State, faults: Faults)

  function RunAttempts(d: Disk, attempts: seq<Attempt>): Disk
    decreases |attempts|
  {
    if attempts == [] then d
    else RunAttempts(Written(d, attempts[0].state, attempts[0].faults).disk, attempts[1..])
  }

  predicate AllStorable(attempts: seq<Attempt>) {
    forall i :: 0 <= i < |attempts| ==> Storable(attempts[i].state)
  }

  /** The state was tried by one of the attempts. */
  predicate Tried(attempts: seq<Attempt>, s: Option<State>) {
    exists i :: 0 <= i < |attempts| && s == Some(attempts[i].state)
  }

  /**
   After any number of attempts, each ending in any way, the state file is never damaged, and a boot finds the state
   from before or one that was being written. So a medium that ever held a state never reads as fresh again.
   */
  lemma {:induction false} AttemptsAreSafe(d: Disk, attempts: seq<Attempt>)
    requires Sane(d) && AllStorable(attempts)
    ensures var e := RunAttempts(d, attempts);
            && Sane(e) && !ReadState(e).Damaged?
            && (Current(e) == Current(d) || Tried(attempts, Current(e)))
            && (Current(d).Some? ==> !ReadState(e).Fresh?)
    decreases |attempts|
  {
    SaneNeverDamaged(d);
    if attempts != [] {
      var first, rest := attempts[0], attempts[1..];
      WriteIsAtomic(d, first.state, first.faults);
      var e := Written(d, first.state, first.faults).disk;
      AttemptsAreSafe(e, rest);
      var end := RunAttempts(e, rest);
      if Tried(rest, Current(end)) {
        var i :| 0 <= i < |rest| && Current(end) == Some(rest[i].state);
        assert Current(end) == Some(attempts[i + 1].state);
      } else if Current(end) == Some(first.state) {
        assert Tried(attempts, Current(end));
      }
    }
  }

  /** A completed write is lost to nothing but a later write: a boot finds it, or a state attempted after it. */
  lemma CompletedWriteStays(d: Disk, s: State, f: Faults, later: seq<Attempt>)
    requires Sane(d) && Storable(s) && Written(d, s, f).outcome.Done? && AllStorable(later)
    ensures var e := RunAttempts(Written(d, s, f).disk, later);
            Current(e) == Some(s) || Tried(later, Current(e))
  {
    WriteIsAtomic(d, s, f);
    AttemptsAreSafe(Written(d, s, f).disk, later);
  }
}
