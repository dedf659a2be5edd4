/** What an honest writer leaves in the logs, and what replaying it yields. */
module Honest {
  import opened Wrappers
  import opened Hashing
  import opened Framing
  import opened Model
  import opened Replay

  /** The writer's envelope of an event fits a frame, verifies and parses back. */
  predicate CanWrite(k: Keys, e: Event) {
    var env := k.signEvent(e);
    Framable(env) && k.openEvent(env) == Some(e) && k.peekEvent(env) == Some(e)
  }

  predicate CanCommit(k: Keys, cp: Checkpoint) {
    var env := k.signCheckpoint(cp);
    Framable(env) && k.openCheckpoint(env) == Some(cp)
  }

  function Envs(k: Keys, es: seq<Event>): (envs: seq<seq<byte>>)
    ensures |envs| == |es|
  {
    seq(|es|, i requires 0 <= i < |es| => k.signEvent(es[i]))
  }

  function CpEnvs(k: Keys, cps: seq<Checkpoint>): (envs: seq<seq<byte>>)
    ensures |envs| == |cps|
  {
    seq(|cps|, i requires 0 <= i < |cps| => k.signCheckpoint(cps[i]))
  }

  /** `e` continues the chain of events `before`. */
  predicate Follows(k: Keys, before: seq<Event>, e: Event) {
    && CanWrite(k, e)
    && CheckPlace(|before|, Replay.Head(k.h, Envs(k, before)), e) == None
  }

  /** A hash-linked chain of events, each in its place. */
  predicate Chain(k: Keys, es: seq<Event>) {
    forall i :: 0 <= i < |es| ==> Follows(k, es[..i], es[i])
  }

  function EventLeaves(k: Keys, es: seq<Event>): (leaves: seq<Digest>)
    ensures |leaves| == |es|
  {
    Leaves(k.h, Envs(k, es))
  }

  /** `cp` commits to a prefix of the events and follows the checkpoints `before`. */
  predicate Commits(k: Keys, es: seq<Event>, before: seq<Checkpoint>, cp: Checkpoint) {
    && CanCommit(k, cp)
    && CheckOne(k, EventLeaves(k, es), before, cp) == None
  }

  predicate AllCommit(k: Keys, es: seq<Event>, cps: seq<Checkpoint>) {
    forall j :: 0 <= j < |cps| ==> Commits(k, es, cps[..j], cps[j])
  }

  // ----- Growth -----

  lemma EnvsAppend(k: Keys, es: seq<Event>, e: Event)
    ensures Envs(k, es + [e]) == Envs(k, es) + [k.signEvent(e)]
  {
  }

  lemma CpEnvsAppend(k: Keys, cps: seq<Checkpoint>, cp: Checkpoint)
    ensures CpEnvs(k, cps + [cp]) == CpEnvs(k, cps) + [k.signCheckpoint(cp)]
  {
  }

  lemma ChainAppend(k: Keys, es: seq<Event>, e: Event)
    requires Chain(k, es) && Follows(k, es, e)
    ensures Chain(k, es + [e])
  {
    var all := es + [e];
    forall i | 0 <= i < |all| ensures Follows(k, all[..i], all[i]) {
      assert all[..i] == es[..i];
      assert es[..|es|] == es;
    }
  }

  /** A checkpoint that holds for some events holds for every extension of them. */
  lemma CommitsExtend(k: Keys, es: seq<Event>, more: seq<Event>, before: seq<Checkpoint>, cp: Checkpoint)
    requires es <= more && Commits(k, es, before, cp)
    ensures Commits(k, more, before, cp)
  {
    assert EventLeaves(k, es)[..cp.size] == EventLeaves(k, more)[..cp.size];
  }

  lemma AllCommitExtend(k: Keys, es: seq<Event>, more: seq<Event>, cps: seq<Checkpoint>)
    requires es <= more && AllCommit(k, es, cps)
    ensures AllCommit(k, more, cps)
  {
    forall j | 0 <= j < |cps| ensures Commits(k, more, cps[..j], cps[j]) {
      CommitsExtend(k, es, more, cps[..j], cps[j]);
    }
  }

  lemma AllCommitAppend(k: Keys, es: seq<Event>, cps: seq<Checkpoint>, cp: Checkpoint)
    requires AllCommit(k, es, cps) && Commits(k, es, cps, cp)
    ensures AllCommit(k, es, cps + [cp])
  {
    var all := cps + [cp];
    forall j | 0 <= j < |all| ensures Commits(k, es, all[..j], all[j]) {
      assert all[..j] == cps[..j];
      assert cps[..|cps|] == cps;
    }
  }

  // ----- Replay of honest logs -----

  lemma {:induction false} EventsPass(k: Keys, es: seq<Event>, trusted: nat, i: nat)
    requires Chain(k, es) && i <= |es|
    ensures CheckEvents(k, trusted, Envs(k, es), es[..i]) == Ok(es)
    decreases |es| - i
  {
    if i == |es| {
      assert es[..i] == es;
    } else {
      assert Follows(k, es[..i], es[i]);
      assert Envs(k, es)[..i] == Envs(k, es[..i]);
      assert es[..i] + [es[i]] == es[..i + 1];
      EventsPass(k, es, trusted, i + 1);
    }
  }

  lemma {:induction false} CheckpointsPass(k: Keys, es: seq<Event>, cps: seq<Checkpoint>, j: nat)
    requires AllCommit(k, es, cps) && j <= |cps|
    ensures CheckCheckpoints(k, EventLeaves(k, es), cps[..j], CpEnvs(k, cps)[j..]) == Ok(cps)
    decreases |cps| - j
  {
    var frames := CpEnvs(k, cps)[j..];
    if j == |cps| {
      assert cps[..j] == cps;
    } else {
      assert Commits(k, es, cps[..j], cps[j]);
      assert frames[0] == k.signCheckpoint(cps[j]) && frames[1..] == CpEnvs(k, cps)[j + 1..];
      assert cps[..j] + [cps[j]] == cps[..j + 1];
      CheckpointsPass(k, es, cps, j + 1);
    }
  }

  /** The logs of an honest writer, with an incomplete frame at the end of each. */
  predicate HonestLogs(k: Keys, es: seq<Event>, cps: seq<Checkpoint>, eventData: seq<byte>, cpData: seq<byte>) {
    && Chain(k, es)
    && AllCommit(k, es, cps)
    && HonestLog(k.h, Envs(k, es), eventData)
    && HonestLog(k.h, CpEnvs(k, cps), cpData)
  }

  predicate HonestLog(h: Sha, envs: seq<seq<byte>>, data: seq<byte>) {
    Frames(h, envs) <= data && FrontOf(h, data[|Frames(h, envs)|..]) == Torn
  }

  lemma HonestSplit(h: Sha, envs: seq<seq<byte>>, data: seq<byte>)
    requires AllFramable(envs) && HonestLog(h, envs, data)
    ensures var n := |Frames(h, envs)|;
            SplitLog(h, data) == Ok(Split(envs, n, |data| - n))
  {
    var n := |Frames(h, envs)|;
    AfterPrefix(Frames(h, envs), data);
    SplitAfterFrames(h, [], 0, envs, data[n..]);
    assert [] + envs == envs;
  }

  lemma AfterPrefix(a: seq<byte>, data: seq<byte>)
    requires a <= data
    ensures data == a + data[|a|..]
  {
  }

  lemma ChainFramable(k: Keys, es: seq<Event>)
    requires Chain(k, es)
    ensures AllFramable(Envs(k, es))
  {
    forall i | 0 <= i < |es| ensures Framable(Envs(k, es)[i]) {
      assert Follows(k, es[..i], es[i]);
    }
  }

  lemma CommitFramable(k: Keys, es: seq<Event>, cps: seq<Checkpoint>)
    requires AllCommit(k, es, cps)
    ensures AllFramable(CpEnvs(k, cps))
  {
    forall j | 0 <= j < |cps| ensures Framable(CpEnvs(k, cps)[j]) {
      assert Commits(k, es, cps[..j], cps[j]);
    }
  }

  function HonestReplay(k: Keys, es: seq<Event>, cps: seq<Checkpoint>, eventData: seq<byte>, cpData: seq<byte>)
    : Replayed
    requires HonestLogs(k, es, cps, eventData, cpData)
  {
    var n, m := |Frames(k.h, Envs(k, es))|, |Frames(k.h, CpEnvs(k, cps))|;
    Replayed(es, Envs(k, es), Replay.Head(k.h, Envs(k, es)), |eventData| - n, n, cps, |cpData| - m, m)
  }

  /** Replaying honest logs succeeds, fully or fast, and yields exactly what was written. */
  lemma ReplayHonest(k: Keys, es: seq<Event>, cps: seq<Checkpoint>, eventData: seq<byte>, cpData: seq<byte>, full: bool)
    requires HonestLogs(k, es, cps, eventData, cpData)
    ensures ReplayLogs(k, cpData, eventData, full) == Ok(HonestReplay(k, es, cps, eventData, cpData))
  {
    ChainFramable(k, es);
    CommitFramable(k, es, cps);
    HonestSplit(k.h, Envs(k, es), eventData);
    HonestSplit(k.h, CpEnvs(k, cps), cpData);
    CheckpointsPass(k, es, cps, 0);
    assert cps[..0] == [] && CpEnvs(k, cps)[0..] == CpEnvs(k, cps);
    EventsPass(k, es, TrustedPrefix(full, cps), 0);
    assert es[..0] == [];
  }
}
