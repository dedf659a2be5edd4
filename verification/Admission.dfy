/** The admission state machine and the shortest legal routes through it. */
module Admission {
  import opened Wrappers
  import opened Model
  import opened Search

  predicate CanBecome(from: AdmissionState, to: AdmissionState) {
    if from == to then true
    else
      match (from, to)
      case (_, Revoked) => true
      case (Unknown, Quarantined) => true
      case (Unknown, Observed) => true
      case (Unknown, Verified) => true
      case (Unknown, PolicyBlocked) => true
      case (Quarantined, Observed) => true
      case (Quarantined, Verified) => true
      case (Quarantined, PolicyBlocked) => true
      case (Observed, Verified) => true
      case (Observed, Quarantined) => true
      case (Observed, PolicyBlocked) => true
      case (Verified, Admitted) => true
      case (Verified, Degraded) => true
      case (Verified, Quarantined) => true
      case (Verified, PolicyBlocked) => true
      case (Admitted, Degraded) => true
      case (Admitted, Quarantined) => true
      case (Admitted, PolicyBlocked) => true
      case (Degraded, Quarantined) => true
      case (Degraded, Verified) => true
      case (Degraded, Observed) => true
      case (Degraded, PolicyBlocked) => true
      case (PolicyBlocked, Quarantined) => true
      case _ => false
  }

  predicate PermitsNormalExecution(s: AdmissionState) {
    s.Verified? || s.Admitted?
  }

  const ALL: seq<AdmissionState> :=
    [Unknown, Quarantined, Observed, Verified, Admitted, Degraded, Revoked, PolicyBlocked]

  lemma AllStates(s: AdmissionState)
    ensures s in ALL
  {
    assert ALL[0] == Unknown && ALL[1] == Quarantined && ALL[2] == Observed && ALL[3] == Verified;
    assert ALL[4] == Admitted && ALL[5] == Degraded && ALL[6] == Revoked && ALL[7] == PolicyBlocked;
  }

  /** The shortest legal route between two states; none exactly when there is none. */
  method Route(from: AdmissionState, to: AdmissionState) returns (r: Option<seq<AdmissionState>>)
    ensures r.Some? ==> Shortest(CanBecome, from, r.value, to)
    ensures r.Some? <==> Reachable(from, to)
    ensures r.Some? ==> |r.value| == Distance(from, to)
  {
    forall s: AdmissionState ensures s in ALL {
      AllStates(s);
    }
    if Reachable(from, to) {
      assert Leads(CanBecome, from, WayTo(from, to), to);
    }
    r := ShortestPath(ALL, CanBecome, from, to);
    if r.Some? {
      ReachableOnly(from, r.value, to);
      RouteLength(from, r.value, to);
    }
  }

  /** Nothing leaves `Revoked` and nothing returns to `Unknown`; everything else is connected. */
  predicate Reachable(from: AdmissionState, to: AdmissionState) {
    from == to || (!from.Revoked? && !to.Unknown?)
  }

  lemma {:induction false} ReachableOnly(from: AdmissionState, path: seq<AdmissionState>, to: AdmissionState)
    requires Leads(CanBecome, from, path, to)
    ensures Reachable(from, to)
    decreases |path|
  {
    if path != [] {
      ReachableOnly(path[0], path[1..], to);
    }
  }

  /** Some route, where there is one. */
  function WayTo(from: AdmissionState, to: AdmissionState): (path: seq<AdmissionState>)
    requires Reachable(from, to)
    ensures Leads(CanBecome, from, path, to)
  {
    if CanBecome(from, to) then
      assert Leads(CanBecome, to, [], to);
      [to]
    else if !from.Verified? && CanBecome(from, Verified) then TwoSteps(from, Verified, to)
    else if from.PolicyBlocked? && (to.Admitted? || to.Degraded?) then
      assert Leads(CanBecome, Quarantined, TwoSteps(Quarantined, Verified, to), to);
      assert ([Quarantined] + TwoSteps(Quarantined, Verified, to))[1..] == TwoSteps(Quarantined, Verified, to);
      [Quarantined] + TwoSteps(Quarantined, Verified, to)
    else TwoSteps(from, if from.Admitted? then Degraded else Quarantined, to)
  }

  function TwoSteps(from: AdmissionState, via: AdmissionState, to: AdmissionState): (path: seq<AdmissionState>)
    requires CanBecome(from, via) && CanBecome(via, to)
    ensures Leads(CanBecome, from, path, to)
  {
    assert Leads(CanBecome, to, [], to);
    assert [via, to][1..] == [to];
    [via, to]
  }

  /** Whatever becomes admitted was verified on the way. */
  lemma {:induction false} AdmittedViaVerified(from: AdmissionState, path: seq<AdmissionState>)
    requires Leads(CanBecome, from, path, Admitted) && !from.Admitted?
    ensures Verified in [from] + path
    decreases |path|
  {
    if !from.Verified? {
      assert path != [] && !path[0].Admitted?;
      AdmittedViaVerified(path[0], path[1..]);
      assert [path[0]] + path[1..] == path;
    }
  }

  /**
   The table read by target. Everything but REVOKED can be quarantined or blocked, and everything can be revoked.
   Observation and verification start from what is not blocked and does not run already, and only what ran degrades.
   */
  lemma ByTarget(from: AdmissionState, to: AdmissionState)
    requires from != to
    ensures CanBecome(from, to) <==>
            match to
            case Revoked => true
            case Unknown => false
            case Quarantined => !from.Revoked?
            case PolicyBlocked => !from.Revoked?
            case Observed => from.Unknown? || from.Quarantined? || from.Degraded?
            case Verified => from.Unknown? || from.Quarantined? || from.Observed? || from.Degraded?
            case Admitted => from.Verified?
            case Degraded => from.Verified? || from.Admitted?
  {
  }

  /** How many steps a shortest route takes. */
  function Distance(from: AdmissionState, to: AdmissionState): nat {
    if from == to then 0
    else
      match to
      case Admitted => if from.Verified? then 1 else if from.PolicyBlocked? then 3 else 2
      case Degraded => if from.Verified? || from.Admitted? then 1 else if from.PolicyBlocked? then 3 else 2
      case Verified => if from.Admitted? || from.PolicyBlocked? then 2 else 1
      case Observed => if from.Verified? || from.Admitted? || from.PolicyBlocked? then 2 else 1
      case _ => 1
  }

  /** A step brings the target no more than one step nearer. */
  lemma OneStepNearer(from: AdmissionState, via: AdmissionState, to: AdmissionState)
    requires CanBecome(from, via) && Reachable(via, to)
    ensures Distance(from, to) <= Distance(via, to) + 1
  {
  }

  lemma {:induction false} NoShorter(from: AdmissionState, path: seq<AdmissionState>, to: AdmissionState)
    requires Leads(CanBecome, from, path, to)
    ensures Distance(from, to) <= |path|
    decreases |path|
  {
    if path != [] {
      NoShorter(path[0], path[1..], to);
      ReachableOnly(path[0], path[1..], to);
      OneStepNearer(from, path[0], to);
    }
  }

  /** Shortest routes have exactly that length: at most three steps, and three only out of POLICY_BLOCKED. */
  lemma RouteLength(from: AdmissionState, path: seq<AdmissionState>, to: AdmissionState)
    requires Shortest(CanBecome, from, path, to)
    ensures |path| == Distance(from, to) && Distance(from, to) <= if from.PolicyBlocked? then 3 else 2
  {
    NoShorter(from, path, to);
    ReachableOnly(from, path, to);
    if from == to {
      assert Leads(CanBecome, from, [], to);
    } else {
      assert Leads(CanBecome, from, WayTo(from, to), to);
      WayIsShort(from, to);
    }
  }

  lemma WayIsShort(from: AdmissionState, to: AdmissionState)
    requires Reachable(from, to) && from != to
    ensures |WayTo(from, to)| == Distance(from, to)
  {
  }
}
