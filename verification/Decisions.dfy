/** The decision function: what policy, evidence and approvals make of one artifact. */
module Decisions {
  import opened Wrappers
  import opened Model
  import opened Admission
  import opened PolicyRules

  datatype Capability =
    | FsRead(path: string) | FsWrite(path: string) | NetConnect(host: string, port: nat)
    | NetListen(host: string, port: nat) | DevAudio | DevGpu | DevUsb(deviceClass: string) | ProcSpawn(epn: string)
    | IpcDbus(name: string) | HostServiceControl(service: string) | KernelModuleLoad | RawNetwork | RawBlockWrite

  predicate HighRisk(c: Capability) {
    c.KernelModuleLoad? || c.RawNetwork? || c.RawBlockWrite? || c.HostServiceControl? || c.DevUsb?
  }

  datatype Artifact = Artifact(id: string, artifactClass: Class, provenance: Provenance)

  datatype Approval = Approval(epn: string, expiresAt: nat, cell: Cell, network: Network, capabilities: seq<Capability>)

  /** Everything a decision may depend on; `revoked` says whether an active revocation names the artifact. */
  datatype Facts = Facts(
    artifact: Artifact, evidence: seq<EvidenceKind>, requested: seq<Capability>, prior: Option<AdmissionState>,
    revoked: bool, approval: Option<Approval>)

  /** What the operator is asked. */
  datatype Question =
    | SignatureDidNotVerify | AllowTier(tier: PolicyRules.Name) | SetuidUntrusted | Requests(c: Capability)

  datatype Decision = Decision(
    state: AdmissionState, cell: Cell, network: Network, capabilities: set<Capability>, reasons: set<ReasonCode>,
    basis: Basis, needsUser: Option<Question>)

  predicate Applies(a: Approval, id: string, now: nat) {
    a.epn == id && now < a.expiresAt
  }

  predicate Approved(f: Facts, now: nat) {
    f.approval.Some? && Applies(f.approval.value, f.artifact.id, now)
  }

  /** Reduces a network mode to what a cell may hold. */
  function CapNetwork(c: Cell, n: Network): Network {
    if c.Cell0? then NoNetwork
    else if c.Cell1? && NetworkRank(n) > NetworkRank(DestinationAllowlist) then DestinationAllowlist
    else n
  }

  predicate TierMatches(t: Tier, f: Facts) {
    && (t.classes == [] || f.artifact.artifactClass in t.classes)
    && Satisfies(f.artifact.provenance, t.maxProvenance)
    && forall i :: 0 <= i < |t.requireEvidence| ==> t.requireEvidence[i] in f.evidence
  }

  predicate IsCryptographic(k: EvidenceKind) {
    k.SignatureValid? || k.PackageSignature? || k.ReproducibleMatch?
  }

  function TierBasis(t: Tier): Basis {
    if exists i :: 0 <= i < |t.requireEvidence| && IsCryptographic(t.requireEvidence[i]) then Cryptographic
    else if PermitsNormalExecution(t.state) then ByPolicy
    else NoBasis
  }

  // ----- The specification -----

  /** The first tier that matches; the last one when none does. */
  function DecidingTier(tiers: seq<Tier>, f: Facts): (t: Tier)
    requires tiers != []
    ensures t in tiers
    ensures MatchesAll(tiers[|tiers| - 1]) ==> TierMatches(t, f)
  {
    if |tiers| == 1 || TierMatches(tiers[0], f) then tiers[0] else DecidingTier(tiers[1..], f)
  }

  function Confined(state: AdmissionState, reason: ReasonCode, basis: Basis): Decision {
    Decision(state, Cell0, NoNetwork, {}, {reason}, basis, None)
  }

  /** What no tier and no approval can change. */
  function Overriding(p: Policy, f: Facts): Option<Decision> {
    if f.revoked || RevocationHit in f.evidence then Some(Confined(Revoked, WasRevoked, ByPolicy))
    else if f.prior == Some(Revoked) then Some(Confined(Revoked, PreviouslyRevoked, ByPolicy))
    else if ContentDigestMismatch in f.evidence then
      Some(Confined(
             if f.prior == Some(Verified) || f.prior == Some(Admitted) then Degraded else Quarantined,
             ContentChanged, NoBasis))
    else if ForbiddenBehavior in f.evidence || f.artifact.artifactClass in p.blockClasses then
      Some(Confined(PolicyBlocked, PolicyProhibition, ByPolicy))
    else None
  }

  function BaseDecision(p: Policy, f: Facts): Decision
    requires p.tiers != []
  {
    if SignatureInvalid in f.evidence then
      Confined(Quarantined, BadSignature, NoBasis).(needsUser := Some(SignatureDidNotVerify))
    else
      var t := DecidingTier(p.tiers, f);
      Decision(t.state, t.cell, t.network, {}, {t.reason}, TierBasis(t),
               if t.needsUser then Some(AllowTier(t.name)) else None)
  }

  function GuardSetuid(p: Policy, f: Facts, d: Decision): Decision {
    if SetuidBit in f.evidence && !Satisfies(f.artifact.provenance, p.setuidMinProvenance) then
      Decision(Quarantined, Cell0, NoNetwork, d.capabilities, d.reasons + {SetuidExecutable}, NoBasis,
               Some(SetuidUntrusted))
    else d
  }

  function GuardWritable(p: Policy, f: Facts, d: Decision): Decision {
    if WritablePath in f.evidence && CellRank(d.cell) > CellRank(p.writablePathMaxCell) then
      d.(cell := p.writablePathMaxCell, network := CapNetwork(p.writablePathMaxCell, d.network),
         reasons := d.reasons + {WritableLocation, CellCapped})
    else d
  }

  function FirstHighRisk(requested: seq<Capability>): Option<Capability> {
    if requested == [] then None
    else if HighRisk(requested[0]) then Some(requested[0])
    else FirstHighRisk(requested[1..])
  }

  function GrantRequested(f: Facts, d: Decision): Decision {
    if PermitsNormalExecution(d.state) && !d.cell.Cell0? then
      var risky := FirstHighRisk(f.requested);
      d.(capabilities := (set c | c in f.requested && !HighRisk(c)),
         reasons := if risky.Some? then d.reasons + {HighRiskCapability} else d.reasons,
         needsUser := if d.needsUser.None? && risky.Some? then Some(Requests(risky.value)) else d.needsUser)
    else d
  }

  function LowerCell(a: Cell, b: Cell): Cell {
    if CellRank(a) <= CellRank(b) then a else b
  }

  function Approve(p: Policy, a: Approval, d: Decision): Decision {
    var cell := LowerCell(a.cell, p.maxManualCell);
    Decision(
      Admitted, cell, CapNetwork(cell, a.network),
      if cell.Cell0? then {} else (set c | c in a.capabilities),
      d.reasons + {OperatorAuthorized} + (if CellRank(a.cell) > CellRank(p.maxManualCell) then {CellCapped} else {}),
      if PermitsNormalExecution(d.state) then d.basis else ManualOverride,
      None)
  }

  /** The decision without any approval. */
  function Unapproved(p: Policy, f: Facts): Decision
    requires p.tiers != []
  {
    GrantRequested(f, GuardWritable(p, f, GuardSetuid(p, f, BaseDecision(p, f))))
  }

  function Decide(p: Policy, f: Facts, now: nat): Decision
    requires p.tiers != []
  {
    if Overriding(p, f).Some? then Overriding(p, f).value
    else if Approved(f, now) then Approve(p, f.approval.value, Unapproved(p, f))
    else Unapproved(p, f)
  }

  // ----- The program -----

  lemma {:induction false} FirstMatch(tiers: seq<Tier>, f: Facts, i: nat)
    requires i < |tiers| && (forall j :: 0 <= j < i ==> !TierMatches(tiers[j], f))
    requires TierMatches(tiers[i], f) || i == |tiers| - 1
    ensures DecidingTier(tiers, f) == tiers[i]
    decreases i
  {
    if i > 0 {
      forall j | 0 <= j < i - 1 ensures !TierMatches(tiers[1..][j], f) {
        assert tiers[1..][j] == tiers[j + 1];
      }
      FirstMatch(tiers[1..], f, i - 1);
    }
  }

  method FindTier(tiers: seq<Tier>, f: Facts) returns (t: Tier)
    requires tiers != []
    ensures t == DecidingTier(tiers, f)
  {
    for i := 0 to |tiers|
      invariant forall j :: 0 <= j < i ==> !TierMatches(tiers[j], f)
    {
      if TierMatches(tiers[i], f) {
        FirstMatch(tiers, f, i);
        return tiers[i];
      }
    }
    FirstMatch(tiers, f, |tiers| - 1);
    t := tiers[|tiers| - 1];
  }

  lemma {:induction false} FirstHighRiskAppend(requested: seq<Capability>, i: nat)
    requires i < |requested|
    ensures FirstHighRisk(requested[..i + 1]) ==
            if FirstHighRisk(requested[..i]).Some? then FirstHighRisk(requested[..i])
            else if HighRisk(requested[i]) then Some(requested[i]) else None
    decreases |requested|
  {
    if i > 0 {
      assert requested[..i + 1][1..] == requested[1..][..i] && requested[..i][1..] == requested[1..][..i - 1];
      FirstHighRiskAppend(requested[1..], i - 1);
    } else {
      assert requested[..1][1..] == [];
    }
  }

  /** Goes through the requested capabilities, keeping the ordinary ones. */
  method Sift(requested: seq<Capability>, reasons: set<ReasonCode>, needsUser: Option<Question>)
    returns (caps: set<Capability>, reasons': set<ReasonCode>, needsUser': Option<Question>)
    ensures caps == set c | c in requested && !HighRisk(c)
    ensures reasons' == if FirstHighRisk(requested).Some? then reasons + {HighRiskCapability} else reasons
    ensures needsUser' == if needsUser.None? && FirstHighRisk(requested).Some?
                          then Some(Requests(FirstHighRisk(requested).value)) else needsUser
  {
    caps, reasons', needsUser' := {}, reasons, needsUser;
    for i := 0 to |requested|
      invariant caps == set c | c in requested[..i] && !HighRisk(c)
      invariant reasons' == if FirstHighRisk(requested[..i]).Some? then reasons + {HighRiskCapability} else reasons
      invariant needsUser' == if needsUser.None? && FirstHighRisk(requested[..i]).Some?
                              then Some(Requests(FirstHighRisk(requested[..i]).value)) else needsUser
    {
      FirstHighRiskAppend(requested, i);
      var c := requested[i];
      assert requested[..i + 1] == requested[..i] + [c];
      if HighRisk(c) {
        reasons' := reasons' + {HighRiskCapability};
        if needsUser'.None? {
          needsUser' := Some(Requests(c));
        }
      } else {
        caps := caps + {c};
      }
    }
    assert requested[..|requested|] == requested;
  }

  /** Evaluates one artifact under one policy. */
  method Evaluate(p: Policy, f: Facts, now: nat) returns (d: Decision)
    requires p.tiers != []
    ensures d == Decide(p, f, now)
  {
    if f.revoked || RevocationHit in f.evidence {
      return Confined(Revoked, WasRevoked, ByPolicy);
    }
    if f.prior == Some(Revoked) {
      return Confined(Revoked, PreviouslyRevoked, ByPolicy);
    }
    if ContentDigestMismatch in f.evidence {
      var changed := if f.prior == Some(Verified) || f.prior == Some(Admitted) then Degraded else Quarantined;
      return Confined(changed, ContentChanged, NoBasis);
    }
    if ForbiddenBehavior in f.evidence || f.artifact.artifactClass in p.blockClasses {
      return Confined(PolicyBlocked, PolicyProhibition, ByPolicy);
    }
    d := EvaluateTiers(p, f);
    if Approved(f, now) {
      var a := f.approval.value;
      var wasRunning := PermitsNormalExecution(d.state);
      var cell := LowerCell(a.cell, p.maxManualCell);
      var reasons := d.reasons;
      if CellRank(a.cell) > CellRank(p.maxManualCell) {
        reasons := reasons + {CellCapped};
      }
      var caps := if cell.Cell0? then {} else set c | c in a.capabilities;
      reasons := reasons + {OperatorAuthorized};
      assert reasons == Approve(p, a, d).reasons;
      d := Decision(Admitted, cell, CapNetwork(cell, a.network), caps, reasons,
                    if wasRunning then d.basis else ManualOverride, None);
    }
  }

  /** The tiers, the guards and the requested capabilities. */
  method EvaluateTiers(p: Policy, f: Facts) returns (d: Decision)
    requires p.tiers != []
    ensures d == Unapproved(p, f)
  {
    var reasons: set<ReasonCode> := {};
    var state, cell, network, needsUser, basis := Quarantined, Cell0, NoNetwork, Some(SignatureDidNotVerify), NoBasis;
    if SignatureInvalid in f.evidence {
      reasons := {BadSignature};
    } else {
      var t := FindTier(p.tiers, f);
      reasons := {t.reason};
      state, cell, network, basis := t.state, t.cell, t.network, TierBasis(t);
      needsUser := if t.needsUser then Some(AllowTier(t.name)) else None;
    }
    assert Decision(state, cell, network, {}, reasons, basis, needsUser) == BaseDecision(p, f);
    if SetuidBit in f.evidence && !Satisfies(f.artifact.provenance, p.setuidMinProvenance) {
      state, cell, network, basis, needsUser := Quarantined, Cell0, NoNetwork, NoBasis, Some(SetuidUntrusted);
      reasons := reasons + {SetuidExecutable};
    }
    assert Decision(state, cell, network, {}, reasons, basis, needsUser) == GuardSetuid(p, f, BaseDecision(p, f));
    if WritablePath in f.evidence && CellRank(cell) > CellRank(p.writablePathMaxCell) {
      cell := p.writablePathMaxCell;
      network := CapNetwork(cell, network);
      reasons := reasons + {WritableLocation, CellCapped};
    }
    var caps: set<Capability> := {};
    if PermitsNormalExecution(state) && !cell.Cell0? {
      caps, reasons, needsUser := Sift(f.requested, reasons, needsUser);
    }
    d := Decision(state, cell, network, caps, reasons, basis, needsUser);
  }

  // ----- What every accepted policy guarantees -----

  function Prior(f: Facts): AdmissionState {
    if f.prior.Some? then f.prior.value else Unknown
  }

  lemma DecidingTierIsValid(p: Policy, rule: NameRule, f: Facts)
    requires ValidPolicy(p, rule)
    ensures ValidTier(DecidingTier(p.tiers, f)) && TierMatches(DecidingTier(p.tiers, f), f)
  {
    var t := DecidingTier(p.tiers, f);
    var i :| 0 <= i < |p.tiers| && p.tiers[i] == t;
  }

  /** Every decision can be reached from the prior state by legal transitions. */
  lemma DecisionIsReachable(p: Policy, rule: NameRule, f: Facts, now: nat)
    requires ValidPolicy(p, rule)
    ensures Reachable(Prior(f), Decide(p, f, now).state)
  {
    DecidingTierIsValid(p, rule, f);
  }

  /** What does not run normally gets CELL-0, no network and no capability; nothing is ever put into CELL-R. */
  lemma NotRunningIsConfined(p: Policy, rule: NameRule, f: Facts, now: nat)
    requires ValidPolicy(p, rule)
    ensures var d := Decide(p, f, now);
            && (!PermitsNormalExecution(d.state) ==> d.cell.Cell0? && d.network.NoNetwork? && d.capabilities == {})
            && (d.cell.Cell0? ==> d.capabilities == {})
            && !d.cell.CellR?
  {
    DecidingTierIsValid(p, rule, f);
  }

  /** What disqualifies an artifact whatever the tiers say. */
  predicate Disqualified(p: Policy, f: Facts) {
    || f.revoked || RevocationHit in f.evidence || f.prior == Some(Revoked) || ContentDigestMismatch in f.evidence
    || ForbiddenBehavior in f.evidence || f.artifact.artifactClass in p.blockClasses
  }

  /**
   Without an applicable approval an artifact runs only by a matching tier of the policy whose required evidence is
   not empty and all present, on provenance no weaker than a verified checksum, with no bad signature and no untrusted
   setuid bit. With one, it runs if and only if it is not disqualified.
   */
  lemma RunningIsJustified(p: Policy, rule: NameRule, f: Facts, now: nat)
    requires ValidPolicy(p, rule)
    ensures var d := Decide(p, f, now);
            if Approved(f, now) then PermitsNormalExecution(d.state) <==> !Disqualified(p, f)
            else PermitsNormalExecution(d.state) ==>
              var t := DecidingTier(p.tiers, f);
              && t in p.tiers && TierMatches(t, f) && d.state == t.state && t.requireEvidence != []
              && Satisfies(f.artifact.provenance, VerifiedChecksum)
              && !Disqualified(p, f) && SignatureInvalid !in f.evidence
              && (SetuidBit in f.evidence ==> Satisfies(f.artifact.provenance, p.setuidMinProvenance))
  {
    DecidingTierIsValid(p, rule, f);
  }

  /** Capabilities were asked for, or granted by an approval; high-risk ones come only from an approval. */
  lemma CapabilitiesAreGranted(p: Policy, f: Facts, now: nat, c: Capability)
    requires p.tiers != [] && c in Decide(p, f, now).capabilities
    ensures if Approved(f, now) then c in f.approval.value.capabilities else c in f.requested && !HighRisk(c)
  {
  }

  /** No approval raises an artifact above the policy's ceiling, and none lifts a prohibition or a revocation. */
  lemma ApprovalsAreBounded(p: Policy, f: Facts, now: nat)
    requires p.tiers != [] && Approved(f, now)
    ensures var d := Decide(p, f, now);
            && CellRank(d.cell) <= CellRank(p.maxManualCell) && CellRank(d.cell) <= CellRank(f.approval.value.cell)
            && (Disqualified(p, f) ==> d == Decide(p, f.(approval := None), now))
  {
  }

  // ----- Exactly what is decided -----

  /** A cell can hold a network: CELL-0 holds none, CELL-1 no more than an allowlist. */
  predicate CanHold(c: Cell, n: Network) {
    match c
    case Cell0 => n.NoNetwork?
    case Cell1 => n.NoNetwork? || n.LoopbackOnly? || n.DestinationAllowlist?
    case _ => true
  }

  /** The network that was asked for, if the cell can hold it, and otherwise the most that it can. */
  ghost predicate Capped(c: Cell, asked: Network, n: Network) {
    if CanHold(c, asked) then n == asked
    else
      && CanHold(c, n) && NetworkRank(n) <= NetworkRank(asked)
      && forall o :: CanHold(c, o) ==> NetworkRank(o) <= NetworkRank(n)
  }

  lemma CapIsCapped(c: Cell, n: Network)
    ensures Capped(c, n, CapNetwork(c, n))
  {
  }

  /** No cell but the lower of the two. */
  predicate Lower(a: Cell, b: Cell, c: Cell) {
    (c == a || c == b) && CellRank(c) <= CellRank(a) && CellRank(c) <= CellRank(b)
  }

  /** Tiers do not look at approvals. */
  lemma {:induction false} TiersIgnoreApprovals(tiers: seq<Tier>, f: Facts)
    requires tiers != []
    ensures DecidingTier(tiers, f.(approval := None)) == DecidingTier(tiers, f)
    decreases |tiers|
  {
    assert TierMatches(tiers[0], f.(approval := None)) == TierMatches(tiers[0], f);
    if |tiers| > 1 {
      TiersIgnoreApprovals(tiers[1..], f);
    }
  }

  lemma WithoutApproval(p: Policy, f: Facts, now: nat)
    requires p.tiers != [] && !Disqualified(p, f)
    ensures Decide(p, f.(approval := None), now) == Unapproved(p, f)
  {
    TiersIgnoreApprovals(p.tiers, f);
  }

  /**
   An approval that applies to an artifact that nothing disqualifies admits it, in the lower of the approved cell and
   the policy's ceiling, with the approved network as far as that cell can hold it, and with exactly the approved
   capabilities unless the cell is CELL-0. No question remains, and the basis is the operator's unless the artifact
   would run anyway.
   */
  lemma ApprovalGrants(p: Policy, f: Facts, now: nat)
    requires p.tiers != [] && Approved(f, now) && !Disqualified(p, f)
    ensures var d, a := Decide(p, f, now), f.approval.value;
            && d.state == Admitted && Lower(a.cell, p.maxManualCell, d.cell) && Capped(d.cell, a.network, d.network)
            && (forall c :: c in d.capabilities <==> !d.cell.Cell0? && c in a.capabilities)
            && d.needsUser == None
            && var without := Decide(p, f.(approval := None), now);
               && d.basis == (if without.state.Verified? || without.state.Admitted? then without.basis
                              else ManualOverride)
               && d.reasons == without.reasons + {OperatorAuthorized} +
                               (if CellRank(p.maxManualCell) < CellRank(a.cell) then {CellCapped} else {})
  {
    var d, a := Decide(p, f, now), f.approval.value;
    CapIsCapped(d.cell, a.network);
    WithoutApproval(p, f, now);
  }

  /** Evidence and provenance that a tier asks for, and its classes. */
  predicate Meets(t: Tier, f: Facts) {
    && (|t.classes| > 0 ==> exists i :: 0 <= i < |t.classes| && t.classes[i] == f.artifact.artifactClass)
    && Strength(f.artifact.provenance) <= Strength(t.maxProvenance)
    && forall e :: e in t.requireEvidence ==> e in f.evidence
  }

  /** Tier `i` is the first that the artifact meets. */
  predicate FirstMet(p: Policy, f: Facts, i: nat) {
    i < |p.tiers| && Meets(p.tiers[i], f) && forall j :: 0 <= j < i ==> !Meets(p.tiers[j], f)
  }

  lemma MeetsMatches(t: Tier, f: Facts)
    ensures Meets(t, f) <==> TierMatches(t, f)
  {
    if TierMatches(t, f) {
      forall e | e in t.requireEvidence ensures e in f.evidence {
        var i :| 0 <= i < |t.requireEvidence| && t.requireEvidence[i] == e;
      }
    }
    if Meets(t, f) {
      forall i | 0 <= i < |t.requireEvidence| ensures t.requireEvidence[i] in f.evidence {
        assert t.requireEvidence[i] in t.requireEvidence;
      }
    }
  }

  lemma FirstMetDecides(p: Policy, f: Facts, i: nat)
    requires FirstMet(p, f, i)
    ensures DecidingTier(p.tiers, f) == p.tiers[i]
  {
    forall j | 0 <= j <= i ensures Meets(p.tiers[j], f) <==> TierMatches(p.tiers[j], f) {
      MeetsMatches(p.tiers[j], f);
    }
    FirstMatch(p.tiers, f, i);
  }

  /** Some tier of a valid policy is the first that is met. */
  lemma SomeTierIsFirst(p: Policy, rule: NameRule, f: Facts) returns (i: nat)
    requires ValidPolicy(p, rule)
    ensures FirstMet(p, f, i)
  {
    DecidingTierIsValid(p, rule, f);
    i := 0;
    while !Meets(p.tiers[i], f)
      invariant i < |p.tiers| && forall j :: 0 <= j < i ==> !Meets(p.tiers[j], f)
      decreases |p.tiers| - i
    {
      if i == |p.tiers| - 1 {
        var t := DecidingTier(p.tiers, f);
        var j :| 0 <= j < |p.tiers| && p.tiers[j] == t;
        MeetsMatches(t, f);
      }
      i := i + 1;
    }
  }

  /** A tier's basis: cryptographic evidence if it asks for any, else the policy if it lets artifacts run. */
  predicate BasisOf(t: Tier, b: Basis) {
    if SignatureValid in t.requireEvidence || PackageSignature in t.requireEvidence ||
       ReproducibleMatch in t.requireEvidence then b.Cryptographic?
    else if t.state.Verified? || t.state.Admitted? then b.ByPolicy?
    else b.NoBasis?
  }

  lemma TierBasisIs(t: Tier)
    ensures BasisOf(t, TierBasis(t))
  {
  }

  /** Capabilities that need no decision of their own. */
  predicate Ordinary(c: Capability) {
    || c.FsRead? || c.FsWrite? || c.NetConnect? || c.NetListen? || c.DevAudio? || c.DevGpu? || c.ProcSpawn?
    || c.IpcDbus?
  }

  /**
   Without an approval, and with no evidence that refuses the artifact, the first tier it meets decides: its state and
   its basis, its cell and network or what a writable path lowers them to, and, if the artifact runs above CELL-0,
   exactly the ordinary ones of the requested capabilities. Any other request is put to the operator.
   */
  lemma TierGrants(p: Policy, f: Facts, now: nat, i: nat)
    requires FirstMet(p, f, i) && !Approved(f, now) && !Refused(p, f)
    ensures var d, t := Decide(p, f, now), p.tiers[i];
            var runs := (d.state.Verified? || d.state.Admitted?) && !d.cell.Cell0?;
            var lowered := WritablePath in f.evidence && CellRank(p.writablePathMaxCell) < CellRank(t.cell);
            var asks := runs && exists c :: c in f.requested && !Ordinary(c);
            && d.state == t.state && BasisOf(t, d.basis)
            && d.reasons == {t.reason} + (if lowered then {WritableLocation, CellCapped} else {}) +
                            (if asks then {HighRiskCapability} else {})
            && (if WritablePath in f.evidence
                then Lower(t.cell, p.writablePathMaxCell, d.cell) &&
                     (if d.cell == t.cell then d.network == t.network else Capped(d.cell, t.network, d.network))
                else d.cell == t.cell && d.network == t.network)
            && (forall c :: c in d.capabilities <==> runs && c in f.requested && Ordinary(c))
            && (d.needsUser.Some? <==> t.needsUser || asks)
            && (t.needsUser ==> d.needsUser == Some(AllowTier(t.name)))
            && (!t.needsUser && asks ==>
                  d.needsUser.value.Requests? && d.needsUser.value.c in f.requested && !Ordinary(d.needsUser.value.c))
  {
    var t := p.tiers[i];
    FirstMetDecides(p, f, i);
    TierBasisIs(t);
    CapIsCapped(p.writablePathMaxCell, t.network);
    HighRiskFound(f.requested);
    if CellRank(t.cell) == CellRank(p.writablePathMaxCell) {
      RanksAreOrder(t.cell, t.network, f.artifact.provenance);
      RanksAreOrder(p.writablePathMaxCell, t.network, f.artifact.provenance);
    }
  }

  lemma {:induction false} HighRiskFound(requested: seq<Capability>)
    ensures FirstHighRisk(requested).Some? <==> exists c :: c in requested && !Ordinary(c)
    ensures FirstHighRisk(requested).Some? ==>
              FirstHighRisk(requested).value in requested && !Ordinary(FirstHighRisk(requested).value)
    decreases |requested|
  {
    if requested != [] {
      HighRiskFound(requested[1..]);
      assert requested == [requested[0]] + requested[1..];
      assert HighRisk(requested[0]) <==> !Ordinary(requested[0]);
      assert requested[0] in requested;
    }
  }

  /** Evidence that refuses an artifact decides alone, in this order, and confines it. */
  lemma RefusalsConfine(p: Policy, f: Facts, now: nat)
    requires p.tiers != [] && Disqualified(p, f)
    ensures var d := Decide(p, f, now);
            && d.cell == Cell0 && d.network == NoNetwork && d.capabilities == {} && d.needsUser == None
            && d.state == (if f.revoked || RevocationHit in f.evidence || f.prior == Some(Revoked) then Revoked
                           else if ContentDigestMismatch in f.evidence then
                             if f.prior == Some(Verified) || f.prior == Some(Admitted) then Degraded else Quarantined
                           else PolicyBlocked)
            && d.basis == (if d.state.Degraded? || d.state.Quarantined? then NoBasis else ByPolicy)
            && d.reasons == {if f.revoked || RevocationHit in f.evidence then WasRevoked
                             else if f.prior == Some(Revoked) then PreviouslyRevoked
                             else if ContentDigestMismatch in f.evidence then ContentChanged
                             else PolicyProhibition}
  {
  }

  /** So do a bad signature and an untrusted setuid bit, unless an approval applies; the operator is asked. */
  lemma SuspicionQuarantines(p: Policy, f: Facts, now: nat)
    requires p.tiers != [] && Refused(p, f) && !Disqualified(p, f) && !Approved(f, now)
    ensures var d := Decide(p, f, now);
            && d.state == Quarantined && d.cell == Cell0 && d.network == NoNetwork && d.capabilities == {}
            && d.basis == NoBasis && d.needsUser.Some?
            && (BadSignature in d.reasons || SetuidExecutable in d.reasons)
            && (SignatureInvalid in f.evidence ==> BadSignature in d.reasons)
  {
  }

  /** Only CELL-3 for a verified package transaction, and nothing more privileged, comes without a person's decision. */
  lemma PrivilegeIsDecided(p: Policy, rule: NameRule, f: Facts, now: nat)
    requires ValidPolicy(p, rule) && !Approved(f, now)
    ensures var d := Decide(p, f, now);
            && (d.network.PrivilegedNetwork? ==> d.needsUser.Some?)
            && (d.cell.Cell3? ==>
                  d.needsUser.Some? || (ManagedInstaller in f.evidence && PackageSignature in f.evidence))
  {
    DecidingTierIsValid(p, rule, f);
    var t := DecidingTier(p.tiers, f);
    MeetsMatches(t, f);
  }

  // ----- Networks and cells -----

  predicate Fits(c: Cell, n: Network) {
    CapNetwork(c, n) == n
  }

  /** The writable-path guard applies. */
  predicate Lowered(p: Policy, f: Facts)
    requires p.tiers != []
  {
    WritablePath in f.evidence && CellRank(DecidingTier(p.tiers, f).cell) > CellRank(p.writablePathMaxCell)
  }

  /** The evidence alone keeps the artifact from running, whatever the tiers say. */
  predicate Refused(p: Policy, f: Facts) {
    || Disqualified(p, f) || SignatureInvalid in f.evidence
    || (SetuidBit in f.evidence && !Satisfies(f.artifact.provenance, p.setuidMinProvenance))
  }

  /**
   The network a decision grants fits its cell if and only if an approval applies, the evidence refuses the artifact,
   the writable-path guard lowers the cell, or the deciding tier's own network fits its own cell. Validation does not
   check the last.
   */
  lemma NetworkFitsIff(p: Policy, rule: NameRule, f: Facts, now: nat)
    requires ValidPolicy(p, rule)
    ensures var d := Decide(p, f, now);
            var t := DecidingTier(p.tiers, f);
            Fits(d.cell, d.network) <==>
            (Approved(f, now) || Refused(p, f) || Lowered(p, f) || Fits(t.cell, t.network))
  {
    DecidingTierIsValid(p, rule, f);
  }

  /** A policy all of whose tiers have a network that fits their cell grants no network beyond a cell, to anything. */
  lemma FittingTiersSuffice(p: Policy, rule: NameRule, f: Facts, now: nat)
    requires ValidPolicy(p, rule) && forall i :: 0 <= i < |p.tiers| ==> Fits(p.tiers[i].cell, p.tiers[i].network)
    ensures Fits(Decide(p, f, now).cell, Decide(p, f, now).network)
  {
    var t := DecidingTier(p.tiers, f);
    var i :| 0 <= i < |p.tiers| && p.tiers[i] == t;
    NetworkFitsIff(p, rule, f, now);
  }

  /** A valid policy can grant the full network in CELL-0. */
  lemma NetworkBeyondCell()
    ensures var runs := Tier([97], [], VerifiedChecksum, [BaselineMember], Verified, Cell0, FullUserNetwork, false,
                             DefaultTier);
            var rest := Tier([98], [], UnknownOrigin, [], Quarantined, Cell0, NoNetwork, false, DefaultTier);
            var p := Policy(1, [112], 1, [runs, rest], [], VerifiedChecksum, Cell1, Cell1);
            var f := Facts(Artifact("e", 0, Reproduced), [BaselineMember], [], None, false, None);
            && ValidPolicy(p, Strict)
            && Decide(p, f, 0).cell == Cell0 && Decide(p, f, 0).network == FullUserNetwork
  {
    var runs := Tier([97], [], VerifiedChecksum, [BaselineMember], Verified, Cell0, FullUserNetwork, false,
                     DefaultTier);
    var f := Facts(Artifact("e", 0, Reproduced), [BaselineMember], [], None, false, None);
    assert TierMatches(runs, f);
    assert BaselineMember in runs.requireEvidence;
  }
}
