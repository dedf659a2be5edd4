/** Trust policies: what they say, and which of them are accepted. */
module PolicyRules {
  import opened Wrappers
  import opened Hashing
  import opened Model
  import opened Admission

  type Name = seq<byte>

  /** Code of an artifact class. */
  type Class = nat

  datatype Provenance = Reproduced | PinnedVendor | DistroSigned | VerifiedChecksum | SourceKnown | UnknownOrigin

  function Strength(p: Provenance): nat {
    match p
    case Reproduced => 1
    case PinnedVendor => 2
    case DistroSigned => 3
    case VerifiedChecksum => 4
    case SourceKnown => 5
    case UnknownOrigin => 6
  }

  predicate Satisfies(p: Provenance, required: Provenance) {
    Strength(p) <= Strength(required)
  }

  datatype EvidenceKind =
    | ContentDigestMatch | ContentDigestMismatch | SignatureValid | SignatureInvalid | ManagedInstaller
    | PackageSignature | ReproducibleMatch | SetuidBit | WritablePath | StaticFinding | Observation | OperatorApproval
    | RevocationHit | Missing | ForbiddenBehavior | PackageManifestMatch | BaselineMember

  datatype ReasonCode =
    | WasRevoked | ContentChanged | ManagedInstall | PinnedVendorSignature | WeakProvenance | NoProvenance
    | HighRiskCapability | SetuidExecutable | WritableLocation | PolicyProhibition | BadSignature | OperatorAuthorized
    | EvidenceMissing | DefaultTier | SignatureVerified | ObservationPending | ReproducedBuild | ChecksumVerified
    | CellCapped | PreviouslyRevoked

  datatype Cell = Cell0 | Cell1 | Cell2 | Cell3 | CellR

  function CellRank(c: Cell): nat {
    match c
    case Cell0 => 0
    case Cell1 => 1
    case Cell2 => 2
    case Cell3 => 3
    case CellR => 4
  }

  datatype Network =
    | NoNetwork | LoopbackOnly | DestinationAllowlist | MediatedProxy | FullUserNetwork | PrivilegedNetwork

  function NetworkRank(n: Network): nat {
    match n
    case NoNetwork => 0
    case LoopbackOnly => 1
    case DestinationAllowlist => 2
    case MediatedProxy => 3
    case FullUserNetwork => 4
    case PrivilegedNetwork => 5
  }

  const CELLS: seq<Cell> := [Cell0, Cell1, Cell2, Cell3, CellR]

  const NETWORKS: seq<Network> :=
    [NoNetwork, LoopbackOnly, DestinationAllowlist, MediatedProxy, FullUserNetwork, PrivilegedNetwork]

  const PROVENANCES: seq<Provenance> :=
    [Reproduced, PinnedVendor, DistroSigned, VerifiedChecksum, SourceKnown, UnknownOrigin]

  /** Ranks are positions in the order the source declares. */
  lemma RanksAreOrder(c: Cell, n: Network, p: Provenance)
    ensures CellRank(c) < |CELLS| && CELLS[CellRank(c)] == c
    ensures NetworkRank(n) < |NETWORKS| && NETWORKS[NetworkRank(n)] == n
    ensures 1 <= Strength(p) <= |PROVENANCES| && PROVENANCES[Strength(p) - 1] == p
  {
  }

  datatype Tier = Tier(
    name: Name, classes: seq<Class>, maxProvenance: Provenance, requireEvidence: seq<EvidenceKind>,
    state: AdmissionState, cell: Cell, network: Network, needsUser: bool, reason: ReasonCode)

  datatype Policy = Policy(
    schema: nat, name: Name, epoch: nat, tiers: seq<Tier>, blockClasses: seq<Class>, setuidMinProvenance: Provenance,
    writablePathMaxCell: Cell, maxManualCell: Cell)

  // ----- Names -----

  datatype NameRule = Strict | Loaded | Carry(installed: Policy)

  predicate PlainByte(b: byte) {
    48 <= b <= 57 || 65 <= b <= 90 || 97 <= b <= 122 || b == 46 || b == 95 || b == 45
  }

  predicate PlainName(n: Name) {
    n != [] && |n| <= 128 && forall i :: 0 <= i < |n| ==> PlainByte(n[i])
  }

  predicate NameOk(rule: NameRule, n: Name) {
    match rule
    case Strict => PlainName(n)
    case Loaded => n != [] && |n| <= 128
    case Carry(was) => PlainName(n) || (n == was.name && n != [] && |n| <= 128)
  }

  predicate TierNameOk(rule: NameRule, n: Name) {
    match rule
    case Strict => PlainName(n)
    case Loaded => n != []
    case Carry(was) => PlainName(n) || (n != [] && exists i :: 0 <= i < |was.tiers| && was.tiers[i].name == n)
  }

  // ----- Validation -----

  /** A tier that lets artifacts run rests on evidence and on provenance no weaker than a verified checksum. */
  predicate RunsOnEvidence(t: Tier) {
    PermitsNormalExecution(t.state) ==> Satisfies(t.maxProvenance, VerifiedChecksum) && t.requireEvidence != []
  }

  /** Any other tier assigns quarantine, observation or a prohibition, in CELL-0 and without any network. */
  predicate ElseConfined(t: Tier) {
    PermitsNormalExecution(t.state) ||
    ((t.state.Quarantined? || t.state.Observed? || t.state.PolicyBlocked?) && t.cell.Cell0? && t.network.NoNetwork?)
  }

  /** The most privileged cell and network need a person's decision (or, for CELL-3, a verified package transaction). */
  predicate PrivilegeAsked(t: Tier) {
    && !t.cell.CellR?
    && (t.cell.Cell3? ==>
          t.needsUser || (ManagedInstaller in t.requireEvidence && PackageSignature in t.requireEvidence))
    && (t.network.PrivilegedNetwork? ==> t.needsUser)
  }

  predicate ValidTier(t: Tier) {
    RunsOnEvidence(t) && ElseConfined(t) && PrivilegeAsked(t)
  }

  predicate MatchesAll(t: Tier) {
    t.classes == [] && t.maxProvenance.UnknownOrigin? && t.requireEvidence == []
  }

  predicate ValidHeader(p: Policy, rule: NameRule) {
    && p.schema == 1 && NameOk(rule, p.name) && p.epoch > 0
    && 0 < |p.tiers| <= 64 && MatchesAll(p.tiers[|p.tiers| - 1])
    && !p.maxManualCell.CellR?
  }

  predicate UniqueNames(tiers: seq<Tier>) {
    forall i, j :: 0 <= i < j < |tiers| ==> tiers[i].name != tiers[j].name
  }

  predicate ValidPolicy(p: Policy, rule: NameRule) {
    && ValidHeader(p, rule) && UniqueNames(p.tiers)
    && forall i :: 0 <= i < |p.tiers| ==> TierNameOk(rule, p.tiers[i].name) && ValidTier(p.tiers[i])
  }

  datatype PolicyError = PolicyError(rule: string)

  /** The rules for one tier, in the order they are checked. */
  method ValidateTier(t: Tier) returns (r: Option<PolicyError>)
    ensures r.None? <==> ValidTier(t)
  {
    var grantsRun := PermitsNormalExecution(t.state);
    if grantsRun && !Satisfies(t.maxProvenance, VerifiedChecksum) {
      return Some(PolicyError("execution requires provenance of VERIFIED_CHECKSUM or stronger"));
    }
    if grantsRun && t.requireEvidence == [] {
      return Some(PolicyError("a tier that permits execution must require evidence"));
    }
    if t.state.Degraded? || t.state.Revoked? || t.state.Unknown? {
      return Some(PolicyError("not an assignable initial state"));
    }
    if t.cell.CellR? {
      return Some(PolicyError("CELL-R is reserved for the recovery context"));
    }
    if CellRank(t.cell) >= 2 && !grantsRun && !t.state.Observed? && !t.state.Quarantined? {
      return Some(PolicyError("inconsistent state and cell"));
    }
    if !grantsRun && !t.cell.Cell0? {
      return Some(PolicyError("must stay in CELL-0"));
    }
    var signed := ManagedInstaller in t.requireEvidence && PackageSignature in t.requireEvidence;
    if t.cell.Cell3? && !(t.needsUser || signed) {
      return Some(PolicyError("CELL-3 needs a human decision or a verified package transaction"));
    }
    if !grantsRun && !t.network.NoNetwork? {
      return Some(PolicyError("may not have any network access"));
    }
    if t.network.PrivilegedNetwork? && !t.needsUser {
      return Some(PolicyError("PRIVILEGED_NETWORK needs a human decision"));
    }
    r := None;
  }

  /** Accepts exactly the valid policies. */
  method Validate(p: Policy, rule: NameRule) returns (r: Option<PolicyError>)
    ensures r.None? <==> ValidPolicy(p, rule)
  {
    if p.schema != 1 {
      return Some(PolicyError("unsupported schema"));
    }
    if !NameOk(rule, p.name) {
      return Some(PolicyError("bad name"));
    }
    if p.epoch == 0 {
      return Some(PolicyError("epoch must be positive"));
    }
    if p.tiers == [] {
      return Some(PolicyError("at least one tier is required"));
    }
    if |p.tiers| > 64 {
      return Some(PolicyError("too many tiers"));
    }
    if !MatchesAll(p.tiers[|p.tiers| - 1]) {
      return Some(PolicyError("the final tier must match every artifact"));
    }
    if CellRank(p.maxManualCell) > CellRank(Cell3) {
      return Some(PolicyError("max_manual_cell may not be CELL-R"));
    }
    var seen: set<Name> := {};
    for i := 0 to |p.tiers|
      invariant forall n :: n in seen <==> exists j :: 0 <= j < i && p.tiers[j].name == n
      invariant UniqueNames(p.tiers[..i])
      invariant forall j :: 0 <= j < i ==> TierNameOk(rule, p.tiers[j].name) && ValidTier(p.tiers[j])
    {
      var t := p.tiers[i];
      if !TierNameOk(rule, t.name) || t.name in seen {
        return Some(PolicyError("tier names must be unique"));
      }
      r := ValidateTier(t);
      if r.Some? {
        return;
      }
      seen := seen + {t.name};
    }
    assert p.tiers[..|p.tiers|] == p.tiers;
    r := None;
  }
}
