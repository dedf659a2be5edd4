/** The records of the evidence ledger and the admission states they speak about. */
module Model {
  import opened Wrappers
  import opened Hashing

  datatype AdmissionState =
    | Unknown | Quarantined | Observed | Verified | Admitted | Degraded | Revoked | PolicyBlocked

  datatype Basis = Cryptographic | ByPolicy | ManualOverride | NoBasis

  datatype EventKind =
    | Genesis | Boot | SelfMeasure | Discover | Transition | Mismatch | Override | Enforcement | PolicyLoad
    | KeyEvent | CheckpointWritten | Recovery | DegradedCondition | Revocation

  /** The fields a caller supplies; the ledger fills in the chain position. */
  datatype EventDraft = EventDraft(
    actor: string,
    subject: Option<string>,
    kind: EventKind,
    oldState: Option<AdmissionState>,
    newState: Option<AdmissionState>,
    policy: Digest,
    evidence: seq<Digest>,
    basis: Basis,
    detail: string)

  /** Boot identifier and clocks, taken from outside. */
  datatype Stamp = Stamp(bootId: seq<byte>, wallTime: nat, monoNs: nat)

  datatype Event = Event(seqno: nat, stamp: Stamp, draft: EventDraft, prev: Digest)

  datatype Anchor = Software | Tpm

  /** A signed commitment to the ledger head. */
  datatype Checkpoint =
    Checkpoint(origin: string, size: nat, root: Digest, bootId: seq<byte>, wallTime: nat, counter: nat, anchor: Anchor)
}
