# JLR, modelled and proved in Dafny

JLR governs what may run on a Linux machine. It keeps an append-only, signed evidence ledger with a Merkle tree over it,
decides by policy which artifacts are trusted, boots verified releases from A/B slots, and bounds the work its daemon does
for each user. This project models those mechanisms and proves what the design promises of them, for all inputs and over
whole runs, including failed writes, torn files, crashes and reopenings.

`dafny verify dfyconfig.toml` checks everything. Each module is one file:

| modules | subject |
|---|---|
| `Hashing`, `BigEndian`, `Texts`, `Wrappers` | bytes, digests, UTF-8 text, the hash function as a parameter |
| `Merkle`, `MerkleVerify`, `MerkleTree` | tree, proofs, bit-shifting verifiers, incremental tree (sections 2.1.1, 2.1.3 and 2.1.4 of RFC 9162) |
| `Cbor`, `CborProofs`, `CborCodec`, `CborRecord`, `CborSizes`, `CborWire` | the deterministic CBOR profile (section 4.2.1 of RFC 8949) and schema-driven records |
| `Envelope`, `EnvelopeExact`, `LedgerCodec`, `Layouts`, `LedgerKeys`, `Installed` | signed envelopes, the event and checkpoint records, what all stored bytes are, and the run theorems for an installation |
| `Framing`, `Model`, `Replay`, `Honest`, `LedgerRuns`, `LedgerReaders`, `LedgerStore` | the evidence ledger |
| `BootState`, `BootCodec`, `BootMedia`, `BootImage`, `BootRuns`, `BootHistory` | verified boot |
| `Search`, `Admission`, `PolicyRules`, `Decisions` | the admission state machine and the decision function |
| `EpnIds`, `EngineRuns`, `Journaling`, `EngineSteps`, `TrustEngine`, `Replacing`, `Processing`, `Authority`, `AuthorityRuns`, `AuthorityStore` | the trust engine on top of the ledger |
| `DpkgIndex`, `DpkgCache` | the package index and its cache |
| `Metering`, `MeterProofs`, `Budget` | the daemon's time budgets |

Conventions. SHA-256 is a parameter, and so is the signature scheme.
Soundness statements are reductions: a function that computes a colliding pair of messages from whatever was forged. (That
a collision merely exists would say nothing.) What comes from outside is an argument: clocks, randomness, the outcome of
every file operation, the moment the power goes. Objects that the program updates in place are classes; each of their
methods is tied to a function on values about which the theorems are proved.

Where the code does less than one might expect, the code is modelled as it is, and the exact condition is proved:

- Appending to the ledger checks neither an envelope's size nor the kind of the draft. An acknowledged event can be read
  back if and only if its envelope fits a frame and it is not a second GENESIS (`LedgerReaders.AppendReadableIff`). A megabyte
  of detail is a failing input on every ledger (`LedgerKeys.HugeDraftIsUnreadable`). So is every GENESIS draft, however small;
  of drafts with texts of up to 64 KiB all others are readable (`LedgerKeys.ModestReadableIff`).
- A ledger whose creation was cut short inside the first frame can neither be created again nor opened
  (`LedgerRuns.CreateCutShort` says exactly when each works).
- With two boot slots of one name, the second is chosen and booting it wraps the first one's tries around
  (`BootState.DuplicateNamesWrap`); a try is spent if and only if the first slot of that name is unproven and has one
  (`BootState.SpendIff`). The operations keep names distinct, and then exactly one try is spent (`BootState.SpendsOneTry`).
  Arithmetic is 16 bits wide and wraps, as it does in a build without overflow checks.
- A valid policy can grant the full network in CELL-0 (`Decisions.NetworkBeyondCell`), whose documentation says it has no
  network; the network fits the cell if and only if the condition of `Decisions.NetworkFitsIff` holds, and always does for a
  policy whose tiers all fit (`Decisions.FittingTiersSuffice`).
- A new approval or baseline overwrites the current file if its digest shares its first eight bytes with the current one, and
  costs the subject its authority if the event is then not logged (`AuthorityRuns.ClashLosesFile`); otherwise, and only then,
  every recorded file stays (`Authority.WriteKeepsBackedIff`).

## Model

| member | source | states |
|---|---|---|
| Merkle.SplitUnique | crates/jlr-ledger/src/merkle.rs:31-36 | the split point is the only power of two below n that is at least half of it |
| Merkle.RootOfPrefix | crates/jlr-ledger/src/merkle.rs:37-47 | the root of a prefix that reaches past the split is the node over the whole left subtree and the root of the rest |
| Merkle.RootIsHead | crates/jlr-ledger/src/merkle.rs:1-47 | the root is the only solution of the equations of section 2.1.1 of RFC 9162, stated over the bytes that are hashed |
| Merkle.PathIsUnique | crates/jlr-ledger/src/merkle.rs:133-147 | audit paths are the only solution of the equations of section 2.1.3.1 |
| Merkle.SubproofIsUnique | crates/jlr-ledger/src/merkle.rs:149-164 | subproofs are the only solution of the equations of section 2.1.4.1 |
| Merkle.PathSolves | crates/jlr-ledger/src/merkle.rs:133-147 | the equations of audit paths can be satisfied |
| Merkle.SubproofSolves | crates/jlr-ledger/src/merkle.rs:149-164 | the equations of subproofs can be satisfied |
| MerkleVerify.VerifyInclusion | crates/jlr-ledger/src/merkle.rs:166-193 | the bit-shifting loop accepts exactly the proofs that climb from the leaf to the root along the recursive split |
| MerkleVerify.InclusionComplete | crates/jlr-ledger/src/merkle.rs:133-147 | every leaf's audit path is accepted against the root, for every tree size |
| MerkleVerify.InclusionForgery | crates/jlr-ledger/src/merkle.rs:166-193 | from an accepted proof of a wrong leaf, two messages with one hash are computed |
| MerkleVerify.InclusionLength | crates/jlr-ledger/src/merkle.rs:166-193 | accepted proofs have exactly the length of the audit path |
| MerkleVerify.VerifyConsistency | crates/jlr-ledger/src/merkle.rs:195-249 | the two loops accept exactly the proofs that rebuild both roots |
| MerkleVerify.SubproofComplete | crates/jlr-ledger/src/merkle.rs:149-164 | the recursive subproof rebuilds the roots of the prefix and of the whole subtree |
| MerkleVerify.ConsistencyComplete | crates/jlr-ledger/src/merkle.rs:121-131 | every prefix of a tree has an accepted consistency proof, sizes 0 and n included |
| MerkleVerify.ConsistencyForgery | crates/jlr-ledger/src/merkle.rs:195-249 | from an accepted proof of a wrong prefix root, two messages with one hash are computed |
| MerkleVerify.RootForgery | crates/jlr-ledger/src/merkle.rs:37-47 | from two different lists of leaves under one root, two messages with one hash are computed |
| MerkleTree.Tree.Push | crates/jlr-ledger/src/merkle.rs:71-87 | pushing keeps the peaks a cover of the leaves whose heights are the binary digits of the size, and records the new root |
| MerkleTree.Tree.Root | crates/jlr-ledger/src/merkle.rs:89-97 | folding the peaks gives the recursive root, which is the tree head of the RFC |
| MerkleTree.Tree.RootAt | crates/jlr-ledger/src/merkle.rs:99-106 | the table gives the tree head of every prefix, and nothing beyond the size |
| MerkleTree.Tree.InclusionProof | crates/jlr-ledger/src/merkle.rs:113-119 | a proof is handed out exactly for an index within a size, and every verifier accepts it |
| MerkleTree.Tree.ConsistencyProofOf | crates/jlr-ledger/src/merkle.rs:121-131 | a proof is handed out exactly for ordered sizes, and every verifier accepts it |
| MerkleTree.PeakRootIsRoot | crates/jlr-ledger/src/merkle.rs:89-97 | folding any cover of the leaves by full subtrees gives their root |
| MerkleTree.PeaksAreDigits | crates/jlr-ledger/src/merkle.rs:71-87 | peaks of strictly decreasing height stand exactly at the ones of the size |
| CborProofs.HeadCanonical | crates/jlr-cbor/src/lib.rs:279-323 | whatever head is read is the shortest head of its argument |
| CborProofs.ValueSound | crates/jlr-cbor/src/lib.rs:332-394 | whatever value is read is well formed, within the depth limit, and its encoding is the bytes it was read from |
| CborProofs.ValueParses | crates/jlr-cbor/src/lib.rs:332-394 | every well-formed value within the depth limit is read back from its encoding, whatever follows |
| CborProofs.DecodeExact | crates/jlr-cbor/src/lib.rs:396-404 | decoding is exactly the partial inverse of encoding: b decodes to v if and only if v is codable and b is its encoding |
| CborProofs.EncodeInjective | crates/jlr-cbor/src/lib.rs:245-250 | different values have different encodings |
| CborProofs.PrefixFree | crates/jlr-cbor/src/lib.rs:396-404 | no truncated or extended encoding decodes |
| CborCodec.Encoder.EncodeInto | crates/jlr-cbor/src/lib.rs:209-243 | the writer appends exactly the encoding |
| CborCodec.Decoder.ReadValue | crates/jlr-cbor/src/lib.rs:332-394 | the cursor-based reader yields the specified result and stops where the value ends |
| CborCodec.DecodeBytes | crates/jlr-cbor/src/lib.rs:396-404 | the reader as a whole decides and decodes as specified, trailing bytes refused; the input is what the equations of the RFC give for the value, and unsigned keys ascend |
| CborCodec.EncodeBytes | crates/jlr-cbor/src/lib.rs:245-250 | the writer's output is the encoding, the only one that satisfies the equations of the RFC |
| CborWire.HeadIs | crates/jlr-cbor/src/lib.rs:191-208 | heads are the shortest ones of section 3 of RFC 8949, byte by byte |
| CborWire.EncodingIsIt | crates/jlr-cbor/src/lib.rs:210-243 | the equations of RFC 8949 for each kind of value, over literal bytes, determine the encoding |
| CborWire.LessIff | crates/jlr-cbor/src/lib.rs:52-59 | the key order is decided by the first byte that differs, or by the shorter string ending |
| CborWire.KeysAscend | crates/jlr-cbor/src/lib.rs:361-383 | in every map of the data model, decoded or built, unsigned keys ascend as numbers |
| CborRecord.InsertKeeps | crates/jlr-cbor/src/lib.rs:73-87 | inserting a new key keeps a map well formed and in canonical order |
| CborRecord.ValueReads | crates/jlr-cbor/src/lib.rs:843-870 | a record reads back from its own map, optional fields or not |
| CborWire.RecordIsMap | crates/jlr-cbor/src/lib.rs:855-861 | a record is stored as a map with the key and value of each field that is there, no others, keys ascending |
| CborRecord.RecordExact | crates/jlr-cbor/src/lib.rs:722-738 | a record has exactly one accepted byte representation: accepted if and only if it fits and the bytes are its encoding |
| CborRecord.TruncatedRecord | crates/jlr-cbor/src/lib.rs:722-738 | a truncated record is never accepted |
| Texts.TextRoundTrip | crates/jlr-cbor/src/lib.rs:345-350 | every text is well-formed UTF-8 and reads back |
| Texts.TextExact | crates/jlr-cbor/src/lib.rs:345-350 | bytes are accepted as a text if and only if they are how that text is written |
| CborSizes.RecordSize | crates/jlr-cbor/src/lib.rs:855-861 | a record is no longer than its head and the sizes of its fields |
| Envelope.SignedVerifies | crates/jlr-crypto/src/envelope.rs:111-195 | a signed record verifies under its type and scope and yields its payload |
| Envelope.UnverifiedAgrees | crates/jlr-crypto/src/envelope.rs:197-209 | reading without verification gives what verification gives, wherever that accepts |
| Envelope.NoReplay | crates/jlr-crypto/src/envelope.rs:90-195 | an accepted envelope whose checked message was signed was signed for this type, scope and payload by a trusted key with an allowed role |
| Envelope.SameMessage | crates/jlr-crypto/src/envelope.rs:98-105 | the signed message determines header, scope and payload |
| EnvelopeExact.VerifyExact | crates/jlr-crypto/src/envelope.rs:136-195 | verification accepts bytes if and only if they are the envelope of the payload under the header for the type and a trusted key with an allowed role, with that key's signature over header, type, scope and payload |
| Layouts.EnvelopeIs | crates/jlr-crypto/src/envelope.rs:111-131 | a signed record is tag 18 over header, empty map, payload and a signature over the Sig_structure of RFC 9052 |
| Layouts.HeaderIs | crates/jlr-crypto/src/envelope.rs:111-118 | the protected header holds algorithm -19, the key and the media type under 1, 4 and 16, and nothing else |
| Layouts.TextsAre | crates/jlr-crypto/src/envelope.rs:90-96 | media type and external data are literal text around record type and scope |
| Layouts.AsciiIs | crates/jlr-crypto/src/envelope.rs:90-96 | that text is written character by character |
| Envelope.EnvelopeSize | crates/jlr-crypto/src/envelope.rs:111-131 | an envelope is longer than its payload, by no more than header, signature and 54 bytes |
| LedgerCodec.EventRoundTrip | crates/jlr-model/src/event.rs:57-90 | an event whose numbers and lengths fit 64 bits reads back from its bytes |
| LedgerCodec.CheckpointRoundTrip | crates/jlr-ledger/src/store.rs:43-62 | a checkpoint reads back from its bytes |
| LedgerCodec.EventExact | crates/jlr-model/src/event.rs:57-90 | bytes parse as an event if and only if it fits 64 bits and they are what would be written for it |
| LedgerCodec.CheckpointExact | crates/jlr-ledger/src/store.rs:42-61 | bytes parse as a checkpoint if and only if it fits 64 bits and they are what would be written for it |
| Layouts.EventIs | crates/jlr-model/src/event.rs:57-90 | an event is a map with these keys, values and codes and no others |
| Layouts.CheckpointIs | crates/jlr-ledger/src/store.rs:42-61 | a checkpoint is a map with these keys and values and no others |
| LedgerCodec.EventSize | crates/jlr-model/src/event.rs:57-90 | texts and evidence within a limit bound the event's bytes by a multiple of it |
| LedgerCodec.DetailSize | crates/jlr-model/src/event.rs:57-90 | an event is longer than its detail |
| LedgerKeys.KeysFaithful | crates/jlr-ledger/src/store.rs:359-400 | on the fast path, parsing without verification agrees with verification |
| LedgerKeys.EventWritable | crates/jlr-ledger/src/store.rs:693-720 | an event signed by an anchored device key verifies and parses back, so it can be written, exactly when its envelope fits a frame |
| LedgerKeys.CheckpointWritable | crates/jlr-ledger/src/store.rs:723-739 | a checkpoint of an installation whose node has a name within the limit can always be written |
| LedgerKeys.ModestWritable | crates/jlr-ledger/src/store.rs:693-720 | every event with texts and evidence of up to 64 KiB each fits a frame, wherever in the chain it stands |
| LedgerKeys.HugeDraftIsUnreadable | crates/jlr-ledger/src/store.rs:693-720 | a draft with a megabyte of detail is acknowledged on any ledger, and no replay succeeds afterwards |
| LedgerKeys.ModestReadableIff | crates/jlr-ledger/src/store.rs:393-396 | of drafts with bounded texts, appended to any ledger of an installation, exactly those that are not GENESIS leave it readable |
| Installed.StepsAreWritable | crates/jlr-engine/src/engine.rs:645-672 | the steps of a decision with bounded descriptions can always be written |
| Installed.InstallationIsDurable | crates/jlr-ledger/src/store.rs:554-780 | for an installation with an anchored key, over any runs of bounded appends, checkpoints, failures, crashes and reopenings, nothing acknowledged is lost and at most one event and one checkpoint more are recovered, with the actual codecs |
| Framing.SplitFrames | crates/jlr-ledger/src/store.rs:236-262 | the loop computes the specified split, including which frame is bad and why |
| Framing.SplitRecovers | crates/jlr-ledger/src/store.rs:236-262 | any frames followed by any strict prefix of another split into exactly those frames and that torn tail |
| Framing.SplitAfterSound | crates/jlr-ledger/src/store.rs:236-262 | whatever log is accepted is the frames found followed by an incomplete one |
| Framing.SplitConserves | crates/jlr-ledger/src/store.rs:236-262 | covered and torn bytes are the whole log, and the trimmed log splits into the same frames |
| Framing.FrontOfOversize | crates/jlr-ledger/src/store.rs:226-262 | a frame beyond the bound is written like any other and never read back |
| Layouts.FrameIs | crates/jlr-ledger/src/store.rs:209-231 | a frame is the length in four bytes, four bytes of the hash that checks it, and the envelope |
| Replay.Run | crates/jlr-ledger/src/store.rs:311-416 | the replay loops, with the incremental tree, compute the specified replay and its leaves; a success proves the chain of events and every checkpoint |
| Replay.ReplayExact | crates/jlr-ledger/src/store.rs:311-416 | a replay succeeds with a result if and only if every event verifies, is numbered, linked by hash to the frame before it and GENESIS exactly at first, and every checkpoint verifies, is of this node, follows the one before and commits to the tree head of its prefix |
| Replay.EventsFail | crates/jlr-ledger/src/store.rs:366-396 | an error is about the first event that fails, and says what is wrong with it |
| Replay.LeavesAre | crates/jlr-ledger/src/merkle.rs:10-16 | the leaf of a frame is the hash of a zero byte and the frame |
| Honest.ReplayHonest | crates/jlr-ledger/src/store.rs:311-416 | logs of a chained, committed history, torn or not, replay to exactly that history, in both modes |
| LedgerRuns.StepKeeps | crates/jlr-ledger/src/store.rs:593-760 | every append, checkpoint, failure, crash and reopening keeps the ledger invariant |
| LedgerRuns.NextEventIs | crates/jlr-ledger/src/store.rs:693-709 | the next event carries the draft and stamp it was given, the next number and the hash of the last envelope |
| LedgerRuns.OpenRecovers | crates/jlr-ledger/src/store.rs:593-640 | opening succeeds and starts from the acknowledged records and at most one that was written whole |
| LedgerRuns.ReplayRecovers | crates/jlr-ledger/src/store.rs:311-416 | replaying a reachable state yields exactly the acknowledged records and what was written whole after them |
| LedgerRuns.StepGrows | crates/jlr-ledger/src/store.rs:593-760 | no step takes an acknowledged record back |
| LedgerRuns.NothingAcknowledgedIsLost | crates/jlr-ledger/src/store.rs:593-780 | over whole runs: what was acknowledged at some moment is recovered, in order and unchanged, after any further run |
| LedgerRuns.CreateCutShort | crates/jlr-ledger/src/store.rs:554-578 | a creation cut short can be repeated if and only if nothing was written, and opened if and only if the whole first frame was |
| LedgerReaders.ReaderSeesNoProblem | crates/jlr-ledger/src/store.rs:318-357 | a lock-free reader beside the writer never reports a problem and sees everything acknowledged |
| LedgerReaders.AppendReadableIff | crates/jlr-ledger/src/store.rs:693-717 | an append of any draft is acknowledged, and is readable afterwards, in its place, if and only if its envelope fits a frame and it is not a second GENESIS; otherwise every later replay fails |
| LedgerReaders.FastRefinesFull | crates/jlr-ledger/src/store.rs:311-416 | where the full replay succeeds, the fast one gives the same, on any bytes |
| LedgerReaders.CoveredForgery | crates/jlr-ledger/src/store.rs:359-400 | events the fast path does not verify are the ones the checkpoint was written over, or a collision is computed |
| LedgerReaders.WrittenForgery | crates/jlr-ledger/src/store.rs:304-310 | on any bytes whose newest checkpoint was written in a run, the events it covers are the ones acknowledged in that run, or a collision is computed |
| LedgerReaders.FastForgery | crates/jlr-ledger/src/store.rs:304-310 | on any bytes whose newest checkpoint was written in a run, where the fast replay succeeds the full one gives the same, or a collision is computed |
| LedgerReaders.FramesForgery | crates/jlr-ledger/src/store.rs:359-400 | from two different lists of frames under one root, two messages with one hash are computed |
| LedgerReaders.VerifyDir | crates/jlr-ledger/src/store.rs:423-470 | success if and only if the full replay holds, is not empty, and an external checkpoint matches; the report is exact, with the anchor of the newest checkpoint; replay errors are passed on; a success proves the chain and the checkpoints; truncation and forks are reported exactly |
| LedgerStore.AppendFrame | crates/jlr-ledger/src/store.rs:770-783 | success if and only if all calls work, and then the frame is appended; a failed write or sync is cut back; only a failed cut leaves bytes behind, and is reported as such |
| LedgerStore.CreateLedger | crates/jlr-ledger/src/store.rs:554-578 | creation is refused when the event log is not empty, and otherwise is the append of GENESIS to nothing |
| LedgerStore.Ledger.Append | crates/jlr-ledger/src/store.rs:693-760 | appending is the step proved about, with the error it returns; it succeeds if and only if the ledger is not poisoned and the file works |
| LedgerStore.Ledger.WriteCheckpoint | crates/jlr-ledger/src/store.rs:723-760 | writing a checkpoint commits to the current root with the next counter; it succeeds if and only if the ledger is not poisoned and the file works |
| LedgerStore.Trim | crates/jlr-ledger/src/store.rs:521-537 | the trimmed log followed by its quarantined tail is the log that was found |
| LedgerStore.OpenLedger | crates/jlr-ledger/src/store.rs:593-640 | opening is the step proved about; trimmed log and quarantined tail together are what was found |
| BootState.VerifyManifest | crates/jlr-boot/src/manifest.rs:125-139 | accepted if and only if signed, of schema 1, not older than the floor, and asking for no floor above its own epoch; a rollback is reported exactly for being older |
| BootState.TrialOrder | crates/jlr-boot/src/state.rs:128-149 | the trial order holds exactly the slots with priority, higher priority first, then by name |
| BootState.Choose | crates/jlr-boot/src/state.rs:128-149 | the chosen slot is ahead of every other bootable one; choosing fails only when none is bootable |
| BootState.SpendsOneTry | crates/jlr-boot/src/state.rs:128-149 | with distinct names, booting an unproven slot takes exactly one of its tries and changes nothing else |
| BootState.SpendIff | crates/jlr-boot/src/state.rs:128-149 | with any names, a try is spent if and only if the first slot of the name is unproven and has one |
| BootState.DuplicateNamesWrap | crates/jlr-boot/src/state.rs:128-149 | two slots of one name of which the second is chosen and the first one's tries wrap around |
| BootState.BootRecord.Install | crates/jlr-boot/src/state.rs:78-90 | the loop demotes the others and puts the new slot in place |
| BootState.InstallPrefers | crates/jlr-boot/src/state.rs:78-90 | an installed slot is tried before every other; the others keep their standing, demoted by one at most |
| BootState.BadRetires | crates/jlr-boot/src/state.rs:92-98 | a retired slot has no priority and no tries and is bootable under no manifests; every other slot is unchanged |
| BootCodec.StateRoundTrip | crates/jlr-boot/src/state.rs:25-49 | a boot state reads back from its bytes |
| Layouts.StateIs | crates/jlr-boot/src/state.rs:25-49 | the boot state is a map of the floor and the slots, each a map of name, priority, tries and success |
| BootCodec.TruncatedState | crates/jlr-boot/src/state.rs:25-49 | a truncated boot state never parses |
| BootMedia.Medium.WriteState | crates/jlr-boot/src/media.rs:134-152 | the writing protocol, call by call, with every failure and power cut |
| BootMedia.Medium.PromoteRecovered | crates/jlr-boot/src/media.rs:105-125 | a complete pending file with no state file becomes the state file; a torn one is removed |
| BootMedia.WriteIsAtomic | crates/jlr-boot/src/media.rs:134-152 | however an attempt ends, the next boot finds the previous state or the new one; after a completed one, the new one |
| BootMedia.NothingLeftBeside | crates/jlr-boot/src/media.rs:134-152 | a completed attempt leaves exactly the new state, and a failed one that can clean up leaves nothing beside it |
| BootMedia.DamageIsReported | crates/jlr-boot/src/media.rs:82-103 | a state file is damaged if and only if it does not parse; it never reads as fresh |
| BootMedia.AttemptsAreSafe | crates/jlr-boot/src/media.rs:82-152 | after any number of attempts the file is never damaged, holds a state that was written, and never reads as fresh again |
| BootMedia.CompletedWriteStays | crates/jlr-boot/src/media.rs:82-152 | a completed write is lost to nothing but a later one |
| BootRuns.FreshBoots | crates/jlr-boot/src/state.rs:62-67 | a fresh medium has one proven slot, booted without spending a try once a manifest verifies |
| BootRuns.VerifySlots | crates/jlr-boot/src/bin/jlr-init.rs:266-286 | a slot has an accepted manifest exactly when its manifest verifies against the floor |
| BootRuns.BadIsGood | crates/jlr-boot/src/state.rs:92-111 | retiring a slot keeps names distinct and the floor, and gives no slot a try |
| BootRuns.ProvenIsGood | crates/jlr-boot/src/state.rs:114-120 | proving a slot ends its tries, gives no slot a try, and raises the floor to exactly the higher of the two |
| BootImage.VerifyImage | crates/jlr-boot/src/manifest.rs:147-172 | an accepted copy is the whole source and exactly the image committed to; a refusal names a real mismatch or an I/O error; a source that can be read is accepted if and only if it is the image |
| BootImage.LoadImage | crates/jlr-boot/src/confirm.rs:28-65 | what is loaded is the image; a good reading is used, be it the second; a slot is proven bad only by the same wrong answer twice, and then is |
| BootRuns.TrySlot | crates/jlr-boot/src/bin/jlr-init.rs:298-352 | a try is spent durably before a slot is used; with working writes a slot proven bad is retired on the medium and nothing else changes; other failures only skip it |
| BootRuns.TryMedium | crates/jlr-boot/src/bin/jlr-init.rs:250-353 | the loop ends; only a slot that verifies end to end is booted, the first one in order when nothing else fails, none only if none does; what is booted is the image its accepted signed manifest commits to; slots proven bad that come first are retired on the medium; floors and tries move only as allowed; a power loss is reported as such |
| BootRuns.BootFrom | crates/jlr-boot/src/bin/jlr-init.rs:405-416 | all media are tried in order against the highest floor on any of them, until one boots or the power goes; a medium is passed over only if nothing on it verifies or something else went wrong with it; what is booted is the image that a signed manifest accepted against that floor commits to |
| BootRuns.RecordSuccess | crates/jlr-boot/src/bin/jlr-init.rs:520-552 | recording success leaves the old state or the slot proven; with working writes the slot is successful with no tries, the floor is the highest of the three, and every other slot is unchanged |
| BootHistory.FloorsNeverFall | crates/jlr-boot/src/bin/jlr-init.rs:259-261 | over any history of boots and installations on any media, no floor falls |
| BootHistory.NoRollback | crates/jlr-boot/src/bin/jlr-init.rs:405-416 | once a medium carried a floor, nothing older is booted while it is attached, from whatever medium, however much later |
| BootHistory.TriesBoundBoots | crates/jlr-boot/src/bin/jlr-init.rs:288-353 | an unproven slot is booted at most as often as its tries allow, plus three times for every installation into it |
| BootHistory.BootedIsNew | crates/jlr-boot/src/bin/jlr-init.rs:537-548 | a booted release is at least as new as the floor of every attached medium, before and after |
| BootHistory.ProvenStaysBootable | crates/jlr-boot/src/state.rs:114-149 | a booted release stays acceptable on every attached medium against the floor its success set; once proven, its slot is bootable again without spending a try |
| Search.ShortestPath | crates/jlr-engine/src/engine.rs:275-303 | breadth-first search finds a shortest path, or none exactly when there is none, in any finite graph |
| Admission.Route | crates/jlr-engine/src/engine.rs:275-303 | the route is a shortest legal one; there is one exactly between states of which the first is not REVOKED and the second not UNKNOWN, or equal ones |
| Admission.ByTarget | crates/jlr-model/src/state.rs:50-76 | the permitted transitions, by target state |
| Admission.RouteLength | crates/jlr-engine/src/engine.rs:275-303 | the exact length of every shortest route: three steps at most, and three only out of POLICY_BLOCKED |
| Admission.AdmittedViaVerified | crates/jlr-model/src/state.rs:50-70 | whatever becomes ADMITTED was VERIFIED on the way |
| PolicyRules.ValidateTier | crates/jlr-policy/src/policy.rs:171-211 | the checks on one tier accept exactly the tiers that run on evidence or are confined, with privilege only on a decision |
| PolicyRules.Validate | crates/jlr-policy/src/policy.rs:128-214 | validation accepts exactly the valid policies, under each of the three rules for names |
| Decisions.Evaluate | crates/jlr-policy/src/engine.rs:82-215 | the evaluation, rewriting its locals step by step, computes the specified decision |
| Decisions.ApprovalGrants | crates/jlr-policy/src/engine.rs:196-212 | an applicable approval admits what nothing disqualifies, in exactly the lower cell, with the approved network as far as the cell holds it, exactly the approved capabilities, and the stated basis and reasons |
| Decisions.TierGrants | crates/jlr-policy/src/engine.rs:145-194 | without one, the first tier that is met decides exactly: state, basis, cell and network or what a writable path lowers them to, the ordinary requested capabilities, reasons and questions |
| Decisions.SomeTierIsFirst | crates/jlr-policy/src/engine.rs:155-159 | under a valid policy some tier is the first that an artifact meets |
| Decisions.RefusalsConfine | crates/jlr-policy/src/engine.rs:87-143 | revocation, changed content and prohibitions decide alone, in that order, with these states and reasons |
| Decisions.SuspicionQuarantines | crates/jlr-policy/src/engine.rs:147-176 | a bad signature or an untrusted setuid bit quarantines what no approval covers |
| Decisions.PrivilegeIsDecided | crates/jlr-policy/src/policy.rs:192-208 | the privileged network needs a person's decision, and CELL-3 that or a verified package transaction |
| Decisions.DecisionIsReachable | crates/jlr-policy/src/engine.rs:82-215 | every decision has a legal route from the prior state |
| Decisions.NotRunningIsConfined | crates/jlr-policy/src/engine.rs:82-215 | what does not run has CELL-0, no network and no capability; CELL-0 has no capability; nothing is put into CELL-R |
| Decisions.RunningIsJustified | crates/jlr-policy/src/engine.rs:82-215 | without an approval, running means a matching tier with non-empty, present evidence and strong provenance; with one, it means exactly not being disqualified |
| Decisions.CapabilitiesAreGranted | crates/jlr-policy/src/engine.rs:183-194 | capabilities were asked for or approved; high-risk ones come only from an approval |
| Decisions.ApprovalsAreBounded | crates/jlr-policy/src/engine.rs:196-212 | an approval stays under the policy's ceiling and lifts no prohibition |
| Decisions.NetworkFitsIff | crates/jlr-policy/src/engine.rs:32-41 | the granted network fits the cell if and only if an approval applies, the evidence refuses the artifact, the writable-path guard lowers the cell, or the deciding tier fits itself |
| Decisions.FittingTiersSuffice | crates/jlr-policy/src/policy.rs:171-211 | if every tier's network fits its cell, so does every decision's |
| Decisions.NetworkBeyondCell | crates/jlr-policy/src/policy.rs:171-211 | a valid policy that grants the full network in CELL-0 |
| EpnIds.ParsePrinted | crates/jlr-model/src/artifact.rs:202-223 | every identifier parses back from its text |
| EpnIds.ParsedIsPrinted | crates/jlr-model/src/artifact.rs:202-223 | only an identifier's text, in whatever case, parses |
| EpnIds.HexRoundTrip | crates/jlr-crypto/src/lib.rs:52-73 | bytes read back from their hexadecimal text |
| EpnIds.HexIs | crates/jlr-crypto/src/lib.rs:51-58 | two lower-case hexadecimal digits for each byte, the high half first |
| EngineRuns.RebuildStates | crates/jlr-engine/src/engine.rs:395-405 | opening rebuilds the states the events add up to |
| EngineRuns.SoundStep | crates/jlr-engine/src/engine.rs:630-672 | every ledger step of an engine that logs lawful drafts keeps all events lawful, also one a reopening may adopt |
| EngineRuns.OneChain | crates/jlr-engine/src/engine.rs:686-711 | an artifact's events form one chain of permitted transitions from UNKNOWN to its state, and nothing follows REVOKED |
| EngineRuns.EveryRunIsLawful | crates/jlr-engine/src/engine.rs:395-405 | in every run, with failed and half-written appends, crashes and reopenings, the rebuilt states are the ends of such chains |
| Journaling.Journal.Log | crates/jlr-engine/src/engine.rs:630-672 | logging is a step of the ledger; it succeeds if and only if the ledger is not poisoned and the file works; a logged event extends the acknowledged history by exactly it, a failure leaves it alone |
| Journaling.OpenJournal | crates/jlr-engine/src/engine.rs:391-393 | opening the logs any run left behind succeeds and starts from the acknowledged events and at most one more written whole |
| TrustEngine.OpenEngine | crates/jlr-engine/src/engine.rs:391-405 | an engine opened on the logs any run left behind holds the states that the recovered events add up to |
| TrustEngine.Engine.ApplyDecision | crates/jlr-engine/src/engine.rs:686-711 | the artifact moves along a shortest route, one logged step at a time, each naming policy, evidence and basis; memory and ledger agree also when a step fails; it succeeds when the files work and there is a route |
| EngineSteps.ShortestStep | crates/jlr-engine/src/engine.rs:275-303 | every step of a shortest route goes to another state, along a shortest rest |
| Processing.OnReplaced | crates/jlr-engine/src/engine.rs:743-793 | an artifact still trusted whose content changed is REVOKED if revoked, else DEGRADED if it ran and QUARANTINED if not, after a MISMATCH event; nothing else is touched; it succeeds when the files work |
| Processing.Process | crates/jlr-engine/src/engine.rs:795-848 | the artifact ends in the decided state, another one that the index named for its path ends where it does not run, no third one is touched, MISMATCH and DISCOVER are logged; it succeeds when the files work |
| Authority.RebuildCurrent | crates/jlr-engine/src/engine.rs:428-435 | the loop over the events computes what they say is current |
| Authority.CurrentIsLatest | crates/jlr-engine/src/engine.rs:428-435 | what is current for a subject is the evidence of the latest OVERRIDE event about it, if there is one |
| Authority.BaselinesApart | crates/jlr-engine/src/engine.rs:1111-1131 | different baselines have different file stems |
| Authority.ApprovalsApart | crates/jlr-engine/src/engine.rs:1360 | different identifiers with one file stem have records of the same digest and differ in class only |
| Authority.WriteKeepsBackedIff | crates/jlr-engine/src/engine.rs:1359-1361 | writing a new file keeps every recorded file if and only if no different current digest shares its first eight bytes |
| Authority.OthersAreNotSuperseded | crates/jlr-engine/src/engine.rs:1680-1689 | removing superseded files never touches a file of another stem |
| Authority.RemoveSuperseded | crates/jlr-engine/src/engine.rs:1680-1689 | only superseded files are removed, and all that can be unless it is cut short |
| Authority.HonourFiles | crates/jlr-engine/src/engine.rs:436-470 | what is held comes from a listed file the ledger records as current, every such file counts and every other is reported; all are held if all are there |
| AuthorityRuns.GrantKeeps | crates/jlr-engine/src/engine.rs:1359-1383 | however a grant fails or dies, every file the ledger names, or may name once reopened, is there |
| AuthorityRuns.AuthoritySurvives | crates/jlr-engine/src/engine.rs:1105-1131 | after any run of grants failing or dying anywhere, other appends, crashes and reopenings, the next opening recovers the ledger and the file of every subject's latest OVERRIDE event is there |
| AuthorityRuns.ClashLosesFile | crates/jlr-engine/src/engine.rs:1359-1382 | a grant whose digest shares eight bytes with the current one and whose event is not logged costs the current file |
| AuthorityStore.Store.Issue | crates/jlr-engine/src/engine.rs:1359-1383 | a grant on the object, file, journal and memory, is the step proved about, and memory follows the acknowledged events; it succeeds if and only if file and ledger work, and then what it supersedes is gone |
| AuthorityStore.OpenStore | crates/jlr-engine/src/engine.rs:424-470 | opening on what any run of grants left behind starts from the recovered events, honours exactly what they record as current, and reports the rest |
| Authority.OneIsHonoured | crates/jlr-engine/src/engine.rs:424-470 | two different contents honoured for one subject are a collision |
| DpkgIndex.SortedKeeps | crates/jlr-measure/src/dpkg.rs:150-152 | the stable sort rearranges the claims without changing which claim to a path comes first |
| DpkgIndex.DedupStrict | crates/jlr-measure/src/dpkg.rs:150-152 | after removing duplicates, paths ascend strictly |
| DpkgIndex.Pack | crates/jlr-measure/src/dpkg.rs:153-160 | the packed index holds exactly the claims, if the paths fit 32-bit offsets |
| DpkgIndex.Find | crates/jlr-measure/src/dpkg.rs:240-253 | on any index of the right shape the search stays in range and ends; on an ascending one it finds exactly the claims there are |
| DpkgIndex.IndexAgrees | crates/jlr-measure/src/dpkg.rs:150-160 | the index answers every lookup as the plain map of first claims |
| DpkgIndex.Owner | crates/jlr-measure/src/dpkg.rs:134-161 | building and searching yields the first claim |
| DpkgCache.CacheRoundTrip | crates/jlr-measure/src/dpkg.rs:164-228 | a cache reads back as the index that was written, when lengths fit their fields |
| DpkgCache.CacheIsExact | crates/jlr-measure/src/dpkg.rs:192-228 | whatever is accepted is exactly what would be written for the index it yields |
| DpkgCache.ReadCache | crates/jlr-measure/src/dpkg.rs:192-228 | the cursor-based reader computes the specified result; any bytes yield an index of the right shape or none |
| DpkgCache.WriteCache | crates/jlr-measure/src/dpkg.rs:164-190 | the writer produces the specified bytes, which read back when lengths fit |
| MeterProofs.ChargeKeeps | crates/jlrd/src/budget.rs:59-66 | a charge within the window keeps every interval within twice the bound |
| MeterProofs.RollKeeps | crates/jlrd/src/budget.rs:33-38 | restarting a window that ran out keeps every interval within twice the bound |
| Budget.Budgets.Exhausted | crates/jlrd/src/budget.rs:40-57 | exactly when the user's or the global window, restarted if it ran out, is used up |
| Budget.Budgets.Enter | crates/jlrd/src/budget.rs:59-72 | a charge, whoever makes it, is added to the user's and the global window, each restarted if it ran out; with room and a bounded amount everything stays accounted for, also across forgetting users |
| Budget.Budgets.Serve | crates/jlrd/src/main.rs:455-474 | an event is worked on if and only if it is root's or neither window, restarted if it ran out, was used up when it arrived; work is charged exactly then; root is not charged |
| Budget.Budgets.ChargesAreBounded | crates/jlrd/src/budget.rs:26-72 | in every interval as long as the window, all users together are charged at most twice the global allowance plus one charge, and each user at most twice their own |

## Left out

- Sequence numbers beyond 64 bits: the ledger model uses unbounded numbers; the engine and the installation theorems carry the bound as a hypothesis.
- Write-back order of the storage device: a file operation that returned success is durable.
- Batched appends with syncing switched off, and the flush that ends a batch (`set_sync`, `sync`).
- Locking of the ledger directory and the listing of boot identifiers during replay.
- Ed25519, SHA-256, key files and randomness: an abstract signature relation and a hash parameter take their place.
- Discovery, pinning, mounting and identifying boot media, and the execution of the new root.
- BootRuns.TryMedium: a slot's manifest, verified and parsed or not, is an argument; that signatures are checked against the anchors is stated in `Envelope`.
- Index, object store, scanning and daemon loops of the engine: only what changes states, events and authority is modelled; the artifact that the index names for a path is an argument.
- Policy and revocation floors parsed from event text (`parse_epoch`), and the text of events' details.
- Decisions.Decide: sorted, deduplicated lists of capabilities and reasons are sets; the wording of questions is a value that names what is asked.
- AuthorityRuns.AuthoritySurvives: a grant must not clash with a current digest and must not share its stem with another recorded subject; by `Authority.ApprovalsApart` the latter needs two records of one digest.
- DpkgIndex.Build: reading dpkg's status and list files, usrmerge candidates and MD5 manifests are not modelled; claims are the input, and the standard library's stable sort is modelled as an insertion sort.
- Cells, namespaces, seccomp, Landlock, file measurement, the command line, and the fanotify loop of the daemon except for the order of its budget calls.
