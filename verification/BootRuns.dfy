/**
 Booting: which slot of which medium is started, what is recorded about it, and what holds over any number of boots.
 */
module BootRuns {
  import opened Wrappers
  import opened Hashing
  import opened Cbor
  import opened CborProofs
  import opened CborRecord
  import opened BootState
  import opened BootCodec
  import opened BootMedia
  import opened BootImage

  /** A medium on which no state was ever written: one proven slot `a`. */
  const FRESH: State := State(0, [Slot([97], MAX_PRIORITY, 0, true)])

  /** Its slot is booted as soon as a manifest verifies, and no try is spent on it. */
  lemma FreshBoots(m: Manifest)
    ensures Best(FRESH, [([97], m)], 0) && Spend(FRESH, 0) == FRESH && |FRESH.slots| == 1
    ensures Good(FRESH)
  {
  }

  /** The state a boot takes from a medium. */
  function StateOn(d: Disk): State {
    if Current(d).Some? then Current(d).value else FRESH
  }

  function Higher(a: u64, b: u64): u64 {
    if a < b then b else a
  }

  datatype Booted = Booted(slot: Name, manifest: Manifest, unproven: bool)

  /** States the boot code produces: distinct, storable slot names. */
  ghost predicate Good(s: State) {
    BootState.Distinct(s.slots) && Storable(s)
  }

  function Raised(s: State, floor: u64): State {
    s.(floor := Higher(s.floor, floor))
  }

  // ----- The tries of one slot -----

  /** How often the slot of a name may still be booted without having proven itself. */
  function TriesOf(slots: seq<Slot>, name: Name): nat {
    var at := Find(slots, name);
    if at.Some? && !slots[at.value].successful then slots[at.value].tries else 0
  }

  ghost predicate NoMoreTries(before: seq<Slot>, after: seq<Slot>) {
    forall name :: TriesOf(after, name) <= TriesOf(before, name)
  }

  lemma {:induction false} FindByName(slots: seq<Slot>, other: seq<Slot>, name: Name)
    requires |slots| == |other| && forall i :: 0 <= i < |slots| ==> slots[i].name == other[i].name
    ensures Find(slots, name) == Find(other, name)
    decreases |slots|
  {
    if slots != [] {
      FindByName(slots[1..], other[1..], name);
    }
  }

  lemma {:induction false} FindsName(slots: seq<Slot>, name: Name)
    requires Find(slots, name).Some?
    ensures slots[Find(slots, name).value].name == name
    decreases |slots|
  {
    if slots[0].name != name {
      FindsName(slots[1..], name);
    }
  }

  lemma TriesUpdate(slots: seq<Slot>, i: nat, s: Slot, name: Name)
    requires i < |slots| && Find(slots, slots[i].name) == Some(i) && s.name == slots[i].name
    ensures TriesOf(slots[i := s], name) ==
            if name == s.name then (if s.successful then 0 else s.tries) else TriesOf(slots, name)
  {
    FindByName(slots, slots[i := s], name);
  }

  lemma BadIsGood(s: State, name: Name)
    requires Good(s)
    ensures Good(Bad(s, name)) && Bad(s, name).floor == s.floor && NoMoreTries(s.slots, Bad(s, name).slots)
  {
    BadKeeps(s, name);
    var at := Find(s.slots, name);
    if at.Some? {
      forall other ensures TriesOf(Bad(s, name).slots, other) <= TriesOf(s.slots, other) {
        TriesUpdate(s.slots, at.value, s.slots[at.value].(priority := 0, successful := false, tries := 0), other);
      }
    }
  }

  lemma ProvenIsGood(s: State, name: Name, minEpoch: u64)
    requires Good(s)
    ensures var p := Proven(s, name, minEpoch);
            && Good(p) && p.floor == Higher(s.floor, minEpoch)
            && NoMoreTries(s.slots, p.slots) && TriesOf(p.slots, name) == 0
  {
    ProvenKeeps(s, name, minEpoch);
    var at := Find(s.slots, name);
    if at.Some? {
      forall other
        ensures TriesOf(Proven(s, name, minEpoch).slots, other) <= if other == name then 0 else TriesOf(s.slots, other)
      {
        TriesUpdate(s.slots, at.value, s.slots[at.value].(successful := true, tries := 0), other);
      }
    }
  }

  lemma SpendIsGood(s: State, i: nat)
    requires Good(s) && i < |s.slots| && !s.slots[i].successful && s.slots[i].tries > 0
    ensures Good(Spend(s, i)) && Spend(s, i).floor == s.floor && NoMoreTries(s.slots, Spend(s, i).slots)
    ensures TriesOf(Spend(s, i).slots, s.slots[i].name) + 1 == TriesOf(s.slots, s.slots[i].name)
  {
    SpendsOneTry(s, i);
    FindDistinct(s.slots, i);
    var spent := s.slots[i].(tries := s.slots[i].tries - 1);
    forall name ensures TriesOf(Spend(s, i).slots, name) ==
                        if name == spent.name then spent.tries else TriesOf(s.slots, name) {
      TriesUpdate(s.slots, i, spent, name);
    }
  }

  // ----- The manifests a boot has accepted -----

  /** Every entry is what verifying that name's manifest gave. */
  predicate Accepted(verified: Manifests, manifests: Name -> Option<Manifest>, floor: u64) {
    forall i :: 0 <= i < |verified| ==> VerifyManifest(manifests(verified[i].0), floor) == Ok(verified[i].1)
  }

  function Without(verified: Manifests, name: Name): Manifests {
    if verified == [] then []
    else if verified[0].0 == name then Without(verified[1..], name)
    else [verified[0]] + Without(verified[1..], name)
  }

  lemma {:induction false} WithoutShrinks(verified: Manifests, name: Name, manifests: Name -> Option<Manifest>,
                                          floor: u64)
    requires Accepted(verified, manifests, floor)
    ensures Accepted(Without(verified, name), manifests, floor) && |Without(verified, name)| <= |verified|
    ensures ManifestOf(verified, name).Some? ==> |Without(verified, name)| < |verified|
    decreases |verified|
  {
    if verified != [] {
      WithoutShrinks(verified[1..], name, manifests, floor);
    }
  }

  lemma {:induction false} WithoutOthers(verified: Manifests, name: Name, other: Name)
    requires other != name
    ensures ManifestOf(Without(verified, name), other) == ManifestOf(verified, other)
    decreases |verified|
  {
    if verified != [] {
      WithoutOthers(verified[1..], name, other);
      if verified[0].0 != name {
        assert Without(verified, name)[1..] == Without(verified[1..], name);
      }
    }
  }

  lemma {:induction false} ManifestAccepted(verified: Manifests, name: Name, manifests: Name -> Option<Manifest>,
                                            floor: u64)
    requires Accepted(verified, manifests, floor)
    ensures ManifestOf(verified, name).Some? ==>
              VerifyManifest(manifests(name), floor) == Ok(ManifestOf(verified, name).value)
    ensures ManifestOf(verified, name).None? ==> forall i :: 0 <= i < |verified| ==> verified[i].0 != name
    decreases |verified|
  {
    if verified != [] && verified[0].0 != name {
      ManifestAccepted(verified[1..], name, manifests, floor);
    }
  }

  /** Verifies every slot's manifest: a slot has an entry exactly when its manifest verifies. */
  method VerifySlots(s: State, manifests: Name -> Option<Manifest>) returns (verified: Manifests)
    ensures Accepted(verified, manifests, s.floor)
    ensures forall i :: 0 <= i < |s.slots| ==>
              (VerifyManifest(manifests(s.slots[i].name), s.floor).Ok? <==> ManifestOf(verified, s.slots[i].name).Some?)
  {
    verified := [];
    for i := 0 to |s.slots|
      invariant Accepted(verified, manifests, s.floor)
      invariant forall j :: 0 <= j < i && VerifyManifest(manifests(s.slots[j].name), s.floor).Ok? ==>
                  exists x :: 0 <= x < |verified| && verified[x].0 == s.slots[j].name
    {
      var r := VerifyManifest(manifests(s.slots[i].name), s.floor);
      if r.Ok? {
        ghost var was := verified;
        verified := verified + [(s.slots[i].name, r.value)];
        assert verified[|was|].0 == s.slots[i].name;
        assert forall x :: 0 <= x < |was| ==> verified[x] == was[x];
      }
    }
    forall i | 0 <= i < |s.slots|
      ensures VerifyManifest(manifests(s.slots[i].name), s.floor).Ok? <==> ManifestOf(verified, s.slots[i].name).Some?
    {
      ManifestAccepted(verified, s.slots[i].name, manifests, s.floor);
    }
  }

  // ----- One medium -----

  /** What one try of a medium leaves on it, whichever way it ends. */
  ghost predicate Kept(before: State, after: State, floor: u64) {
    && Good(after)
    && before.floor <= after.floor <= Higher(before.floor, floor)
    && NoMoreTries(before.slots, after.slots)
  }

  /** What may be booted: a release no older than either floor, and an unproven one only for one of its tries. */
  ghost predicate MayBoot(before: State, after: State, floor: u64, b: Booted) {
    && Acceptable(b.manifest, Higher(before.floor, floor))
    && (b.unproven ==> TriesOf(after.slots, b.slot) + 1 <= TriesOf(before.slots, b.slot))
    && Standing(after.slots, b.slot, !b.unproven)
  }

  /** The slot is there and not retired, and proven if it was. */
  predicate Standing(slots: seq<Slot>, name: Name, successful: bool) {
    var at := Find(slots, name);
    at.Some? && slots[at.value].priority > 0 && (successful ==> slots[at.value].successful)
  }

  lemma StandingAt(slots: seq<Slot>, i: nat)
    requires BootState.Distinct(slots) && i < |slots| && slots[i].priority > 0
    ensures Standing(slots, slots[i].name, slots[i].successful)
  {
    FindDistinct(slots, i);
  }

  ghost predicate Tried(before: State, after: State, floor: u64, booted: Option<Booted>) {
    Kept(before, after, floor) && (booted.Some? ==> MayBoot(before, after, floor, booted.value))
  }

  predicate AllWork(f: Faults) {
    && f.readPending.Works? && f.promote.Works? && f.removeTorn.Works? && f.create.Works? && f.write.Works?
    && f.sync.Works? && f.rename.Works? && f.syncDir.Works?
  }

  /** Writing `s` to a medium leaves the old state there or `s`. */
  method Persist(medium: Medium, s: State, f: Faults) returns (o: Outcome)
    requires Sane(medium.Value()) && Storable(s)
    modifies medium
    ensures Sane(medium.Value())
    ensures StateOn(medium.Value()) == old(StateOn(medium.Value())) || StateOn(medium.Value()) == s
    ensures o.Done? ==> StateOn(medium.Value()) == s
    ensures AllWork(f) ==> o.Done?
  {
    WriteIsAtomic(medium.Value(), s, f);
    o := medium.WriteState(s, f);
  }

  // ----- Which slot is booted -----

  /** Slot `i` may be booted and everything about it verifies. */
  predicate Loadable(s: State, manifests: Name -> Option<Manifest>, load: Name -> Load, i: nat) {
    && i < |s.slots|
    && s.slots[i].priority > 0
    && (s.slots[i].successful || s.slots[i].tries > 0)
    && VerifyManifest(manifests(s.slots[i].name), s.floor).Ok?
    && load(s.slots[i].name).Verified?
  }

  /** Booting slot `i`, as the medium was found. */
  function BootOf(s: State, manifests: Name -> Option<Manifest>, load: Name -> Load, i: nat): Booted
    requires Loadable(s, manifests, load, i)
  {
    Booted(s.slots[i].name, VerifyManifest(manifests(s.slots[i].name), s.floor).value, !s.slots[i].successful)
  }

  predicate FirstLoadable(s: State, manifests: Name -> Option<Manifest>, load: Name -> Load, i: nat) {
    && Loadable(s, manifests, load, i)
    && forall j :: 0 <= j < |s.slots| && j != i && Loadable(s, manifests, load, j) ==> Ahead(s.slots, i, j)
  }

  /** Nothing goes wrong that is not a slot's own fault. */
  ghost predicate Steady(load: Name -> Load, faults: nat -> Faults) {
    (forall name :: !load(name).PowerLost?) && (forall n :: AllWork(faults(n)))
  }

  /** A slot loadable when the medium was found has not been dropped, retired or changed. */
  predicate StillThere(s: State, state: State, verified: Manifests, i: nat) {
    i < |s.slots| && i < |state.slots| && state.slots[i] == s.slots[i] && ManifestOf(verified, s.slots[i].name).Some?
  }

  predicate AllThere(s: State, state: State, verified: Manifests, manifests: Name -> Option<Manifest>,
                     load: Name -> Load)
  {
    forall j :: 0 <= j < |s.slots| && Loadable(s, manifests, load, j) ==> StillThere(s, state, verified, j)
  }

  /** Dropping a slot that does not load, retired or not, loses no slot that does. */
  lemma DropKeeps(s: State, state: State, next: State, verified: Manifests, manifests: Name -> Option<Manifest>,
                  load: Name -> Load, name: Name)
    requires AllThere(s, state, verified, manifests, load) && !load(name).Verified?
    requires next == state || next == Bad(state, name)
    ensures AllThere(s, next, Without(verified, name), manifests, load)
  {
    forall j | 0 <= j < |s.slots| && Loadable(s, manifests, load, j)
      ensures StillThere(s, next, Without(verified, name), j)
    {
      assert StillThere(s, state, verified, j);
      WithoutOthers(verified, name, s.slots[j].name);
    }
  }

  /** The best of what is left is the best of what loads, if it loads itself. */
  lemma BestIsFirst(s: State, state: State, verified: Manifests, manifests: Name -> Option<Manifest>,
                    load: Name -> Load, i: nat)
    requires AllThere(s, state, verified, manifests, load) && Best(state, verified, i)
    requires Accepted(verified, manifests, state.floor) && state.floor == s.floor
    requires i < |s.slots| && state.slots[i] == s.slots[i] && load(s.slots[i].name).Verified?
    ensures FirstLoadable(s, manifests, load, i)
  {
    ManifestAccepted(verified, s.slots[i].name, manifests, s.floor);
    forall j | 0 <= j < |s.slots| && j != i && Loadable(s, manifests, load, j) ensures Ahead(s.slots, i, j) {
      assert StillThere(s, state, verified, j);
      ManifestAccepted(verified, s.slots[j].name, manifests, s.floor);
      assert Bootable(state, verified, j);
    }
  }

  lemma NoneLoadable(s: State, state: State, verified: Manifests, manifests: Name -> Option<Manifest>,
                     load: Name -> Load)
    requires AllThere(s, state, verified, manifests, load) && Accepted(verified, manifests, state.floor)
    requires state.floor == s.floor && forall i :: 0 <= i < |state.slots| ==> !Bootable(state, verified, i)
    ensures forall i :: 0 <= i < |s.slots| ==> !Loadable(s, manifests, load, i)
  {
    forall i | 0 <= i < |s.slots| ensures !Loadable(s, manifests, load, i) {
      if Loadable(s, manifests, load, i) {
        assert StillThere(s, state, verified, i);
        ManifestAccepted(verified, s.slots[i].name, manifests, s.floor);
        assert Bootable(state, verified, i);
      }
    }
  }

  datatype Verdict = Boot | Skip | Stop

  /** Only retired slots differ from how they were found. */
  predicate OnlyRetired(s: State, state: State) {
    && state.floor == s.floor && |state.slots| == |s.slots|
    && forall i :: 0 <= i < |s.slots| ==> state.slots[i] == s.slots[i] || state.slots[i].priority == 0
  }

  predicate SameSlot(a: State, b: State, i: nat) {
    i < |a.slots| && i < |b.slots| && a.slots[i] == b.slots[i]
  }

  lemma SpentStands(s: State, i: nat)
    requires Good(s) && i < |s.slots| && s.slots[i].priority > 0 && (s.slots[i].successful || s.slots[i].tries > 0)
    ensures Standing(Spend(s, i).slots, s.slots[i].name, s.slots[i].successful)
    ensures Good(Spend(s, i)) && Spend(s, i).floor == s.floor && NoMoreTries(s.slots, Spend(s, i).slots)
    ensures !s.slots[i].successful ==>
              TriesOf(Spend(s, i).slots, s.slots[i].name) + 1 == TriesOf(s.slots, s.slots[i].name)
  {
    if !s.slots[i].successful {
      SpendsOneTry(s, i);
      SpendIsGood(s, i);
    }
    StandingAt(Spend(s, i).slots, i);
  }

  /** Slot `i` is retired, and nothing else changed. */
  predicate RetiredOn(s: State, t: State, i: nat)
    requires i < |s.slots|
  {
    && t.floor == s.floor && |t.slots| == |s.slots|
    && t.slots[i].name == s.slots[i].name && t.slots[i].priority == 0 && t.slots[i].tries == 0
    && !t.slots[i].successful
    && forall j :: 0 <= j < |s.slots| && j != i ==> t.slots[j] == s.slots[j]
  }

  /** Slots whose manifest is still to be tried are as the medium was found. */
  predicate Untouched(s: State, t: State, verified: Manifests) {
    && |t.slots| == |s.slots|
    && (forall i :: 0 <= i < |s.slots| ==> t.slots[i].name == s.slots[i].name)
    && forall i :: 0 <= i < |s.slots| && ManifestOf(verified, s.slots[i].name).Some? ==> t.slots[i] == s.slots[i]
  }

  lemma {:induction false} WithoutIt(verified: Manifests, name: Name)
    ensures ManifestOf(Without(verified, name), name) == None
    decreases |verified|
  {
    if verified != [] {
      WithoutIt(verified[1..], name);
      if verified[0].0 != name {
        assert Without(verified, name)[1..] == Without(verified[1..], name);
      }
    }
  }

  lemma UntouchedSkips(s: State, t: State, next: State, verified: Manifests, name: Name)
    requires Untouched(s, t, verified) && |next.slots| == |t.slots|
    requires forall j :: 0 <= j < |t.slots| ==>
               next.slots[j].name == t.slots[j].name && (t.slots[j].name == name || next.slots[j] == t.slots[j])
    ensures Untouched(s, next, Without(verified, name))
  {
    WithoutIt(verified, name);
    forall j | 0 <= j < |s.slots| && ManifestOf(Without(verified, name), s.slots[j].name).Some?
      ensures next.slots[j] == s.slots[j]
    {
      WithoutOthers(verified, name, s.slots[j].name);
    }
  }

  /** Whatever of these is on the medium after a slot was skipped, the slots still to be tried are untouched. */
  lemma UntouchedOn(s: State, t: State, record: State, next: State, verified: Manifests, i: nat)
    requires Untouched(s, t, verified) && Untouched(s, record, verified) && Good(record) && i < |record.slots|
    requires next in {t, record, Bad(record, record.slots[i].name), Spend(record, i)}
    ensures Untouched(s, next, Without(verified, record.slots[i].name))
  {
    FindDistinct(record.slots, i);
    UntouchedSkips(s, if next == t then t else record, next, verified, record.slots[i].name);
  }

  /**
   Deals with the chosen slot once its image was read. A try is spent, durably, before the slot is used; a slot proven
   bad is retired; any other failure only skips it.
   */
  method TrySlot(medium: Medium, record: BootRecord, ghost before: State, floor: u64, choice: Choice, loaded: Load,
                 f: Faults)
    returns (v: Verdict)
    requires Sane(medium.Value()) && Kept(before, StateOn(medium.Value()), floor)
    requires Kept(before, record.Value(), floor)
    requires choice.index < |record.slots| && choice.next == Spend(record.Value(), choice.index)
    requires record.slots[choice.index].successful || record.slots[choice.index].tries > 0
    requires record.slots[choice.index].priority > 0
    requires SameSlot(StateOn(medium.Value()), record.Value(), choice.index)
    modifies medium, record
    ensures Sane(medium.Value()) && Kept(before, StateOn(medium.Value()), floor) && Kept(before, record.Value(), floor)
    ensures record.Value() == old(record.Value()) ||
            (record.Value() == Bad(old(record.Value()), old(record.slots[choice.index].name)) && !loaded.Verified?)
    ensures StateOn(medium.Value()) in {old(StateOn(medium.Value())), record.Value(), choice.next}
    ensures v.Boot? ==>
              var slot := old(record.slots[choice.index]);
              && loaded.Verified?
              && (!slot.successful ==>
                    TriesOf(StateOn(medium.Value()).slots, slot.name) < TriesOf(before.slots, slot.name))
              && Standing(StateOn(medium.Value()).slots, slot.name, slot.successful)
    ensures AllWork(f) && !loaded.PowerLost? ==> v == if loaded.Verified? then Boot else Skip
    ensures AllWork(f) && loaded.ProvenBad? && ProvesBadContent(loaded.why) ==>
              && RetiredOn(old(record.Value()), StateOn(medium.Value()), choice.index)
              && RetiredOn(old(record.Value()), record.Value(), choice.index)
  {
    var slot := record.slots[choice.index];
    v := Skip;
    var o := Going;
    match loaded {
      case PowerLost => v := Stop;
      case Transient =>
      case ProvenBad(why) =>
        BadIsGood(record.Value(), slot.name);
        BadRetires(record.Value(), slot.name, []);
        var _ := record.RecordImageFailure(slot.name, why);
        o := Persist(medium, State(record.floor, record.slots), f);
        v := if o.Dead? then Stop else Skip;
      case Verified =>
        SpentStands(record.Value(), choice.index);
        StandingAt(StateOn(medium.Value()).slots, choice.index);
        o := Done;
        if choice.next != State(record.floor, record.slots) {
          o := Persist(medium, choice.next, f);
        }
        v := if o.Done? then Boot else if o.Dead? then Stop else Skip;
    }
  }

  /**
   Only a loadable slot is booted. When nothing else goes wrong, it is the first one in order, and nothing is booted
   only if none is loadable.
   */
  ghost predicate Chosen(s: State, manifests: Name -> Option<Manifest>, load: Name -> Load, faults: nat -> Faults,
                         booted: Option<Booted>)
  {
    && (booted.Some? ==> exists i :: Loadable(s, manifests, load, i) && booted.value == BootOf(s, manifests, load, i)
                                     && (Steady(load, faults) ==> FirstLoadable(s, manifests, load, i)))
    && (booted.None? && Steady(load, faults) ==> forall i :: 0 <= i < |s.slots| ==> !Loadable(s, manifests, load, i))
  }

  /** What the loop over the slots of one medium keeps. */
  ghost predicate Trying(s: State, state: State, verified: Manifests, manifests: Name -> Option<Manifest>,
                         load: Name -> Load, faults: nat -> Faults)
  {
    && OnlyRetired(s, state) && Accepted(verified, manifests, s.floor)
    && (Steady(load, faults) ==> AllThere(s, state, verified, manifests, load))
  }

  lemma TryingSkips(s: State, state: State, next: State, verified: Manifests, manifests: Name -> Option<Manifest>,
                    load: Name -> Load, faults: nat -> Faults, name: Name)
    requires Trying(s, state, verified, manifests, load, faults)
    requires ManifestOf(verified, name).Some? && (Steady(load, faults) ==> !load(name).Verified?)
    requires next == state || next == Bad(state, name)
    ensures Trying(s, next, Without(verified, name), manifests, load, faults)
    ensures |Without(verified, name)| < |verified|
  {
    WithoutShrinks(verified, name, manifests, s.floor);
    if Steady(load, faults) {
      DropKeeps(s, state, next, verified, manifests, load, name);
    }
  }

  lemma TryingBoots(s: State, state: State, verified: Manifests, manifests: Name -> Option<Manifest>,
                    load: Name -> Load, faults: nat -> Faults, i: nat)
    requires Trying(s, state, verified, manifests, load, faults) && Best(state, verified, i)
    requires load(state.slots[i].name).Verified?
    ensures var slot := state.slots[i];
            var b := Booted(slot.name, ManifestOf(verified, slot.name).value, !slot.successful);
            && Chosen(s, manifests, load, faults, Some(b))
            && Acceptable(b.manifest, s.floor)
  {
    ManifestAccepted(verified, state.slots[i].name, manifests, s.floor);
    assert Loadable(s, manifests, load, i);
    if Steady(load, faults) {
      BestIsFirst(s, state, verified, manifests, load, i);
    }
  }

  lemma TryingEnds(s: State, state: State, verified: Manifests, manifests: Name -> Option<Manifest>, load: Name -> Load,
                   faults: nat -> Faults)
    requires Trying(s, state, verified, manifests, load, faults)
    requires forall i :: 0 <= i < |state.slots| ==> !Bootable(state, verified, i)
    ensures Chosen(s, manifests, load, faults, None)
  {
    if Steady(load, faults) {
      NoneLoadable(s, state, verified, manifests, load);
    }
  }

  /** Slot `i` could be booted, but for its image, which is proven bad. */
  predicate ProvedBad(s: State, manifests: Name -> Option<Manifest>, load: Name -> Load, i: nat) {
    && i < |s.slots| && s.slots[i].priority > 0 && (s.slots[i].successful || s.slots[i].tries > 0)
    && VerifyManifest(manifests(s.slots[i].name), s.floor).Ok? && load(s.slots[i].name).ProvenBad?
  }

  predicate RetiredIn(t: State, i: nat) {
    i < |t.slots| && t.slots[i].priority == 0
  }

  /** Every such slot that is not to be tried any more is retired in `t`. */
  predicate Gone(s: State, t: State, verified: Manifests, manifests: Name -> Option<Manifest>, load: Name -> Load) {
    forall i :: 0 <= i < |s.slots| && ProvedBad(s, manifests, load, i) ==>
      ManifestOf(verified, s.slots[i].name).None? ==> RetiredIn(t, i)
  }

  /** Every such slot that comes before the booted one, or every one if none is booted, is retired in `t`. */
  predicate BadRetired(s: State, t: State, manifests: Name -> Option<Manifest>, load: Name -> Load,
                       booted: Option<Booted>)
  {
    forall i :: 0 <= i < |s.slots| && ProvedBad(s, manifests, load, i) ==>
      (booted.Some? ==> ComesBefore(s.slots, i, booted.value.slot)) ==> RetiredIn(t, i)
  }

  predicate ComesBefore(slots: seq<Slot>, i: nat, name: Name)
    requires i < |slots|
  {
    exists x :: 0 <= x < |slots| && slots[x].name == name && Ahead(slots, i, x)
  }

  lemma AheadOnce(slots: seq<Slot>, i: nat, j: nat)
    requires i < |slots| && j < |slots| && Ahead(slots, i, j)
    ensures !Ahead(slots, j, i)
  {
    if Less(slots[i].name, slots[j].name) && Less(slots[j].name, slots[i].name) {
      LessTransitive(slots[i].name, slots[j].name, slots[i].name);
    }
    LessIrreflexive(slots[i].name);
  }

  lemma GoneStarts(s: State, t: State, verified: Manifests, manifests: Name -> Option<Manifest>, load: Name -> Load)
    requires forall i :: 0 <= i < |s.slots| ==>
               (VerifyManifest(manifests(s.slots[i].name), s.floor).Ok? <==>
                ManifestOf(verified, s.slots[i].name).Some?)
    ensures Gone(s, t, verified, manifests, load)
  {
  }

  /** Retired slots stay so, and the one that was skipped is retired if its image is proven bad. */
  lemma GoneSkips(s: State, t: State, next: State, verified: Manifests, manifests: Name -> Option<Manifest>,
                  load: Name -> Load, name: Name)
    requires Gone(s, t, verified, manifests, load) && |next.slots| == |t.slots|
    requires forall j :: 0 <= j < |t.slots| && t.slots[j].priority == 0 ==> next.slots[j].priority == 0
    requires load(name).ProvenBad? ==> forall j :: 0 <= j < |s.slots| && s.slots[j].name == name ==> RetiredIn(next, j)
    ensures Gone(s, next, Without(verified, name), manifests, load)
  {
    forall i | 0 <= i < |s.slots| && ProvedBad(s, manifests, load, i) &&
               ManifestOf(Without(verified, name), s.slots[i].name).None?
      ensures RetiredIn(next, i)
    {
      if s.slots[i].name != name {
        WithoutOthers(verified, name, s.slots[i].name);
        assert RetiredIn(t, i);
      }
    }
  }

  lemma GoneOn(s: State, on: State, state: State, next: State, verified: Manifests,
               manifests: Name -> Option<Manifest>, load: Name -> Load, i: nat)
    requires Gone(s, on, verified, manifests, load) && Gone(s, state, verified, manifests, load) && Good(state)
    requires i < |state.slots| && Untouched(s, state, verified) && Untouched(s, on, verified)
    requires next in {on, state, Bad(state, state.slots[i].name), Spend(state, i)}
    requires load(state.slots[i].name).ProvenBad? ==> RetiredIn(next, i)
    ensures Gone(s, next, Without(verified, state.slots[i].name), manifests, load)
  {
    FindDistinct(state.slots, i);
    forall j | 0 <= j < |s.slots| && s.slots[j].name == state.slots[i].name ensures j == i {
      assert state.slots[j].name == state.slots[i].name;
    }
    GoneSkips(s, if next == on then on else state, next, verified, manifests, load, state.slots[i].name);
  }

  /** What is left to be tried, if it may be booted at all, is bootable. */
  lemma LeftIsBootable(s: State, state: State, verified: Manifests, manifests: Name -> Option<Manifest>,
                       load: Name -> Load, i: nat)
    requires Untouched(s, state, verified) && Accepted(verified, manifests, s.floor) && state.floor == s.floor
    requires ProvedBad(s, manifests, load, i) && ManifestOf(verified, s.slots[i].name).Some?
    ensures Bootable(state, verified, i)
  {
    ManifestAccepted(verified, s.slots[i].name, manifests, s.floor);
  }

  lemma GoneEnds(s: State, on: State, state: State, verified: Manifests, manifests: Name -> Option<Manifest>,
                 load: Name -> Load)
    requires Gone(s, on, verified, manifests, load) && Untouched(s, state, verified)
    requires Accepted(verified, manifests, s.floor) && state.floor == s.floor
    requires forall i :: 0 <= i < |state.slots| ==> !Bootable(state, verified, i)
    ensures BadRetired(s, on, manifests, load, None)
  {
    forall i | 0 <= i < |s.slots| && ProvedBad(s, manifests, load, i) ensures RetiredIn(on, i) {
      if ManifestOf(verified, s.slots[i].name).Some? {
        LeftIsBootable(s, state, verified, manifests, load, i);
      }
    }
  }

  lemma NotBeforeBest(s: State, state: State, verified: Manifests, manifests: Name -> Option<Manifest>,
                      load: Name -> Load, b: nat, i: nat)
    requires Untouched(s, state, verified) && Good(state) && Accepted(verified, manifests, s.floor)
    requires state.floor == s.floor && Best(state, verified, b) && load(state.slots[b].name).Verified?
    requires ProvedBad(s, manifests, load, i) && ComesBefore(s.slots, i, state.slots[b].name)
    ensures ManifestOf(verified, s.slots[i].name).None?
  {
    var x :| 0 <= x < |s.slots| && s.slots[x].name == state.slots[b].name && Ahead(s.slots, i, x);
    assert state.slots[x].name == state.slots[b].name && x == b;
    if ManifestOf(verified, s.slots[i].name).Some? {
      LeftIsBootable(s, state, verified, manifests, load, i);
      assert state.slots[i] == s.slots[i] && state.slots[b] == s.slots[b];
      assert Ahead(state.slots, b, i) && Ahead(state.slots, i, b);
      AheadOnce(state.slots, b, i);
    }
  }

  lemma GoneBoots(s: State, on: State, state: State, next: State, verified: Manifests,
                  manifests: Name -> Option<Manifest>, load: Name -> Load, b: Booted, i: nat)
    requires Gone(s, on, verified, manifests, load) && Gone(s, state, verified, manifests, load) && Good(state)
    requires Untouched(s, state, verified) && Untouched(s, on, verified) && Accepted(verified, manifests, s.floor)
    requires state.floor == s.floor && Best(state, verified, i) && load(state.slots[i].name).Verified?
    requires next in {on, state, Spend(state, i)} && b.slot == state.slots[i].name
    ensures BadRetired(s, next, manifests, load, Some(b))
  {
    forall j | 0 <= j < |s.slots| && ProvedBad(s, manifests, load, j) && ComesBefore(s.slots, j, b.slot)
      ensures RetiredIn(next, j)
    {
      NotBeforeBest(s, state, verified, manifests, load, i, j);
      assert RetiredIn(on, j) && RetiredIn(state, j);
    }
  }

  /** What it keeps of the medium, too. */
  ghost predicate Midway(s: State, on: State, state: State, verified: Manifests, manifests: Name -> Option<Manifest>,
                         load: Name -> Load, faults: nat -> Faults)
  {
    && Trying(s, state, verified, manifests, load, faults)
    && Untouched(s, on, verified) && Untouched(s, state, verified)
    && (Steady(load, faults) ==>
          Gone(s, on, verified, manifests, load) && Gone(s, state, verified, manifests, load))
  }

  lemma MidwaySkips(s: State, on: State, state: State, on': State, state': State, verified: Manifests,
                    manifests: Name -> Option<Manifest>, load: Name -> Load, faults: nat -> Faults, i: nat)
    requires Midway(s, on, state, verified, manifests, load, faults) && Good(state) && Best(state, verified, i)
    requires Steady(load, faults) ==> !load(state.slots[i].name).Verified?
    requires state' == state || state' == Bad(state, state.slots[i].name)
    requires on' in {on, state', Spend(state, i)}
    requires Steady(load, faults) && load(state.slots[i].name).ProvenBad? ==> RetiredIn(on', i) && RetiredIn(state', i)
    ensures Midway(s, on', state', Without(verified, state.slots[i].name), manifests, load, faults)
    ensures |Without(verified, state.slots[i].name)| < |verified|
  {
    TryingSkips(s, state, state', verified, manifests, load, faults, state.slots[i].name);
    UntouchedOn(s, on, state, state', verified, i);
    UntouchedOn(s, on, state, on', verified, i);
    if Steady(load, faults) {
      GoneOn(s, on, state, state', verified, manifests, load, i);
      GoneOn(s, on, state, on', verified, manifests, load, i);
    }
  }

  lemma MidwayBoots(s: State, on: State, state: State, on': State, verified: Manifests,
                    manifests: Name -> Option<Manifest>, load: Name -> Load, faults: nat -> Faults, b: Booted, i: nat)
    requires Midway(s, on, state, verified, manifests, load, faults) && Good(state) && Best(state, verified, i)
    requires load(state.slots[i].name).Verified? && on' in {on, state, Spend(state, i)}
    requires var slot := state.slots[i];
             b == Booted(slot.name, ManifestOf(verified, slot.name).value, !slot.successful)
    ensures Chosen(s, manifests, load, faults, Some(b)) && Acceptable(b.manifest, s.floor)
    ensures Steady(load, faults) ==> BadRetired(s, on', manifests, load, Some(b))
  {
    TryingBoots(s, state, verified, manifests, load, faults, i);
    if Steady(load, faults) {
      GoneBoots(s, on, state, on', verified, manifests, load, b, i);
    }
  }

  lemma MidwayEnds(s: State, on: State, state: State, verified: Manifests, manifests: Name -> Option<Manifest>,
                   load: Name -> Load, faults: nat -> Faults)
    requires Midway(s, on, state, verified, manifests, load, faults)
    requires forall i :: 0 <= i < |state.slots| ==> !Bootable(state, verified, i)
    ensures Chosen(s, manifests, load, faults, None)
    ensures Steady(load, faults) ==> BadRetired(s, on, manifests, load, None)
  {
    TryingEnds(s, state, verified, manifests, load, faults);
    if Steady(load, faults) {
      GoneEnds(s, on, state, verified, manifests, load);
    }
  }

  lemma MidwayStarts(s: State, on: State, verified: Manifests, manifests: Name -> Option<Manifest>,
                     load: Name -> Load, faults: nat -> Faults)
    requires Accepted(verified, manifests, s.floor) && on.slots == s.slots
    requires forall i :: 0 <= i < |s.slots| ==>
               (VerifyManifest(manifests(s.slots[i].name), s.floor).Ok? <==>
                ManifestOf(verified, s.slots[i].name).Some?)
    ensures Midway(s, on, s, verified, manifests, load, faults)
  {
    TryingStarts(s, verified, manifests, load, faults);
    GoneStarts(s, on, verified, manifests, load);
    GoneStarts(s, s, verified, manifests, load);
  }

  lemma TryingStarts(s: State, verified: Manifests, manifests: Name -> Option<Manifest>, load: Name -> Load,
                     faults: nat -> Faults)
    requires Accepted(verified, manifests, s.floor)
    requires forall i :: 0 <= i < |s.slots| ==>
               (VerifyManifest(manifests(s.slots[i].name), s.floor).Ok? <==>
                ManifestOf(verified, s.slots[i].name).Some?)
    ensures Trying(s, s, verified, manifests, load, faults)
  {
    forall j | 0 <= j < |s.slots| && Loadable(s, manifests, load, j) ensures StillThere(s, s, verified, j) {
    }
  }

  /** What loading the slots' images comes to, each against its manifest. */
  function Loads(h: Sha, manifests: Name -> Option<Manifest>, images: Name -> Loading): Name -> Load {
    name => if manifests(name).None? then Transient else LoadOf(h, manifests(name).value, images(name))
  }

  /** What is booted is the image that an accepted, signed manifest of the slot commits to. */
  predicate Committed(h: Sha, manifests: Name -> Option<Manifest>, floor: u64, b: Booted, image: seq<byte>) {
    VerifyManifest(manifests(b.slot), floor) == Ok(b.manifest) && IsImage(h, b.manifest, image)
  }

  lemma LoadsAccepted(h: Sha, verified: Manifests, name: Name, manifests: Name -> Option<Manifest>, floor: u64,
                      images: Name -> Loading)
    requires Accepted(verified, manifests, floor) && ManifestOf(verified, name).Some?
    ensures VerifyManifest(manifests(name), floor) == Ok(ManifestOf(verified, name).value)
    ensures Loads(h, manifests, images)(name) == LoadOf(h, ManifestOf(verified, name).value, images(name))
  {
    ManifestAccepted(verified, name, manifests, floor);
  }

  /** One turn of the loop over the slots: loads the image of the best one, and boots it, drops it, or stops. */
  method TryBest(h: Sha, medium: Medium, record: BootRecord, ghost before: State, floor: u64, ghost s: State,
                 verified: Manifests, choice: Choice, manifests: Name -> Option<Manifest>, images: Name -> Loading,
                 faults: nat -> Faults)
    returns (v: Verdict, b: Booted, image: seq<byte>)
    requires Sane(medium.Value()) && Kept(before, StateOn(medium.Value()), floor) && Kept(before, record.Value(), floor)
    requires Midway(s, StateOn(medium.Value()), record.Value(), verified, manifests, Loads(h, manifests, images),
                    faults)
    requires Best(record.Value(), verified, choice.index) && choice.next == Spend(record.Value(), choice.index)
    modifies medium, record
    ensures Sane(medium.Value()) && Kept(before, StateOn(medium.Value()), floor) && Kept(before, record.Value(), floor)
    ensures v.Stop? ==> !Steady(Loads(h, manifests, images), faults)
    ensures v.Skip? ==>
              && b.slot == old(record.slots[choice.index].name) && |Without(verified, b.slot)| < |verified|
              && Midway(s, StateOn(medium.Value()), record.Value(), Without(verified, b.slot), manifests,
                        Loads(h, manifests, images), faults)
    ensures v.Boot? ==>
              && Chosen(s, manifests, Loads(h, manifests, images), faults, Some(b))
              && Acceptable(b.manifest, s.floor) && Committed(h, manifests, s.floor, b, image)
              && Standing(StateOn(medium.Value()).slots, b.slot, !b.unproven)
              && (b.unproven ==> TriesOf(StateOn(medium.Value()).slots, b.slot) < TriesOf(before.slots, b.slot))
              && (Steady(Loads(h, manifests, images), faults) ==>
                    BadRetired(s, StateOn(medium.Value()), manifests, Loads(h, manifests, images), Some(b)))
  {
    ghost var state, on, load := record.Value(), StateOn(medium.Value()), Loads(h, manifests, images);
    var slot := record.slots[choice.index];
    var manifest := ManifestOf(verified, slot.name).value;
    LoadsAccepted(h, verified, slot.name, manifests, s.floor, images);
    var loaded;
    loaded, image := LoadImage(h, manifest, images(slot.name));
    BadIsProof(h, manifest, images(slot.name));
    v := TrySlot(medium, record, before, floor, choice, loaded, faults(|verified|));
    b := Booted(slot.name, manifest, !slot.successful);
    if v.Boot? {
      MidwayBoots(s, on, state, StateOn(medium.Value()), verified, manifests, load, faults, b, choice.index);
    } else if v.Skip? {
      MidwaySkips(s, on, state, StateOn(medium.Value()), record.Value(), verified, manifests, load, faults,
                  choice.index);
    }
  }

  /**
   Tries the slots of one medium in order until one verifies end to end. The loop ends because every turn that does not
   boot drops a slot from the verified ones. What is booted is the image that the slot's signed manifest commits to.
   */
  method TryMedium(h: Sha, medium: Medium, floor: u64, manifests: Name -> Option<Manifest>, images: Name -> Loading,
                   faults: nat -> Faults)
    returns (booted: Option<Booted>, image: seq<byte>, dead: bool)
    requires Sane(medium.Value()) && Good(StateOn(medium.Value()))
    modifies medium
    ensures Sane(medium.Value())
    ensures Tried(old(StateOn(medium.Value())), StateOn(medium.Value()), floor, booted)
    ensures Chosen(old(Raised(StateOn(medium.Value()), floor)), manifests, Loads(h, manifests, images), faults, booted)
    ensures booted.Some? ==>
              Committed(h, manifests, old(Raised(StateOn(medium.Value()), floor)).floor, booted.value, image)
    ensures dead ==> booted.None? && !Steady(Loads(h, manifests, images), faults)
    ensures Steady(Loads(h, manifests, images), faults) ==>
              BadRetired(old(Raised(StateOn(medium.Value()), floor)), StateOn(medium.Value()), manifests,
                         Loads(h, manifests, images), booted)
  {
    ghost var before := StateOn(medium.Value());
    ghost var load := Loads(h, manifests, images);
    var record := new BootRecord(StateOn(Disk(medium.file, medium.pending)));
    record.RaiseFloor(floor);
    ghost var s := record.Value();
    var verified := VerifySlots(State(record.floor, record.slots), manifests);
    MidwayStarts(s, before, verified, manifests, load, faults);
    while true
      invariant Sane(medium.Value()) && Kept(before, StateOn(medium.Value()), floor)
      invariant fresh(record) && Kept(before, record.Value(), floor)
      invariant Midway(s, StateOn(medium.Value()), record.Value(), verified, manifests, load, faults)
      decreases |verified|
    {
      var choice := Choose(State(record.floor, record.slots), verified);
      if choice.Err? {
        MidwayEnds(s, StateOn(medium.Value()), record.Value(), verified, manifests, load, faults);
        return None, [], false;
      }
      var v, b, copy := TryBest(h, medium, record, before, floor, s, verified, choice.value, manifests, images, faults);
      if v.Stop? {
        return None, [], true;
      } else if v.Boot? {
        return Some(b), copy, false;
      }
      verified := Without(verified, b.slot);
    }
  }

  /** The slot of that name, if there is one, is proven; the floor is the highest of the three; nothing else changed. */
  predicate SuccessOn(s: State, t: State, floor: nat, name: Name, minEpoch: nat) {
    && t.floor >= s.floor && t.floor >= floor && t.floor >= minEpoch
    && (t.floor == s.floor || t.floor == floor || t.floor == minEpoch)
    && |t.slots| == |s.slots|
    && forall i :: 0 <= i < |s.slots| ==>
         if s.slots[i].name == name
         then && t.slots[i].successful && t.slots[i].tries == 0
              && t.slots[i].name == name && t.slots[i].priority == s.slots[i].priority
         else t.slots[i] == s.slots[i]
  }

  lemma ProvenOn(s: State, floor: u64, name: Name, minEpoch: u64)
    requires Good(s)
    ensures SuccessOn(s, Proven(Raised(s, floor), name, minEpoch), floor, name, minEpoch)
  {
    forall i | 0 <= i < |s.slots| && s.slots[i].name == name ensures Find(s.slots, name) == Some(i) {
      FindDistinct(s.slots, i);
    }
    if Find(s.slots, name).Some? {
      FindsName(s.slots, name);
    }
  }

  /** After the health checks pass: the slot is proven and the floor raised, or the medium stays as it was. */
  method RecordSuccess(medium: Medium, floor: u64, b: Booted, f: Faults)
    requires Sane(medium.Value()) && Good(StateOn(medium.Value()))
    modifies medium
    ensures Sane(medium.Value())
    ensures Recorded(old(StateOn(medium.Value())), StateOn(medium.Value()), floor, b)
    ensures AllWork(f) ==>
              SuccessOn(old(StateOn(medium.Value())), StateOn(medium.Value()), floor, b.slot, b.manifest.minEpoch)
  {
    var record := new BootRecord(StateOn(Disk(medium.file, medium.pending)));
    record.RaiseFloor(floor);
    ProvenIsGood(record.Value(), b.slot, b.manifest.minEpoch);
    ProvenOn(StateOn(medium.Value()), floor, b.slot, b.manifest.minEpoch);
    record.MarkSuccessful(b.slot, b.manifest.minEpoch);
    var _ := Persist(medium, State(record.floor, record.slots), f);
  }

  ghost predicate Recorded(before: State, after: State, floor: u64, b: Booted) {
    after == before ||
    after == Proven(Raised(before, floor), b.slot, b.manifest.minEpoch)
  }

  // ----- Several media -----

  lemma KeptAsIs(s: State, floor: u64)
    requires Good(s)
    ensures Kept(s, s, floor)
  {
  }

  /** The highest floor on any of the media. */
  ghost function HighestFloor(media: seq<State>): u64 {
    if media == [] then 0 else Higher(media[0].floor, HighestFloor(media[1..]))
  }

  lemma {:induction false} HighestIsHighest(media: seq<State>, i: nat)
    requires i < |media|
    ensures media[i].floor <= HighestFloor(media)
  {
    if i > 0 {
      HighestIsHighest(media[1..], i - 1);
    }
  }

  /** It is the floor of one of them, or zero if there is none. */
  ghost predicate IsHighest(media: seq<State>, floor: nat) {
    && (forall i :: 0 <= i < |media| ==> media[i].floor <= floor)
    && if media == [] then floor == 0 else exists i :: 0 <= i < |media| && media[i].floor == floor
  }

  lemma {:induction false} HighestIsThere(media: seq<State>)
    ensures IsHighest(media, HighestFloor(media))
    decreases |media|
  {
    if media != [] {
      HighestIsThere(media[1..]);
      if HighestFloor(media) == media[0].floor {
        assert media[0].floor == HighestFloor(media);
      } else {
        var i :| 0 <= i < |media[1..]| && media[1..][i].floor == HighestFloor(media[1..]);
        assert media[i + 1].floor == HighestFloor(media);
      }
      forall i | 0 <= i < |media| ensures media[i].floor <= HighestFloor(media) {
        HighestIsHighest(media, i);
      }
    }
  }

  ghost function StatesOn(media: seq<Medium>): seq<State>
    reads media
  {
    seq(|media|, i requires 0 <= i < |media| reads media => StateOn(media[i].Value()))
  }

  ghost predicate Ready(media: seq<Medium>)
    reads media
  {
    forall i :: 0 <= i < |media| ==> Sane(media[i].Value()) && Good(StateOn(media[i].Value()))
  }

  /** What was booted from medium `i`. */
  function From(booted: Option<(nat, Booted)>, i: nat): Option<Booted> {
    if booted.Some? && booted.value.0 == i then Some(booted.value.1) else None
  }

  function Winner(k: nat, b: Option<Booted>): Option<(nat, Booted)> {
    if b.Some? then Some((k, b.value)) else None
  }

  method FloorOf(media: seq<Medium>) returns (floor: u64)
    ensures floor == HighestFloor(StatesOn(media))
  {
    floor := 0;
    var i := |media|;
    while i > 0
      invariant 0 <= i <= |media| && floor == HighestFloor(StatesOn(media)[i..])
    {
      i := i - 1;
      assert StatesOn(media)[i..][1..] == StatesOn(media)[i + 1..];
      floor := Higher(StateOn(Disk(media[i].file, media[i].pending)).floor, floor);
    }
    assert StatesOn(media)[0..] == StatesOn(media);
  }

  /** The first `k` media were tried, with `booted` from one of them; the others are as they were. */
  ghost predicate TriedMedia(before: seq<State>, after: seq<State>, floor: u64, booted: Option<(nat, Booted)>, k: nat) {
    && |after| == |before|
    && (booted.Some? ==> booted.value.0 < k)
    && (forall i :: 0 <= i < k && i < |before| ==> Tried(before[i], after[i], floor, From(booted, i)))
    && (forall i :: k <= i < |before| ==> after[i] == before[i])
  }

  lemma TriedNext(before: seq<State>, after: seq<State>, floor: u64, k: nat, s: State, b: Option<Booted>)
    requires TriedMedia(before, after, floor, None, k) && k < |before| && Tried(before[k], s, floor, b)
    ensures TriedMedia(before, after[k := s], floor, Winner(k, b), k + 1)
  {
    var booted := Winner(k, b);
    forall i | 0 <= i < k + 1 ensures Tried(before[i], after[k := s][i], floor, From(booted, i)) {
      if i < k {
        assert From(None, i) == None && From(booted, i) == None;
      }
    }
  }

  /** No slot of the medium verifies end to end. */
  predicate Barren(s: State, manifests: Name -> Option<Manifest>, load: Name -> Load) {
    forall i :: 0 <= i < |s.slots| ==> !Loadable(s, manifests, load, i)
  }

  /** The first `k` media hold nothing that verifies, unless something else went wrong with them. */
  ghost predicate AllBarren(h: Sha, before: seq<State>, floor: u64, manifests: nat -> Name -> Option<Manifest>,
                            images: nat -> Name -> Loading, faults: nat -> nat -> Faults, booted: Option<(nat, Booted)>,
                            k: nat)
  {
    forall i :: 0 <= i < k && i < |before| && From(booted, i).None? ==>
      PassedOver(h, Raised(before[i], floor), manifests(i), images(i), faults(i))
  }

  ghost predicate PassedOver(h: Sha, s: State, manifests: Name -> Option<Manifest>, images: Name -> Loading,
                             faults: nat -> Faults)
  {
    Steady(Loads(h, manifests, images), faults) ==> Barren(s, manifests, Loads(h, manifests, images))
  }

  lemma BarrenNext(h: Sha, before: seq<State>, floor: u64, manifests: nat -> Name -> Option<Manifest>,
                   images: nat -> Name -> Loading, faults: nat -> nat -> Faults, k: nat, b: Option<Booted>)
    requires AllBarren(h, before, floor, manifests, images, faults, None, k) && k < |before|
    requires b.None? ==> PassedOver(h, Raised(before[k], floor), manifests(k), images(k), faults(k))
    ensures AllBarren(h, before, floor, manifests, images, faults, Winner(k, b), k + 1)
  {
  }

  /** Tries the next medium; the others are left alone. */
  method TryNext(h: Sha, media: seq<Medium>, k: nat, floor: u64, ghost before: seq<State>,
                 manifests: Name -> Option<Manifest>, images: Name -> Loading, faults: nat -> Faults)
    returns (b: Option<Booted>, image: seq<byte>, dead: bool)
    requires Ready(media) && k < |media| && forall i, j :: 0 <= i < j < |media| ==> media[i] != media[j]
    requires TriedMedia(before, StatesOn(media), floor, None, k)
    modifies media[k]
    ensures Ready(media) && TriedMedia(before, StatesOn(media), floor, Winner(k, b), k + 1)
    ensures b.None? ==> PassedOver(h, Raised(before[k], floor), manifests, images, faults)
    ensures b.Some? ==> Committed(h, manifests, Raised(before[k], floor).floor, b.value, image)
    ensures dead ==> b.None?
  {
    ghost var was := StatesOn(media);
    b, image, dead := TryMedium(h, media[k], floor, manifests, images, faults);
    TriedNext(before, was, floor, k, StateOn(media[k].Value()), b);
    assert StatesOn(media) == was[k := StateOn(media[k].Value())];
  }

  /**
   Tries the media in the order they were found, all of them against the highest floor on any of them, until one boots
   or the power goes. A medium is passed over only if nothing on it verifies, or something else went wrong with it.
   What is booted is the image that a signed manifest, accepted against that floor, commits to.
   */
  method BootFrom(h: Sha, media: seq<Medium>, manifests: nat -> Name -> Option<Manifest>,
                  images: nat -> Name -> Loading, faults: nat -> nat -> Faults)
    returns (floor: u64, booted: Option<(nat, Booted)>, image: seq<byte>, tried: nat, dead: bool)
    requires Ready(media) && forall i, j :: 0 <= i < j < |media| ==> media[i] != media[j]
    modifies media
    ensures floor == HighestFloor(old(StatesOn(media))) && IsHighest(old(StatesOn(media)), floor)
    ensures tried <= |media| && (booted.None? && !dead ==> tried == |media|) && (dead ==> booted.None?)
    ensures TriedMedia(old(StatesOn(media)), StatesOn(media), floor, booted, tried)
    ensures AllBarren(h, old(StatesOn(media)), floor, manifests, images, faults, booted, tried)
    ensures booted.Some? ==> Committed(h, manifests(booted.value.0), floor, booted.value.1, image)
  {
    floor := FloorOf(media);
    ghost var before := StatesOn(media);
    HighestIsThere(before);
    for k := 0 to |media|
      invariant Ready(media) && TriedMedia(before, StatesOn(media), floor, None, k)
      invariant AllBarren(h, before, floor, manifests, images, faults, None, k)
    {
      HighestIsHighest(before, k);
      var b, copy, d := TryNext(h, media, k, floor, before, manifests(k), images(k), faults(k));
      BarrenNext(h, before, floor, manifests, images, faults, k, b);
      if b.Some? || d {
        return floor, Winner(k, b), copy, k + 1, d;
      }
    }
    booted, image, tried, dead := None, [], |media|, false;
  }
}
