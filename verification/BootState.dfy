/** A/B slot selection with tries and a rollback floor. */
module BootState {
  import opened Wrappers
  import opened Hashing
  import opened Cbor
  import opened CborRecord

  const DEFAULT_TRIES: nat := 3
  const MAX_PRIORITY: nat := 15

  type u16 = n: nat | n < 0x1_0000

  type Name = seq<byte>

  datatype Slot = Slot(name: Name, priority: u16, tries: u16, successful: bool)

  datatype State = State(floor: u64, slots: seq<Slot>)

  /** The parts of a release manifest that booting decides by. */
  datatype Manifest = Manifest(schema: nat, epoch: u64, minEpoch: u64, imageDigest: Digest, imageSize: nat)

  datatype BootError =
    | Signature | BadManifest | Rollback(epoch: nat, floor: nat) | ImageDigest(expected: Digest, actual: Digest)
    | ImageSize(expectedSize: nat, actualSize: nat) | NoBootableSlot | IoError

  predicate ProvesBadContent(e: BootError) {
    e.ImageDigest? || e.ImageSize?
  }

  /** A release that may be booted under a floor: not older, and not asking for a floor it would fall below itself. */
  predicate Acceptable(m: Manifest, floor: nat) {
    m.schema == 1 && floor <= m.epoch && m.minEpoch <= m.epoch
  }

  /** Checks a manifest whose signature and payload were accepted (`None` when they were not). */
  function VerifyManifest(signed: Option<Manifest>, floor: nat): (r: Result<Manifest, BootError>)
    ensures r.Ok? <==> signed.Some? && Acceptable(signed.value, floor)
    ensures r.Ok? ==> signed == Some(r.value)
    ensures r.Err? ==> (r.error.Rollback? <==> signed.Some? && signed.value.schema == 1 && signed.value.epoch < floor)
  {
    match signed
    case None => Err(Signature)
    case Some(m) =>
      if m.schema != 1 then Err(BadManifest)
      else if m.epoch < floor then Err(Rollback(m.epoch, floor))
      else if m.minEpoch > m.epoch then Err(BadManifest)
      else Ok(m)
  }

  /** No two slots share a name. */
  predicate Distinct(slots: seq<Slot>) {
    forall i, j :: 0 <= i < j < |slots| ==> slots[i].name != slots[j].name
  }

  /** The first slot of a name. */
  function Find(slots: seq<Slot>, name: Name): (r: Option<nat>)
    ensures r.Some? ==> r.value < |slots| && slots[r.value].name == name
    ensures r.None? ==> forall i :: 0 <= i < |slots| ==> slots[i].name != name
  {
    if slots == [] then None
    else if slots[0].name == name then Some(0)
    else
      var r := Find(slots[1..], name);
      if r.None? then None else Some(r.value + 1)
  }

  lemma FindDistinct(slots: seq<Slot>, i: nat)
    requires Distinct(slots) && i < |slots|
    ensures Find(slots, slots[i].name) == Some(i)
  {
  }

  /** Attempts left on slots that have not proven themselves. */
  function TriesLeft(slots: seq<Slot>): nat {
    if slots == [] then 0 else (if slots[0].successful then 0 else slots[0].tries) + TriesLeft(slots[1..])
  }

  lemma {:induction false} TriesLeftUpdate(slots: seq<Slot>, i: nat, s: Slot)
    requires i < |slots|
    ensures TriesLeft(slots[i := s]) ==
            TriesLeft(slots) - (if slots[i].successful then 0 else slots[i].tries)
            + (if s.successful then 0 else s.tries)
  {
    if i == 0 {
      assert slots[0 := s][1..] == slots[1..];
    } else {
      TriesLeftUpdate(slots[1..], i - 1, s);
      assert slots[i := s][1..] == slots[1..][i - 1 := s];
    }
  }

  // ----- Choosing a slot -----

  type Manifests = seq<(Name, Manifest)>

  function ManifestOf(verified: Manifests, name: Name): Option<Manifest> {
    if verified == [] then None
    else if verified[0].0 == name then Some(verified[0].1)
    else ManifestOf(verified[1..], name)
  }

  predicate Bootable(s: State, verified: Manifests, i: nat) {
    && i < |s.slots|
    && s.slots[i].priority > 0
    && ManifestOf(verified, s.slots[i].name).Some?
    && ManifestOf(verified, s.slots[i].name).value.epoch >= s.floor
    && (s.slots[i].successful || s.slots[i].tries > 0)
  }

  /** Slot `i` is tried before slot `j`: higher priority first, then by name, then in stored order. */
  predicate Ahead(slots: seq<Slot>, i: nat, j: nat)
    requires i < |slots| && j < |slots|
  {
    var a, b := slots[i], slots[j];
    a.priority > b.priority ||
    (a.priority == b.priority && (Less(a.name, b.name) || (a.name == b.name && i < j)))
  }

  lemma AheadTransitive(slots: seq<Slot>, i: nat, j: nat, l: nat)
    requires i < |slots| && j < |slots| && l < |slots| && Ahead(slots, i, j) && Ahead(slots, j, l)
    ensures Ahead(slots, i, l)
  {
    var a, b, c := slots[i].name, slots[j].name, slots[l].name;
    if Less(a, b) && Less(b, c) {
      LessTransitive(a, b, c);
    }
  }

  lemma AheadTotal(slots: seq<Slot>, i: nat, j: nat)
    requires i < |slots| && j < |slots| && i != j
    ensures Ahead(slots, i, j) || Ahead(slots, j, i)
  {
    LessTotal(slots[i].name, slots[j].name);
  }

  predicate Ordered(slots: seq<Slot>, order: seq<nat>) {
    && (forall x :: 0 <= x < |order| ==> order[x] < |slots|)
    && forall x, y :: 0 <= x < y < |order| ==> Ahead(slots, order[x], order[y])
  }

  /** Places slot `i` into an order of earlier slots. */
  function Place(slots: seq<Slot>, order: seq<nat>, i: nat): seq<nat>
    requires i < |slots| && Ordered(slots, order)
  {
    if order == [] || Ahead(slots, i, order[0]) then [i] + order
    else [order[0]] + Place(slots, order[1..], i)
  }

  lemma {:induction false} PlaceOrders(slots: seq<Slot>, order: seq<nat>, i: nat)
    requires i < |slots| && Ordered(slots, order) && i !in order
    ensures Ordered(slots, Place(slots, order, i))
    ensures forall x :: x in Place(slots, order, i) <==> x == i || x in order
    decreases |order|
  {
    var placed := Place(slots, order, i);
    if order == [] {
    } else if Ahead(slots, i, order[0]) {
      forall x | 0 <= x < |order| ensures Ahead(slots, i, order[x]) {
        if x > 0 {
          AheadTransitive(slots, i, order[0], order[x]);
        }
      }
    } else {
      AheadTotal(slots, i, order[0]);
      var rest := Place(slots, order[1..], i);
      PlaceOrders(slots, order[1..], i);
      assert order == [order[0]] + order[1..];
      forall x | 0 <= x < |rest| ensures Ahead(slots, order[0], rest[x]) {
        assert rest[x] in rest;
        if rest[x] != i {
          var y :| 0 <= y < |order[1..]| && order[1..][y] == rest[x];
          assert order[y + 1] == rest[x];
        }
      }
    }
  }

  /** The slots that may boot at all, in the order they are tried. */
  method TrialOrder(slots: seq<Slot>) returns (order: seq<nat>)
    ensures Ordered(slots, order)
    ensures forall i :: i in order <==> 0 <= i < |slots| && slots[i].priority > 0
  {
    order := [];
    for i := 0 to |slots|
      invariant Ordered(slots, order)
      invariant forall x :: x in order <==> 0 <= x < i && slots[x].priority > 0
    {
      if slots[i].priority > 0 {
        PlaceOrders(slots, order, i);
        order := Place(slots, order, i);
      }
    }
  }

  /** The state to write before booting slot `i`: an unproven slot spends a try (16-bit arithmetic). */
  function Spend(s: State, i: nat): State
    requires i < |s.slots|
  {
    if s.slots[i].successful then s
    else
      var j := Find(s.slots, s.slots[i].name).value;
      var t := s.slots[j];
      s.(slots := s.slots[j := t.(tries := (t.tries + 0xffff) % 0x1_0000)])
  }

  /** Slot `i` is bootable and ahead of every other bootable slot. */
  predicate Best(s: State, verified: Manifests, i: nat) {
    && Bootable(s, verified, i)
    && forall j :: 0 <= j < |s.slots| && j != i && Bootable(s, verified, j) ==> Ahead(s.slots, i, j)
  }

  datatype Choice = Choice(index: nat, next: State)

  /** Picks the slot to boot: the best one; it fails only when no slot is bootable. */
  method Choose(s: State, verified: Manifests) returns (r: Result<Choice, BootError>)
    ensures r.Ok? ==> Best(s, verified, r.value.index) && r.value.next == Spend(s, r.value.index)
    ensures r.Err? ==> r.error == NoBootableSlot && forall i :: 0 <= i < |s.slots| ==> !Bootable(s, verified, i)
  {
    var order := TrialOrder(s.slots);
    for x := 0 to |order|
      invariant forall y :: 0 <= y < x ==> !Bootable(s, verified, order[y])
    {
      var i := order[x];
      assert i in order;
      var slot := s.slots[i];
      var m := ManifestOf(verified, slot.name);
      if m.None? || m.value.epoch < s.floor || !(slot.successful || slot.tries > 0) {
        continue;
      }
      FirstIsBest(s, verified, order, x);
      return Ok(Choice(i, Spend(s, i)));
    }
    forall i | 0 <= i < |s.slots| ensures !Bootable(s, verified, i) {
      assert Bootable(s, verified, i) ==> i in order;
    }
    r := Err(NoBootableSlot);
  }

  lemma FirstIsBest(s: State, verified: Manifests, order: seq<nat>, x: nat)
    requires Ordered(s.slots, order) && x < |order| && Bootable(s, verified, order[x])
    requires forall i :: i in order <==> 0 <= i < |s.slots| && s.slots[i].priority > 0
    requires forall y :: 0 <= y < x ==> !Bootable(s, verified, order[y])
    ensures Best(s, verified, order[x])
  {
    forall j | 0 <= j < |s.slots| && j != order[x] && Bootable(s, verified, j) ensures Ahead(s.slots, order[x], j) {
      assert j in order;
      var y :| 0 <= y < |order| && order[y] == j;
      assert y > x;
    }
  }

  // ----- Spending tries -----

  /** With distinct names, booting an unproven slot takes exactly one of its tries and changes nothing else. */
  lemma SpendsOneTry(s: State, i: nat)
    requires Distinct(s.slots) && i < |s.slots| && !s.slots[i].successful && s.slots[i].tries > 0
    ensures Spend(s, i) == s.(slots := s.slots[i := s.slots[i].(tries := s.slots[i].tries - 1)])
    ensures Distinct(Spend(s, i).slots) && TriesLeft(Spend(s, i).slots) == TriesLeft(s.slots) - 1
  {
    FindDistinct(s.slots, i);
    TriesLeftUpdate(s.slots, i, s.slots[i].(tries := s.slots[i].tries - 1));
  }

  /**
   In general the try is taken from the first slot of that name. A try is spent if and only if that slot is unproven and
   has one; if it has none, the subtraction wraps and the name gains 65535 tries.
   */
  lemma SpendIff(s: State, i: nat)
    requires i < |s.slots| && !s.slots[i].successful && s.slots[i].tries > 0
    ensures var first := s.slots[Find(s.slots, s.slots[i].name).value];
            TriesLeft(Spend(s, i).slots) < TriesLeft(s.slots) <==> !first.successful && first.tries > 0
  {
    var j := Find(s.slots, s.slots[i].name).value;
    var t := s.slots[j];
    TriesLeftUpdate(s.slots, j, t.(tries := (t.tries + 0xffff) % 0x1_0000));
  }

  /**
   Two slots of one name, the first spent, and a manifest that verifies: the second slot is the one chosen, and
   booting it wraps the first one's tries around.
   */
  lemma DuplicateNamesWrap(name: Name, m: Manifest)
    ensures var s := State(0, [Slot(name, 1, 0, false), Slot(name, MAX_PRIORITY, 3, false)]);
            && Best(s, [(name, m)], 1)
            && Spend(s, 1).slots[0].tries == 0xffff && TriesLeft(Spend(s, 1).slots) == TriesLeft(s.slots) + 0xffff
  {
    var s := State(0, [Slot(name, 1, 0, false), Slot(name, MAX_PRIORITY, 3, false)]);
    assert Find(s.slots, name) == Some(0);
    TriesLeftUpdate(s.slots, 0, s.slots[0].(tries := 0xffff));
  }

  // ----- Operations that change the state in place -----

  function Demoted(name: Name, s: Slot): Slot {
    if s.name != name && s.priority >= MAX_PRIORITY then s.(priority := MAX_PRIORITY - 1) else s
  }

  function DemotedAll(name: Name, slots: seq<Slot>): seq<Slot> {
    seq(|slots|, i requires 0 <= i < |slots| => Demoted(name, slots[i]))
  }

  function Installed(s: State, name: Name): State {
    var slot := Slot(name, MAX_PRIORITY, DEFAULT_TRIES, false);
    var demoted := DemotedAll(name, s.slots);
    var at := Find(demoted, name);
    s.(slots := if at.Some? then demoted[at.value := slot] else demoted + [slot])
  }

  function Bad(s: State, name: Name): State {
    var at := Find(s.slots, name);
    if at.None? then s
    else s.(slots := s.slots[at.value := s.slots[at.value].(priority := 0, successful := false, tries := 0)])
  }

  function Proven(s: State, name: Name, minEpoch: u64): State {
    var at := Find(s.slots, name);
    var slots := if at.None? then s.slots
                 else s.slots[at.value := s.slots[at.value].(successful := true, tries := 0)];
    State(if s.floor < minEpoch then minEpoch else s.floor, slots)
  }

  class BootRecord {
    var floor: u64
    var slots: seq<Slot>

    ghost function Value(): State
      reads this
    {
      State(floor, slots)
    }

    constructor (s: State)
      ensures Value() == s
    {
      floor, slots := s.floor, s.slots;
    }

    /** The highest floor on any medium applies to this one. */
    method RaiseFloor(to: u64)
      modifies this
      ensures floor >= to && floor >= old(floor) && (floor == to || floor == old(floor)) && slots == old(slots)
    {
      floor := if floor < to then to else floor;
    }

    /** Installs a new, unproven release into `name` and prefers it; the others stay as fallbacks below it. */
    method Install(name: Name)
      modifies this
      ensures Value() == Installed(old(Value()), name)
    {
      for i := 0 to |slots|
        invariant |slots| == |old(slots)| && floor == old(floor)
        invariant forall x :: 0 <= x < i ==> slots[x] == Demoted(name, old(slots)[x])
        invariant forall x :: i <= x < |slots| ==> slots[x] == old(slots)[x]
      {
        if slots[i].name != name && slots[i].priority >= MAX_PRIORITY {
          slots := slots[i := slots[i].(priority := MAX_PRIORITY - 1)];
        }
      }
      assert slots == DemotedAll(name, old(slots));
      var slot := Slot(name, MAX_PRIORITY, DEFAULT_TRIES, false);
      var at := Find(slots, name);
      if at.Some? {
        slots := slots[at.value := slot];
      } else {
        slots := slots + [slot];
      }
    }

    /** Records that an image failed to load; only proof of bad content retires the slot. */
    method RecordImageFailure(name: Name, why: BootError) returns (changed: bool)
      modifies this
      ensures changed == ProvesBadContent(why)
      ensures Value() == if changed then Bad(old(Value()), name) else old(Value())
    {
      changed := ProvesBadContent(why);
      if changed {
        MarkBad(name);
      }
    }

    method MarkBad(name: Name)
      modifies this
      ensures Value() == Bad(old(Value()), name)
    {
      var at := Find(slots, name);
      if at.Some? {
        slots := slots[at.value := slots[at.value].(priority := 0, successful := false, tries := 0)];
      }
    }

    method MarkSuccessful(name: Name, minEpoch: u64)
      modifies this
      ensures Value() == Proven(old(Value()), name, minEpoch)
    {
      var at := Find(slots, name);
      if at.Some? {
        slots := slots[at.value := slots[at.value].(successful := true, tries := 0)];
      }
      floor := if floor < minEpoch then minEpoch else floor;
    }
  }

  /** Except for the first slot of that name, everything is as it was. */
  predicate OnlySlot(s: State, t: State, name: Name) {
    && t.floor == s.floor && |t.slots| == |s.slots|
    && forall i :: 0 <= i < |s.slots| ==>
         t.slots[i].name == s.slots[i].name && (t.slots[i] == s.slots[i] || Find(s.slots, name) == Some(i))
  }

  /** A retired slot is not bootable, whatever manifests verify, and has no tries; all others are as they were. */
  lemma BadRetires(s: State, name: Name, verified: Manifests)
    requires Distinct(s.slots)
    ensures OnlySlot(s, Bad(s, name), name)
    ensures forall i :: 0 <= i < |s.slots| && s.slots[i].name == name ==>
              var slot := Bad(s, name).slots[i];
              slot.priority == 0 && slot.tries == 0 && !slot.successful && !Bootable(Bad(s, name), verified, i)
  {
    forall i | 0 <= i < |s.slots| && s.slots[i].name == name ensures Find(s.slots, name) == Some(i) {
      FindDistinct(s.slots, i);
    }
  }

  /**
   Every operation keeps names distinct, and none but installing adds tries; only proving moves the floor, upwards.
   */
  lemma BadKeeps(s: State, name: Name)
    ensures Distinct(s.slots) ==> Distinct(Bad(s, name).slots)
    ensures TriesLeft(Bad(s, name).slots) <= TriesLeft(s.slots) && Bad(s, name).floor == s.floor
  {
    var at := Find(s.slots, name);
    if at.Some? {
      TriesLeftUpdate(s.slots, at.value, s.slots[at.value].(priority := 0, successful := false, tries := 0));
    }
  }

  lemma ProvenKeeps(s: State, name: Name, minEpoch: u64)
    ensures Distinct(s.slots) ==> Distinct(Proven(s, name, minEpoch).slots)
    ensures TriesLeft(Proven(s, name, minEpoch).slots) <= TriesLeft(s.slots)
    ensures s.floor <= Proven(s, name, minEpoch).floor
  {
    var at := Find(s.slots, name);
    if at.Some? {
      TriesLeftUpdate(s.slots, at.value, s.slots[at.value].(successful := true, tries := 0));
    }
  }

  /** An installed slot is tried before every other one; the others keep their standing and remain as fallbacks. */
  lemma InstallPrefers(s: State, name: Name) returns (i: nat)
    requires Distinct(s.slots)
    ensures var t := Installed(s, name);
            && Distinct(t.slots) && t.floor == s.floor
            && i < |t.slots| && t.slots[i] == Slot(name, MAX_PRIORITY, DEFAULT_TRIES, false)
            && forall j :: 0 <= j < |t.slots| && j != i ==>
                 && j < |s.slots| && Ahead(t.slots, i, j)
                 && t.slots[j].(priority := 0) == s.slots[j].(priority := 0)
                 && t.slots[j].priority == if s.slots[j].priority < MAX_PRIORITY then s.slots[j].priority
                                           else MAX_PRIORITY - 1
  {
    var demoted := DemotedAll(name, s.slots);
    var at := Find(demoted, name);
    i := if at.Some? then at.value else |s.slots|;
  }
}
