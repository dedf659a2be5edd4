/** What holds over any sequence of boots and installations on any number of media, attached in any combination. */
module BootHistory {
  import opened Wrappers
  import opened Cbor
  import opened BootState
  import opened BootRuns

  /** The state on every medium there is. */
  type World = seq<State>

  /**
   A boot with some media attached: stage 1 tries `tried` of them and leaves `mid` there; if it booted, recording the
   success leaves `end` on that medium. Or an update is installed into a slot of a medium.
   */
  datatype Event =
    | Boot(attached: seq<nat>, mid: seq<State>, booted: Option<(nat, Booted)>, tried: nat, end: State)
    | Install(medium: nat, name: Name)

  predicate Attachable(w: World, attached: seq<nat>) {
    && (forall k :: 0 <= k < |attached| ==> attached[k] < |w|)
    && forall k, l :: 0 <= k < l < |attached| ==> attached[k] != attached[l]
  }

  function States(w: World, attached: seq<nat>): seq<State>
    requires Attachable(w, attached)
  {
    seq(|attached|, k requires 0 <= k < |attached| => w[attached[k]])
  }

  ghost function FloorApplied(w: World, attached: seq<nat>): u64
    requires Attachable(w, attached)
  {
    HighestFloor(States(w, attached))
  }

  /** The states of the attached media once the boot is over. */
  function Left(e: Event): seq<State>
    requires e.Boot? && (e.booted.Some? ==> e.booted.value.0 < |e.mid|)
  {
    if e.booted.Some? then e.mid[e.booted.value.0 := e.end] else e.mid
  }

  ghost predicate BootStep(w: World, w': World, e: Event)
    requires e.Boot?
  {
    && |w'| == |w| && Attachable(w, e.attached) && e.tried <= |e.attached|
    && TriedMedia(States(w, e.attached), e.mid, FloorApplied(w, e.attached), e.booted, e.tried)
    && (e.booted.Some? ==>
          Recorded(e.mid[e.booted.value.0], e.end, FloorApplied(w, e.attached), e.booted.value.1))
    && States(w', e.attached) == Left(e)
    && forall i :: 0 <= i < |w| && i !in e.attached ==> w'[i] == w[i]
  }

  ghost predicate Step(w: World, w': World, e: Event) {
    match e
    case Boot(_, _, _, _, _) => BootStep(w, w', e)
    case Install(m, name) =>
      m < |w| && w' == w[m := Installed(w[m], name)] && Good(w'[m])
  }

  ghost predicate AllGood(w: World) {
    forall i :: 0 <= i < |w| ==> Good(w[i])
  }

  // ----- One step, seen from one medium -----

  /** Which of the attached media `id` is. */
  ghost function Position(attached: seq<nat>, id: nat): (k: nat)
    requires id in attached
    ensures k < |attached| && attached[k] == id
  {
    var k :| 0 <= k < |attached| && attached[k] == id; k
  }

  /** What a boot booted from medium `id`. */
  ghost function BootedFrom(e: Event, id: nat): Option<Booted> {
    if e.Boot? && id in e.attached then From(e.booted, Position(e.attached, id)) else None
  }

  /** On each attached medium the state goes through stage 1 and, on the booted one, through recording the success. */
  lemma OnMedium(w: World, w': World, e: Event, id: nat) returns (mid: State)
    requires e.Boot? && BootStep(w, w', e) && AllGood(w) && id in e.attached
    ensures id < |w| && w[id].floor <= FloorApplied(w, e.attached)
    ensures Tried(w[id], mid, FloorApplied(w, e.attached), BootedFrom(e, id))
    ensures BootedFrom(e, id).None? ==> w'[id] == mid
    ensures BootedFrom(e, id).Some? ==> Recorded(mid, w'[id], FloorApplied(w, e.attached), BootedFrom(e, id).value)
  {
    var k := Position(e.attached, id);
    var floor := FloorApplied(w, e.attached);
    HighestIsHighest(States(w, e.attached), k);
    mid := e.mid[k];
    assert w[id] == States(w, e.attached)[k] && w'[id] == States(w', e.attached)[k] == Left(e)[k];
    if k < e.tried {
      assert Tried(States(w, e.attached)[k], e.mid[k], floor, From(e.booted, k));
    } else {
      KeptAsIs(w[id], floor);
    }
  }

  lemma RecordedKeeps(mid: State, after: State, floor: u64, b: Booted)
    requires Good(mid) && Recorded(mid, after, floor, b)
    ensures Good(after) && mid.floor <= after.floor && NoMoreTries(mid.slots, after.slots)
    ensures after.floor <= Higher(Higher(mid.floor, floor), b.manifest.minEpoch)
  {
    if after != mid {
      ProvenIsGood(Raised(mid, floor), b.slot, b.manifest.minEpoch);
    }
  }

  /** Whether a boot used up a try of a slot of medium `id`. */
  ghost function Unproven(e: Event, id: nat, name: Name): nat {
    if BootedFrom(e, id).Some? && BootedFrom(e, id).value.unproven && BootedFrom(e, id).value.slot == name then 1 else 0
  }

  function Installs(e: Event, id: nat, name: Name): nat {
    if e == Install(id, name) then 1 else 0
  }

  lemma InstallTries(s: State, installed: Name, name: Name)
    requires Good(s)
    ensures TriesOf(Installed(s, installed).slots, name) ==
            if name == installed then DEFAULT_TRIES else TriesOf(s.slots, name)
    ensures Installed(s, installed).floor == s.floor
  {
    var demoted := DemotedAll(installed, s.slots);
    var slot := Slot(installed, MAX_PRIORITY, DEFAULT_TRIES, false);
    FindByName(s.slots, demoted, name);
    FindByName(s.slots, demoted, installed);
    var at := Find(demoted, installed);
    if at.Some? {
      TriesUpdate(demoted, at.value, slot, name);
    } else {
      FindAppended(demoted, slot, name);
    }
  }

  lemma {:induction false} FindAppended(slots: seq<Slot>, s: Slot, name: Name)
    ensures Find(slots + [s], name) ==
            if Find(slots, name).Some? then Find(slots, name) else if s.name == name then Some(|slots|) else None
    decreases |slots|
  {
    if slots == [] {
      assert slots + [s] == [s];
    } else {
      assert (slots + [s])[1..] == slots[1..] + [s];
      FindAppended(slots[1..], s, name);
    }
  }

  /** A step never lowers a floor, and grants no tries except by installing. */
  lemma StepOnMedium(w: World, w': World, e: Event, id: nat, name: Name)
    requires AllGood(w) && Step(w, w', e) && id < |w|
    ensures |w'| == |w| && Good(w'[id]) && w[id].floor <= w'[id].floor
    ensures TriesOf(w'[id].slots, name) + Unproven(e, id, name) <=
            TriesOf(w[id].slots, name) + DEFAULT_TRIES * Installs(e, id, name)
  {
    if e.Boot? {
      if id in e.attached {
        var mid := OnMedium(w, w', e, id);
        if BootedFrom(e, id).Some? {
          RecordedKeeps(mid, w'[id], FloorApplied(w, e.attached), BootedFrom(e, id).value);
        }
      }
    } else if e.medium == id {
      InstallTries(w[id], e.name, name);
    }
  }

  /** A booted release is at least as new as the floor of every attached medium, before and after. */
  lemma BootedIsNew(w: World, w': World, e: Event, id: nat)
    requires AllGood(w) && Step(w, w', e) && e.Boot? && e.booted.Some? && id in e.attached
    ensures id < |w| && w[id].floor <= e.booted.value.1.manifest.epoch
    ensures |w'| == |w| && w'[id].floor <= e.booted.value.1.manifest.epoch
  {
    var k := e.booted.value.0;
    var winner := e.attached[k];
    var floor, b := FloorApplied(w, e.attached), e.booted.value.1;
    assert winner in e.attached;
    var won := OnMedium(w, w', e, winner);
    assert BootedFrom(e, winner) == Some(b);
    assert floor <= b.manifest.epoch;
    var mid := OnMedium(w, w', e, id);
    if BootedFrom(e, id).Some? {
      RecordedKeeps(mid, w'[id], floor, BootedFrom(e, id).value);
    }
  }

  // ----- Whole histories -----

  ghost predicate StepAt(ws: seq<World>, es: seq<Event>, i: nat) {
    i < |es| && i + 1 < |ws| && Step(ws[i], ws[i + 1], es[i])
  }

  /** The worlds between the events of a history. */
  ghost predicate History(ws: seq<World>, es: seq<Event>) {
    && |ws| == |es| + 1 && AllGood(ws[0])
    && forall i :: 0 <= i < |es| ==> StepAt(ws, es, i)
  }

  lemma {:induction false} HistoryGood(ws: seq<World>, es: seq<Event>, n: nat)
    requires History(ws, es) && n <= |es|
    ensures AllGood(ws[n]) && |ws[n]| == |ws[0]|
  {
    if n > 0 {
      HistoryGood(ws, es, n - 1);
      assert StepAt(ws, es, n - 1);
      forall i | 0 <= i < |ws[n]| ensures Good(ws[n][i]) {
        if i < |ws[n - 1]| {
          StepOnMedium(ws[n - 1], ws[n], es[n - 1], i, []);
        }
      }
    }
  }

  lemma StepRaises(ws: seq<World>, es: seq<Event>, n: nat, id: nat)
    requires History(ws, es) && n < |es| && id < |ws[0]|
    ensures id < |ws[n]| && id < |ws[n + 1]| && ws[n][id].floor <= ws[n + 1][id].floor
  {
    HistoryGood(ws, es, n);
    assert StepAt(ws, es, n);
    StepOnMedium(ws[n], ws[n + 1], es[n], id, []);
  }

  lemma HistorySize(ws: seq<World>, es: seq<Event>, n: nat)
    requires History(ws, es) && n <= |es|
    ensures |ws[n]| == |ws[0]|
  {
    HistoryGood(ws, es, n);
  }

  /** No medium's floor ever falls. */
  lemma {:induction false} FloorsNeverFall(ws: seq<World>, es: seq<Event>, i: nat, j: nat, id: nat)
    requires History(ws, es) && i <= j <= |es| && id < |ws[0]|
    ensures id < |ws[i]| && id < |ws[j]| && ws[i][id].floor <= ws[j][id].floor
    decreases j - i
  {
    if i == j {
      HistorySize(ws, es, i);
    } else {
      FloorsNeverFall(ws, es, i, j - 1, id);
      StepRaises(ws, es, j - 1, id);
    }
  }

  /**
   No rollback: once a medium carried a floor, no release older than it is booted while that medium is attached, from
   whatever medium, however many boots later.
   */
  lemma NoRollback(ws: seq<World>, es: seq<Event>, i: nat, j: nat, id: nat)
    requires History(ws, es) && i <= j < |es| && id < |ws[0]|
    requires es[j].Boot? && es[j].booted.Some? && id in es[j].attached
    ensures id < |ws[i]| && ws[i][id].floor <= es[j].booted.value.1.manifest.epoch
  {
    FloorsNeverFall(ws, es, i, j, id);
    HistoryGood(ws, es, j);
    assert StepAt(ws, es, j);
    BootedIsNew(ws[j], ws[j + 1], es[j], id);
  }

  ghost function UnprovenBoots(es: seq<Event>, id: nat, name: Name): nat {
    if es == [] then 0 else UnprovenBoots(es[..|es| - 1], id, name) + Unproven(es[|es| - 1], id, name)
  }

  function InstallCount(es: seq<Event>, id: nat, name: Name): nat {
    if es == [] then 0 else InstallCount(es[..|es| - 1], id, name) + Installs(es[|es| - 1], id, name)
  }

  /**
   An unproven slot is booted at most as often as its tries allow, plus three times for every installation into it.
   */
  lemma {:induction false} TriesBoundBoots(ws: seq<World>, es: seq<Event>, id: nat, name: Name)
    requires History(ws, es) && id < |ws[0]|
    ensures id < |ws[|es|]|
    ensures UnprovenBoots(es, id, name) + TriesOf(ws[|es|][id].slots, name) <=
            TriesOf(ws[0][id].slots, name) + DEFAULT_TRIES * InstallCount(es, id, name)
    decreases |es|
  {
    if es != [] {
      var n := |es| - 1;
      var ws', es' := ws[..n + 1], es[..n];
      assert History(ws', es') by {
        forall i | 0 <= i < n ensures StepAt(ws', es', i) {
          assert StepAt(ws, es, i);
        }
      }
      TriesBoundBoots(ws', es', id, name);
      HistoryGood(ws, es, n);
      assert StepAt(ws, es, n);
      StepOnMedium(ws[n], ws[n + 1], es[n], id, name);
    }
  }

  /** The slot is there, proven, and bootable with this manifest against the floor of its medium. */
  predicate ProvenBootable(s: State, name: Name, m: Manifest) {
    var at := Find(s.slots, name);
    at.Some? && s.slots[at.value].successful && Bootable(s, [(name, m)], at.value)
  }

  /** The success was recorded, or the slot had proven itself before. */
  predicate ProvenBy(mid: State, end: State, floor: u64, b: Booted) {
    !b.unproven || end == Proven(Raised(mid, floor), b.slot, b.manifest.minEpoch)
  }

  lemma StandsProven(s: State, name: Name, minEpoch: u64)
    requires Standing(s.slots, name, false)
    ensures Standing(Proven(s, name, minEpoch).slots, name, true)
  {
    FindByName(s.slots, Proven(s, name, minEpoch).slots, name);
  }

  lemma StandsBootable(s: State, name: Name, m: Manifest)
    requires Standing(s.slots, name, true) && s.floor <= m.epoch
    ensures ProvenBootable(s, name, m)
  {
    FindsName(s.slots, name);
  }

  lemma RecordedStands(mid: State, end: State, floor: u64, b: Booted)
    requires Standing(mid.slots, b.slot, !b.unproven) && Recorded(mid, end, floor, b) && ProvenBy(mid, end, floor, b)
    ensures Standing(end.slots, b.slot, true)
  {
    if end != mid || b.unproven {
      StandsProven(Raised(mid, floor), b.slot, b.manifest.minEpoch);
    }
  }

  /**
   A release that was booted stays acceptable on every medium attached, against whatever floor its success set. Once it
   is proven, its slot is bootable again without spending a try.
   */
  lemma ProvenStaysBootable(w: World, w': World, e: Event)
    requires AllGood(w) && Step(w, w', e) && e.Boot? && e.booted.Some?
    ensures forall id :: id in e.attached && id < |w'| ==>
              VerifyManifest(Some(e.booted.value.1.manifest), w'[id].floor).Ok?
    ensures var k, b := e.booted.value.0, e.booted.value.1;
            && e.attached[k] < |w'|
            && (ProvenBy(e.mid[k], e.end, FloorApplied(w, e.attached), b) ==>
                  ProvenBootable(w'[e.attached[k]], b.slot, b.manifest))
  {
    var k, b := e.booted.value.0, e.booted.value.1;
    var id := e.attached[k];
    assert id in e.attached;
    var mid := OnMedium(w, w', e, id);
    assert From(e.booted, k) == Some(b);
    forall other | other in e.attached && other < |w'| ensures VerifyManifest(Some(b.manifest), w'[other].floor).Ok? {
      BootedIsNew(w, w', e, other);
    }
    assert States(w', e.attached)[k] == Left(e)[k];
    if ProvenBy(e.mid[k], e.end, FloorApplied(w, e.attached), b) {
      assert Tried(States(w, e.attached)[k], e.mid[k], FloorApplied(w, e.attached), Some(b));
      RecordedStands(e.mid[k], e.end, FloorApplied(w, e.attached), b);
      StandsBootable(w'[id], b.slot, b.manifest);
    }
  }
}
