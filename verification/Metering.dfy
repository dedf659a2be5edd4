/** Meters of what is charged in windows that are restarted lazily: how much any interval can hold. */
module Metering {
  import opened Wrappers

  datatype Charge = Charge(uid: nat, time: nat, amount: nat)

  /** A window: when it began and what was spent in it. */
  datatype Meter = Meter(start: nat, spent: nat)

  /** What was charged from `lo` until before `hi`. */
  function SumIn(log: seq<Charge>, lo: int, hi: int): nat {
    if log == [] then 0
    else
      var c := log[|log| - 1];
      SumIn(log[..|log| - 1], lo, hi) + if lo <= c.time < hi then c.amount else 0
  }

  /** What was charged in the interval of this length that begins at `x`. */
  function Within(log: seq<Charge>, x: int, window: nat): nat {
    SumIn(log, x, x + window)
  }

  /** The charges of one user. */
  function Of(log: seq<Charge>, uid: nat): seq<Charge> {
    if log == [] then []
    else
      var c := log[|log| - 1];
      Of(log[..|log| - 1], uid) + if c.uid == uid then [c] else []
  }

  // ----- One meter -----

  predicate Before(log: seq<Charge>, t: nat) {
    forall i :: 0 <= i < |log| ==> log[i].time < t
  }

  /** What the current window holds, what an interval reaching into it can hold besides, and what any interval holds. */
  ghost predicate Metered(window: nat, bound: nat, log: seq<Charge>, m: Meter) {
    && Before(log, m.start + window)
    && m.spent == SumIn(log, m.start, m.start + window) && m.spent <= bound
    && (forall x: int :: m.start < x + window ==> SumIn(log, x, m.start) <= bound)
    && (forall x: int :: Within(log, x, window) <= 2 * bound)
  }

  ghost predicate MeterInv(window: nat, bound: nat, log: seq<Charge>, m: Option<Meter>) {
    window > 0 ==> if m.None? then log == [] else Metered(window, bound, log, m.value)
  }

  // ----- All users -----

  type Meters = map<nat, Meter>

  function MeterOf(meters: Meters, uid: nat): Option<Meter> {
    if uid in meters then Some(meters[uid]) else None
  }

  /** Every user's charges are metered, also those of users who were forgotten. */
  ghost predicate AllMetered(window: nat, bound: nat, log: seq<Charge>, meters: Meters) {
    forall uid :: MeterInv(window, bound, Of(log, uid), MeterOf(meters, uid))
  }

  /** The table holds the users' windows; only windows that have run out are missing. */
  ghost predicate Tabled(window: nat, users: Meters, meters: Meters, clock: nat) {
    && (forall u :: u in users ==> u in meters && users[u] == meters[u])
    && (forall u :: u in meters ==> meters[u].start <= clock)
    && (forall u :: u in meters && u !in users ==> meters[u].start + window <= clock)
  }

  /** A window that runs on, or a new one. */
  function Rolled(window: nat, m: Option<Meter>, now: nat): Meter {
    if m.Some? && now < m.value.start + window then m.value else Meter(now, 0)
  }

  /** The users whose window has not run out. */
  function Running(window: nat, users: Meters, now: nat): Meters {
    map u | u in users && now < users[u].start + window :: users[u]
  }

  predicate HasRoom(m: Option<Meter>, allowance: nat) {
    m.Some? ==> m.value.spent < allowance
  }

  function Added(m: Meter, spent: nat): Meter {
    m.(spent := m.spent + spent)
  }

  /** A bounded charge to a user with room keeps everybody metered. */
  ghost predicate KeepsMetered(window: nat, allowance: nat, most: nat, log: seq<Charge>, room: bool, meters: Meters,
                               c: Charge, meters': Meters)
  {
    AllMetered(window, allowance + most, log, meters) && room && c.amount <= most ==>
      AllMetered(window, allowance + most, log + [c], meters')
  }
}
