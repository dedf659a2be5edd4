/** What any interval can hold, over every sequence of charges. */
module MeterProofs {
  import opened Wrappers
  import opened Metering

  lemma SumAppend(log: seq<Charge>, c: Charge, lo: int, hi: int)
    ensures SumIn(log + [c], lo, hi) == SumIn(log, lo, hi) + if lo <= c.time < hi then c.amount else 0
  {
    assert (log + [c])[..|log|] == log;
  }

  lemma OfAppend(log: seq<Charge>, c: Charge, uid: nat)
    ensures Of(log + [c], uid) == if c.uid == uid then Of(log, uid) + [c] else Of(log, uid)
  {
    assert (log + [c])[..|log|] == log;
  }

  lemma {:induction false} SumSplit(log: seq<Charge>, lo: int, mid: int, hi: int)
    requires lo <= mid <= hi
    ensures SumIn(log, lo, hi) == SumIn(log, lo, mid) + SumIn(log, mid, hi)
  {
    if log != [] {
      SumSplit(log[..|log| - 1], lo, mid, hi);
    }
  }

  /** A smaller interval that loses no charge, or only some, sums to no more. */
  lemma {:induction false} SumShrinks(log: seq<Charge>, lo: int, hi: int, lo': int, hi': int)
    requires forall i :: 0 <= i < |log| && lo' <= log[i].time < hi' ==> lo <= log[i].time < hi
    ensures SumIn(log, lo', hi') <= SumIn(log, lo, hi)
  {
    if log != [] {
      SumShrinks(log[..|log| - 1], lo, hi, lo', hi');
    }
  }

  /** Starting a new window once the current one has run out. */
  lemma RollKeeps(window: nat, bound: nat, log: seq<Charge>, m: Meter, now: nat)
    requires Metered(window, bound, log, m) && m.start + window <= now
    ensures window > 0 ==> Metered(window, bound, log, Meter(now, 0))
  {
    SumShrinks(log, 0, 0, now, now + window);
    Nothing(log, 0);
    forall x: int | now < x + window ensures SumIn(log, x, now) <= bound {
      SumShrinks(log, m.start, m.start + window, x, now);
    }
  }

  lemma {:induction false} Nothing(log: seq<Charge>, x: int)
    ensures SumIn(log, x, x) == 0
  {
    if log != [] {
      Nothing(log[..|log| - 1], x);
    }
  }

  lemma StartKeeps(window: nat, bound: nat, now: nat)
    ensures Metered(window, bound, [], Meter(now, 0))
  {
  }

  /** Charging within the current window. */
  lemma ChargeKeeps(window: nat, bound: nat, log: seq<Charge>, m: Meter, c: Charge)
    requires Metered(window, bound, log, m) && m.start <= c.time < m.start + window && m.spent + c.amount <= bound
    ensures Metered(window, bound, log + [c], m.(spent := m.spent + c.amount))
  {
    var log' := log + [c];
    SumAppend(log, c, m.start, m.start + window);
    forall x: int | m.start < x + window ensures SumIn(log', x, m.start) <= bound {
      SumAppend(log, c, x, m.start);
    }
    forall x: int ensures Within(log', x, window) <= 2 * bound {
      assert Within(log, x, window) <= 2 * bound;
      if x <= c.time < x + window {
        ReachesIn(window, bound, log, m, c, x);
      } else {
        SumAppend(log, c, x, x + window);
      }
    }
  }

  /** An interval that holds the new charge holds at most the end of what came before, and the current window. */
  lemma ReachesIn(window: nat, bound: nat, log: seq<Charge>, m: Meter, c: Charge, x: int)
    requires Metered(window, bound, log, m) && m.start <= c.time < m.start + window && m.spent + c.amount <= bound
    requires x <= c.time < x + window
    ensures SumIn(log + [c], x, x + window) <= 2 * bound
  {
    SumAppend(log, c, x, x + window);
    if x < m.start {
      SumSplit(log, x, m.start, x + window);
      SumShrinks(log, m.start, m.start + window, m.start, x + window);
    } else {
      SumShrinks(log, m.start, m.start + window, x, x + window);
    }
  }

  lemma RolledKeeps(window: nat, bound: nat, log: seq<Charge>, m: Option<Meter>, now: nat)
    requires MeterInv(window, bound, log, m)
    ensures MeterInv(window, bound, log, Some(Rolled(window, m, now)))
  {
    if window > 0 {
      if m.None? {
        StartKeeps(window, bound, now);
      } else if m.value.start + window <= now {
        RollKeeps(window, bound, log, m.value, now);
      }
    }
  }

  lemma ChargedKeeps(window: nat, bound: nat, log: seq<Charge>, m: Meter, c: Charge)
    requires MeterInv(window, bound, log, Some(m)) && m.start <= c.time && m.spent + c.amount <= bound
    requires c.time < m.start + window || window == 0
    ensures MeterInv(window, bound, log + [c], Some(m.(spent := m.spent + c.amount)))
  {
    if window > 0 {
      ChargeKeeps(window, bound, log, m, c);
    }
  }

  lemma UserRolled(window: nat, bound: nat, log: seq<Charge>, meters: Meters, uid: nat, now: nat, meters': Meters)
    requires AllMetered(window, bound, log, meters)
    requires meters' == meters[uid := Rolled(window, MeterOf(meters, uid), now)]
    ensures AllMetered(window, bound, log, meters')
  {
    forall u ensures MeterInv(window, bound, Of(log, u), MeterOf(meters', u)) {
      assert MeterInv(window, bound, Of(log, u), MeterOf(meters, u));
      if u == uid {
        RolledKeeps(window, bound, Of(log, u), MeterOf(meters, u), now);
      } else {
        assert MeterOf(meters', u) == MeterOf(meters, u);
      }
    }
  }

  /** A charge to one user leaves the others' meters as they are. */
  lemma UserCharged(window: nat, bound: nat, log: seq<Charge>, meters: Meters, m: Meter, c: Charge, meters': Meters)
    requires meters' == meters[c.uid := m.(spent := m.spent + c.amount)]
    requires AllMetered(window, bound, log, meters) && m == Rolled(window, MeterOf(meters, c.uid), c.time)
    requires m.start <= c.time && m.spent + c.amount <= bound
    ensures AllMetered(window, bound, log + [c], meters')
  {
    forall u ensures MeterInv(window, bound, Of(log + [c], u), MeterOf(meters', u)) {
      assert MeterInv(window, bound, Of(log, u), MeterOf(meters, u));
      OfAppend(log, c, u);
      if u == c.uid {
        RolledKeeps(window, bound, Of(log, u), MeterOf(meters, u), c.time);
        ChargedKeeps(window, bound, Of(log, u), m, c);
      } else {
        assert MeterOf(meters', u) == MeterOf(meters, u);
      }
    }
  }

  /** If the charge was made with room, everything stays metered. */
  lemma MaybeUserCharged(window: nat, allowance: nat, most: nat, log: seq<Charge>, meters: Meters, m: Meter, c: Charge,
                         meters': Meters, room: bool)
    requires meters' == meters[c.uid := m.(spent := m.spent + c.amount)]
    requires m == Rolled(window, MeterOf(meters, c.uid), c.time) && m.start <= c.time
    requires room ==> m.spent < allowance || m.spent == 0
    ensures KeepsMetered(window, allowance, most, log, room, meters, c, meters')
  {
    if AllMetered(window, allowance + most, log, meters) && room && c.amount <= most {
      UserCharged(window, allowance + most, log, meters, m, c, meters');
    }
  }

  lemma StillTabled(window: nat, users: Meters, meters: Meters, now: nat)
    requires Tabled(window, users, meters, now)
    ensures Tabled(window, Running(window, users, now), meters, now)
  {
  }

  /** A user's window is current in the table once it was restarted or found to be running. */
  lemma TabledUser(window: nat, users: Meters, meters: Meters, clock: nat, uid: nat, m: Meter, now: nat)
    requires Tabled(window, users, meters, clock) && clock <= now && m.start <= now
    ensures Tabled(window, users[uid := m], meters[uid := m], now)
  {
  }

  /** The table and the meters roll alike: a window missing from the table has run out. */
  lemma SameWindow(window: nat, users: Meters, meters: Meters, clock: nat, uid: nat, now: nat)
    requires Tabled(window, users, meters, clock) && clock <= now
    ensures Rolled(window, MeterOf(users, uid), now) == Rolled(window, MeterOf(meters, uid), now)
    ensures Rolled(window, MeterOf(users, uid), now).start <= now
  {
  }

  /**
   Charging a user, seen from the table: the table and the meters stay in step, and a charge with room is accounted
   for.
   */
  lemma UserStep(window: nat, allowance: nat, most: nat, log: seq<Charge>, users: Meters, meters: Meters, clock: nat,
                 c: Charge, m: Meter, meters': Meters)
    requires Tabled(window, users, meters, clock) && clock <= c.time
    requires m == Added(Rolled(window, MeterOf(users, c.uid), c.time), c.amount) && meters' == meters[c.uid := m]
    ensures Tabled(window, users[c.uid := m], meters', c.time)
    ensures KeepsMetered(window, allowance, most, log, HasRoom(MeterOf(users, c.uid), allowance), meters, c, meters')
  {
    SameWindow(window, users, meters, clock, c.uid, c.time);
    TabledUser(window, users, meters, clock, c.uid, m, c.time);
    MaybeUserCharged(window, allowance, most, log, meters, Rolled(window, MeterOf(users, c.uid), c.time), c, meters',
                     HasRoom(MeterOf(users, c.uid), allowance));
  }
}
