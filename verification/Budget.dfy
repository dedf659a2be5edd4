/**
 The daemon's allowance of slow-path time, per user and for all users together. Users are forgotten when the table
 grows; what is charged in any interval stays bounded all the same.
 */
module Budget {
  import opened Wrappers
  import opened Metering
  import opened MeterProofs

  const TABLE_LIMIT: nat := 4096

  class Budgets {
    const window: nat
    const allowance: nat
    const globalAllowance: nat
    var global: Option<Meter>
    var users: Meters
    ghost const most: nat
    ghost var log: seq<Charge>
    ghost var meters: Meters
    ghost var clock: nat

    /** The clock is ahead of every window, and only windows that have run out are missing from the table. */
    ghost predicate Tidy()
      reads this
    {
      (global.Some? ==> global.value.start <= clock) && Tabled(window, users, meters, clock)
    }

    /** Every charge so far was made with room, and none exceeded `most`: all of them are accounted for. */
    ghost predicate Valid()
      reads this
    {
      && Tidy()
      && MeterInv(window, globalAllowance + most, log, global)
      && AllMetered(window, allowance + most, log, meters)
    }

    /** Both the user and all users together have some allowance left. */
    ghost predicate Room(uid: nat)
      reads this
    {
      HasRoom(global, globalAllowance) && HasRoom(MeterOf(users, uid), allowance)
    }

    /** At this moment the global window or the user's, restarted if it ran out, is used up. */
    predicate UsedUp(uid: nat, now: nat)
      reads this
    {
      || Rolled(window, global, now).spent >= globalAllowance
      || (uid in users && Rolled(window, Some(users[uid]), now).spent >= allowance)
    }

    constructor (allowance: nat, globalAllowance: nat, window: nat, ghost most: nat)
      ensures Valid() && log == [] && clock == 0
      ensures this.allowance == allowance && this.globalAllowance == globalAllowance && this.window == window
      ensures this.most == most
    {
      this.allowance, this.globalAllowance, this.window, this.most := allowance, globalAllowance, window, most;
      global, users, log, meters, clock := None, map[], [], map[], 0;
    }

    method RollGlobal(now: nat)
      requires Valid() && clock <= now
      modifies this`global, this`clock
      ensures Valid() && clock == now && global == Some(Rolled(window, old(global), now))
    {
      RolledKeeps(window, globalAllowance + most, log, global, now);
      clock := now;
      if global.None? || now - global.value.start >= window {
        global := Some(Meter(now, 0));
      }
    }

    /** Starts a new window for a user when the current one has run out. */
    method RollUser(uid: nat, now: nat)
      requires Valid() && clock == now && uid in users
      modifies this`users, this`meters
      ensures Valid() && users == old(users)[uid := Rolled(window, Some(old(users)[uid]), now)]
    {
      ghost var before := meters;
      if now - users[uid].start >= window {
        users := users[uid := Meter(now, 0)];
      }
      meters := meters[uid := users[uid]];
      UserRolled(window, allowance + most, log, before, uid, now, meters);
    }

    /** Whether a user, or everybody together, has used up the allowance. */
    method Exhausted(uid: nat, now: nat) returns (r: bool)
      requires Valid() && clock <= now
      modifies this`global, this`users, this`meters, this`clock
      ensures Valid() && clock == now && (!r ==> Room(uid))
      ensures r <==> old(UsedUp(uid, now))
    {
      RollGlobal(now);
      if global.value.spent >= globalAllowance {
        return true;
      }
      if uid !in users {
        return false;
      }
      RollUser(uid, now);
      r := users[uid].spent >= allowance;
    }

    /** Enters a charge into the global window. */
    method ChargeGlobal(ghost uid: nat, spent: nat, now: nat)
      requires clock <= now && (global.Some? ==> global.value.start <= clock)
      modifies this`global
      ensures global == Some(Added(Rolled(window, old(global), now), spent)) && global.value.start <= now
      ensures old(MeterInv(window, globalAllowance + most, log, global)) && old(HasRoom(global, globalAllowance)) &&
              spent <= most ==>
                MeterInv(window, globalAllowance + most, log + [Charge(uid, now, spent)], global)
    {
      ghost var before := global;
      if global.None? || now - global.value.start >= window {
        global := Some(Meter(now, 0));
      }
      global := Some(global.value.(spent := global.value.spent + spent));
      if MeterInv(window, globalAllowance + most, log, before) && HasRoom(before, globalAllowance) && spent <= most {
        RolledKeeps(window, globalAllowance + most, log, before, now);
        ChargedKeeps(window, globalAllowance + most, log, Rolled(window, before, now), Charge(uid, now, spent));
      }
    }

    /** Enters a charge into the user's window, and forgets users whose window has run out if the table is large. */
    method ChargeUser(uid: nat, spent: nat, now: nat)
      requires clock <= now && Tabled(window, users, meters, clock)
      modifies this`users, this`meters
      ensures Tabled(window, users, meters, now)
      ensures meters == old(meters)[uid := Added(Rolled(window, MeterOf(old(users), uid), now), spent)]
      ensures KeepsMetered(window, allowance, most, log, HasRoom(MeterOf(old(users), uid), allowance), old(meters),
                           Charge(uid, now, spent), meters)
    {
      var m := if uid in users then users[uid] else Meter(now, 0);
      if now - m.start >= window {
        m := Meter(now, 0);
      }
      m := Added(m, spent);
      UserStep(window, allowance, most, log, users, meters, clock, Charge(uid, now, spent), m, meters[uid := m]);
      users := users[uid := m];
      meters := meters[uid := m];
      Forget(now);
    }

    method Forget(now: nat)
      requires Tabled(window, users, meters, now)
      modifies this`users
      ensures Tabled(window, users, meters, now)
    {
      if |users| > TABLE_LIMIT {
        StillTabled(window, users, meters, now);
        users := Running(window, users, now);
      }
    }

    /**
     Records time spent for a user, whoever asks: it is added to the user's and to the global window, each restarted
     if it ran out. If both had room and the charge is bounded, everything stays accounted for.
     */
    method Enter(uid: nat, spent: nat, now: nat)
      requires Tidy() && clock <= now
      modifies this`global, this`users, this`log, this`meters, this`clock
      ensures Tidy() && clock == now && log == old(log) + [Charge(uid, now, spent)]
      ensures global == Some(Added(Rolled(window, old(global), now), spent))
      ensures meters == old(meters)[uid := Added(Rolled(window, MeterOf(old(users), uid), now), spent)]
      ensures old(Valid()) && old(Room(uid)) && spent <= most ==> Valid()
    {
      ChargeGlobal(uid, spent, now);
      ChargeUser(uid, spent, now);
      log := log + [Charge(uid, now, spent)];
      clock := now;
    }

    /**
     Answers one event: work is done, and charged when it is finished, if and only if neither allowance was used up when
     the event arrived. Root is neither limited nor charged.
     */
    method Serve(uid: nat, arrived: nat, work: nat, finished: nat) returns (served: bool)
      requires Valid() && clock <= arrived <= finished && work <= most
      modifies this`global, this`users, this`log, this`meters, this`clock
      ensures Valid() && clock <= finished
      ensures served <==> uid == 0 || !old(UsedUp(uid, arrived))
      ensures uid == 0 ==> global == old(global) && users == old(users)
      ensures log == if served && uid != 0 then old(log) + [Charge(uid, finished, work)] else old(log)
    {
      if uid != 0 {
        var out := Exhausted(uid, arrived);
        if out {
          return false;
        }
        Enter(uid, work, finished);
      }
      served := true;
    }

    /**
     After any number of events: in every interval as long as the window, all users together were charged at most twice
     the global allowance and one charge each, and every user at most twice their own.
     */
    lemma ChargesAreBounded(x: int, uid: nat)
      requires Valid()
      ensures Within(log, x, window) <= 2 * (globalAllowance + most)
      ensures Within(Of(log, uid), x, window) <= 2 * (allowance + most)
    {
      assert MeterInv(window, allowance + most, Of(log, uid), MeterOf(meters, uid));
      if window == 0 {
        Nothing(log, x);
        Nothing(Of(log, uid), x);
      }
    }
  }
}
