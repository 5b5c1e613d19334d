// The scheduler's code on its module state: each method runs from one await to
// the next and performs exactly that step of the protocol.
module SchedulerState {
  import opened Options
  import opened Scheduler

  class PowerScheduler {
    var rows: map<Key, Flags>
    var tick: Tick
    var actions: map<Key, Action>
    var claiming: set<Key>
    var inFlight: set<Key>
    var stopping: bool
    const pool: nat

    ghost function Now(): State
      reads this
    {
      State(rows, tick, actions, claiming, inFlight, stopping, pool)
    }

    constructor (rows: map<Key, Flags>, pool: nat)
      ensures Now() == Begin(rows, pool)
    {
      this.rows, this.pool := rows, pool;
      tick, actions, claiming, inFlight, stopping := Idle, map[], {}, {}, false;
    }

    // The loop body's local flags, as they are updated one after the other.
    static method DecideOn(row: Flags, see: Sight, busy: bool) returns (d: Decision)
      ensures d == Decide(row, see, busy)
      ensures d.action == Some(Start) <==>
                row.lastOff == 1 && !see.off && see.status.IsStopped? && !see.skipping && !busy
      ensures d.action == Some(Stop) <==>
                see.off && see.status.IsRunning? && !see.skipping && !busy && (row.lastOff == 1 ==> !row.stopped && !row.manual)
    {
      var enteringOff := see.off && row.lastOff != 1;
      var leavingOff := !see.off && row.lastOff == 1;
      var manual := row.manual;
      var stoppedThisWindow := row.stopped;
      var action: Option<Kind> := None;
      if enteringOff || leavingOff {
        manual := false;
        stoppedThisWindow := false;
      }
      if !see.skipping {
        if see.off {
          if !manual {
            if see.status.IsRunning? {
              if stoppedThisWindow {
                manual := true;
              } else if !busy {
                action := Some(Stop);
              }
            } else if see.status.IsStopped? {
              stoppedThisWindow := true;
            }
          }
        } else if leavingOff && see.status.IsStopped? && !busy {
          action := Some(Start);
        }
      }
      d := Decision(Flags(if see.off then 1 else 0, manual, stoppedThisWindow), action);
    }

    method StartSweep() returns (started: bool)
      modifies this`tick
      ensures started == (old(tick).Idle? && !stopping)
      ensures Now() == if started then Next(old(Now()), StartTick) else old(Now())
      ensures started ==> tick == Sweep(rows, rows.Keys, None)
    {
      if !tick.Idle? || stopping { return false; }
      tick := Sweep(rows, rows.Keys, None);
      return true;
    }

    // claimAndRunAction up to its first await.
    method ClaimAndRunAction(key: Key, kind: Kind, seen: Flags, flags: Flags)
      modifies this
      ensures Now() == Queue(old(Now()), key, kind, seen, flags)
      ensures (key in inFlight && key !in old(inFlight)) <==>
                !stopping && key !in old(inFlight) && |old(inFlight)| < pool - 1
      ensures inFlight != old(inFlight) ==>
                && inFlight == old(inFlight) + {key} && claiming == old(claiming) + {key}
                && actions == old(actions)[key := Claiming(kind, seen, flags)]
    {
      if stopping { return; }
      if key in inFlight || |inFlight| >= pool - 1 { return; }
      inFlight := inFlight + {key};
      claiming := claiming + {key};
      actions := actions[key := Claiming(kind, seen, flags)];
    }

    // One schedule of the sweep.
    method EvaluateSchedule(key: Key, see: Sight)
      requires CanStep(Now(), Evaluate(key, see))
      modifies this
      ensures Now() == Next(old(Now()), Evaluate(key, see))
      ensures rows == old(rows) && (tick.Idle? <==> stopping && key !in old(claiming))
      ensures tick.Sweep? ==> tick.seen == old(tick).seen && tick.todo == old(tick).todo - {key}
    {
      var todo := tick.todo - {key};
      var seen := tick.seen[key];
      if key in claiming {
        tick := Sweep(tick.seen, todo, None);
        return;
      }
      var d := DecideOn(seen, see, key in inFlight);
      if stopping {
        tick := Idle;
        return;
      }
      if d.action.Some? {
        tick := Sweep(tick.seen, todo, None);
        ClaimAndRunAction(key, d.action.value, seen, d.flags);
      } else {
        tick := Sweep(tick.seen, todo, Some(Write(key, seen, d.flags)));
      }
    }

    // The sweep's own row write, behind the migration gate.
    method WriteSweptFlags(granted: bool) returns (written: bool)
      requires CanStep(Now(), WriteFlags(granted))
      modifies this
      ensures Now() == Next(old(Now()), WriteFlags(granted))
      ensures var w := old(tick).waiting.value;
        && (written <==> granted && !stopping && w.key in old(rows) && old(rows)[w.key] == w.seen)
        && rows == (if written then old(rows)[w.key := w.flags] else old(rows))
      ensures tick == Sweep(old(tick).seen, old(tick).todo, None)
    {
      var w := tick.waiting.value;
      tick := Sweep(tick.seen, tick.todo, None);
      if !granted || stopping { return false; }
      written := w.key in rows && rows[w.key] == w.seen;
      if written { rows := rows[w.key := w.flags]; }
    }

    // The queued action behind the migration gate: compare and set, then run.
    method RunClaim(key: Key, granted: bool)
      requires CanStep(Now(), Claim(key, granted))
      modifies this
      ensures Now() == Next(old(Now()), Claim(key, granted))
      ensures var a := old(actions)[key];
        var won := granted && !stopping && key in old(rows) && old(rows)[key] == a.seen;
        && rows == (if won then old(rows)[key := a.flags] else old(rows))
        && actions == old(actions)[key := if won then Running(a.kind) else Over(false)]
        && claiming == (if won then old(claiming) - {key} else old(claiming)) && inFlight == old(inFlight)
    {
      var Claiming(kind, seen, flags) := actions[key];
      if !granted || stopping || !(key in rows && rows[key] == seen) {
        actions := actions[key := Over(false)];
        return;
      }
      rows := rows[key := flags];
      claiming := claiming - {key};
      actions := actions[key := Running(kind)];
    }

    // The power action returned or failed.
    method RecordOutcome(key: Key, works: bool)
      requires CanStep(Now(), Complete(key, works))
      modifies this
      ensures Now() == Next(old(Now()), Complete(key, works))
      ensures actions == old(actions)[key := Over(true)] && rows.Keys == old(rows).Keys
      ensures forall k :: k in rows && k != key ==> rows[k] == old(rows)[k]
      ensures key in rows ==>
                var row := old(rows)[key];
                && rows[key].lastOff == row.lastOff && rows[key].manual == row.manual
                && (rows[key].stopped <==> row.stopped || (works && old(actions)[key].kind.Stop? && row.lastOff == 1))
    {
      if works && actions[key].kind.Stop? && key in rows {
        var row := rows[key];
        rows := rows[key := row.(stopped := if row.lastOff == 1 then true else row.stopped)];
      }
      actions := actions[key := Over(true)];
    }

    method Finally(key: Key)
      requires CanStep(Now(), CleanUp(key))
      modifies this
      ensures Now() == Next(old(Now()), CleanUp(key))
      ensures rows == old(rows) && tick == old(tick) && actions == old(actions) - {key}
      ensures claiming == old(claiming) - {key} && inFlight == old(inFlight) - {key}
    {
      claiming := claiming - {key};
      inFlight := inFlight - {key};
      actions := actions - {key};
    }
  }
}
