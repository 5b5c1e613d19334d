// The portal's migration code on its live state: the rows, the two module-level
// collections of pending and running relocations, and where each thread is.
// Every method performs exactly the step of the protocol proved safe in
// MigrationLifecycle and MigrationSystem.
module MigrationPortal {
  import opened MigrationLifecycle
  import opened MigrationSystem

  type Move = string

  datatype TxResult = Committed | NotClaimed | Busy | TaskNotOk

  // What happens to one attempt of the success transaction.
  datatype Fault = Fine | LockBusy | Broken

  const CONTENTION_ATTEMPTS := 5

  // The attempt that is not turned away by the lock, or the number of attempts.
  function FirstSettled(faults: seq<Fault>): (k: nat)
    ensures k <= |faults|
    ensures forall i :: 0 <= i < k ==> faults[i].LockBusy?
    ensures k < |faults| ==> !faults[k].LockBusy?
  {
    if faults == [] || !faults[0].LockBusy? then 0 else 1 + FirstSettled(faults[1..])
  }

  lemma {:induction false} FirstSettledUnique(faults: seq<Fault>, k: nat)
    requires k <= |faults| && (forall i :: 0 <= i < k ==> faults[i].LockBusy?)
    requires k < |faults| ==> !faults[k].LockBusy?
    ensures k == FirstSettled(faults)
  {
    if k != 0 { FirstSettledUnique(faults[1..], k - 1); }
  }

  // What the portal knows of one migration outside the two collections.
  datatype Entry = Entry(row: Row, task: Task, threads: Threads, past: Past)

  class Portal {
    var known: map<Id, Entry>                    // removed rows stay as Deleted
    var claims: map<Vmid, Claim>
    var pendingRelocations: map<Id, seq<Move>>
    var relocationsInFlight: set<Id>

    ghost predicate Valid()
      reads this
    {
      forall id :: id in pendingRelocations ==> pendingRelocations[id] != []
    }

    ghost function View(id: Id): Migration
      reads this
      requires id in known
    {
      var e := known[id];
      Migration(e.row, e.task, e.threads, id in pendingRelocations, id in relocationsInFlight, e.past)
    }

    ghost function Now(): State
      reads this
    {
      State(map id | id in known :: View(id), claims)
    }

    constructor ()
      ensures Valid() && Now() == EMPTY
    {
      known, claims, pendingRelocations, relocationsInFlight := map[], map[], map[], {};
    }

    // claimMigration as one undisturbed transaction: lock, look, insert.
    method ClaimMigration(v: Vmid, id: Id, mode: Mode) returns (r: TxResult)
      requires Valid() && id !in known && id !in pendingRelocations && id !in relocationsInFlight
      modifies this
      ensures Valid()
      ensures r == if v in old(claims) then Busy else if Unresolved(old(Now()), v) != {} then NotClaimed else Committed
      ensures r.Committed? ==>
                var steps := [LockVm(v), CheckVm(v), InsertRow(v, id, mode)];
                Possible(old(Now()), steps) && Now() == Run(old(Now()), steps)
      ensures !r.Committed? ==> Now() == old(Now())
    {
      if v in claims { return Busy; }
      var found := set i | i in known && known[i].row.vmid == v && Pending(known[i].row.status);
      assert found == Unresolved(Now(), v);
      if found != {} { return NotClaimed; }
      ghost var before := Now();
      known := known[id := Entry(Row(v, mode, Running, false), NoTask, Threads(Preparing, Idle, map[], false),
                                 Past(0, 0, false, false, false, false))];
      ClaimSteps(before, v, id, mode);
      assert View(id) == New(v, mode);
      assert Now().migrations == before.migrations[id := New(v, mode)];
      return Committed;
    }

    static lemma ClaimSteps(s: State, v: Vmid, id: Id, mode: Mode)
      requires v !in s.claims && id !in s.migrations && Unresolved(s, v) == {}
      ensures var steps := [LockVm(v), CheckVm(v), InsertRow(v, id, mode)];
        Possible(s, steps) && Run(s, steps) == State(s.migrations[id := New(v, mode)], s.claims)
    {
      var s1 := Next(s, LockVm(v));
      assert Unresolved(s1, v) == Unresolved(s, v);
      var s2 := Next(s1, CheckVm(v));
      RunThen(s, [], LockVm(v));
      RunThen(s, [LockVm(v)], CheckVm(v));
      RunThen(s, [LockVm(v), CheckVm(v)], InsertRow(v, id, mode));
      assert [LockVm(v), CheckVm(v), InsertRow(v, id, mode)] == [LockVm(v)] + [CheckVm(v)] + [InsertRow(v, id, mode)];
      assert s2.claims - {v} == s.claims;
    }

    // The relocation list is stored before the poller starts.
    method RegisterAndPoll(id: Id, relocate: seq<Move>)
      requires Valid() && id in known && known[id].threads.owner.Saved? && id !in pendingRelocations
      modifies this
      ensures Valid() && known.Keys == old(known.Keys)
      ensures View(id) == Apply(old(View(id)), Start(Register(relocate != [])))
      ensures pendingRelocations == if relocate == [] then old(pendingRelocations) else old(pendingRelocations)[id := relocate]
      ensures relocationsInFlight == old(relocationsInFlight) && known[id].row == old(known)[id].row
      ensures known[id].threads == old(known)[id].threads.(owner := Watching)
      ensures forall j :: j in known && j != id ==> View(j) == old(View(j))
    {
      var e := known[id];
      if |relocate| > 0 {
        pendingRelocations := pendingRelocations[id := relocate];
        e := e.(past := e.past.(registered := true));
      }
      known := known[id := e.(threads := e.threads.(owner := Watching))];
    }

    // The entry when its relocation list is thrown away.
    function Discarded(id: Id): Entry
      reads this
      requires id in known
    {
      var e := known[id];
      e.(past := e.past.(dropped := e.past.dropped || (id in pendingRelocations && !e.past.moved)))
    }

    static function Moved(t: Threads, who: Who, p: Phase): (r: Threads)
      ensures forall m: Migration :: m.threads == t ==> WithPhase(m, who, p) == m.(threads := r)
    {
      match who
      case Poller => t.(owner := p)
      case Mover => t.(mover := p)
      case Watcher(w) => t.(watchers := t.watchers[w := p])
    }

    static function NextPhase(mode: Mode, who: Who, last: bool): (p: Phase)
      ensures forall m: Migration :: m.row.mode == mode ==> Resume(m, who, last) == p
    {
      if who.Watcher? || (who.Poller? && (last || mode.Adopt?)) then Ended else Returned
    }

    // completeRemoteMigrate up to the point where it awaits.
    method CompleteRemoteMigrate(id: Id, who: Who, ok: bool)
      requires Valid() && id in known && Runs(View(id), who) && PhaseOf(View(id), who) == Seen(ok)
      modifies this
      ensures Valid() && known.Keys == old(known.Keys)
      ensures View(id) == Apply(old(View(id)), Watch(Complete(who)))
      ensures known[id].row == old(known)[id].row
      ensures ok && id in old(pendingRelocations) ==>
                && pendingRelocations == old(pendingRelocations) && relocationsInFlight == old(relocationsInFlight) + {id}
                && (id !in old(relocationsInFlight) ==> known[id].past.starts == old(known)[id].past.starts + 1)
                && (id in old(relocationsInFlight) ==> known[id].past == old(known)[id].past)
      ensures !ok || id !in old(pendingRelocations) ==>
                && pendingRelocations == old(pendingRelocations) - {id} && relocationsInFlight == old(relocationsInFlight)
                && PhaseOf(View(id), who) == Finishing(ok, false)
      ensures forall j :: j in known && j != id ==> View(j) == old(View(j))
    {
      var moves := if id in pendingRelocations then pendingRelocations[id] else [];
      var e := known[id];
      if !ok || |moves| == 0 {
        known := known[id := Discarded(id).(threads := Moved(e.threads, who, Finishing(ok, false)))];
        pendingRelocations := pendingRelocations - {id};
        return;
      }
      var next := NextPhase(e.row.mode, who, false);
      if id in relocationsInFlight {
        known := known[id := e.(threads := Moved(e.threads, who, next))];
        return;
      }
      relocationsInFlight := relocationsInFlight + {id};
      known := known[id := e.(past := e.past.(starts := e.past.starts + 1),
                              threads := Moved(e.threads.(mover := Moving), who, next))];
    }

    // The poller has used up its attempts.
    method GiveUpPolling(id: Id)
      requires Valid() && id in known && known[id].threads.owner.Watching?
      modifies this
      ensures Valid() && known.Keys == old(known.Keys)
      ensures View(id) == Apply(old(View(id)), Watch(TimeOut))
      ensures known[id].row == old(known)[id].row && relocationsInFlight == old(relocationsInFlight)
      ensures known[id].threads == old(known)[id].threads.(owner := if id in relocationsInFlight then Ended else Finishing(false, true))
      ensures pendingRelocations == if id in relocationsInFlight then old(pendingRelocations) else old(pendingRelocations) - {id}
      ensures forall j :: j in known && j != id ==> View(j) == old(View(j))
    {
      var e := known[id];
      if id in relocationsInFlight {
        known := known[id := e.(threads := e.threads.(owner := Ended))];
        return;
      }
      known := known[id := Discarded(id).(threads := e.threads.(owner := Finishing(false, true)))];
      pendingRelocations := pendingRelocations - {id};
    }

    // The relocation job's last act, however it ended.
    method EndRelocation(id: Id)
      requires Valid() && id in known && known[id].threads.mover.Returned?
      modifies this
      ensures Valid() && known.Keys == old(known.Keys)
      ensures View(id) == Apply(old(View(id)), Settle(Return(Mover)))
      ensures known[id].row == old(known)[id].row && known[id].past == old(known)[id].past
      ensures relocationsInFlight == old(relocationsInFlight) - {id} && pendingRelocations == old(pendingRelocations) - {id}
      ensures forall j :: j in known && j != id ==> View(j) == old(View(j))
    {
      relocationsInFlight := relocationsInFlight - {id};
      pendingRelocations := pendingRelocations - {id};
      known := known[id := known[id].(threads := known[id].threads.(mover := Ended))];
    }

    // The transaction that writes 'ok' and repoints the portal rows. A refusal
    // by the upstream task takes the status write back.
    method FinalizeMigrationSuccess(id: Id, expected: Status, busy: bool) returns (r: TxResult)
      requires Valid() && id in known && Pending(expected)
      modifies this`known
      ensures r == (var row := old(known[id].row);
                    if row.status.Deleted? then NotClaimed
                    else if busy then Busy
                    else if row.status != expected then NotClaimed
                    else if expected.NeedsReview? && row.tracked && old(known[id].task) != Stopped(true) then TaskNotOk
                    else Committed)
      ensures known.Keys == old(known.Keys)
      ensures View(id) == if r.Committed? then Succeed(old(View(id)), expected) else old(View(id))
      ensures r.Committed? ==>
                && known[id].row == old(known)[id].row.(status := Succeeded)
                && known[id].past == old(known)[id].past.(repoints := old(known)[id].past.repoints + 1)
                && known[id].threads == old(known)[id].threads
      ensures !r.Committed? ==> known[id] == old(known)[id]
      ensures forall j :: j in known && j != id ==> View(j) == old(View(j))
    {
      var e := known[id];
      if e.row.status.Deleted? { return NotClaimed; }
      if busy { return Busy; }
      if e.row.status != expected { return NotClaimed; }
      known := known[id := e.(row := e.row.(status := Succeeded))];
      if expected.NeedsReview? && e.row.tracked && e.task != Stopped(true) {
        known := known[id := e];
        return TaskNotOk;
      }
      known := known[id := known[id].(past := e.past.(repoints := e.past.repoints + 1))];
      return Committed;
    }

    // An operator's verdict on a migration awaiting review.
    method ResolveReview(id: Id, verified: bool) returns (done: bool)
      requires Valid() && id in known
      modifies this`known
      ensures known.Keys == old(known.Keys)
      ensures View(id) == Apply(old(View(id)), Outside(Resolve(verified)))
      ensures done == (old(known[id].row.status).NeedsReview?
                       && (old(known[id].row.tracked) ==> old(known[id].task) == Stopped(verified)))
      ensures done ==>
                && known[id].row == old(known)[id].row.(status := if verified then Succeeded else Failed)
                && known[id].past.repoints == old(known)[id].past.repoints + if verified then 1 else 0
      ensures !done ==> known[id] == old(known)[id]
      ensures forall j :: j in known && j != id ==> View(j) == old(View(j))
    {
      if verified {
        var r := FinalizeMigrationSuccess(id, NeedsReview, false);
        return r.Committed?;
      }
      var e := known[id];
      if !e.row.status.NeedsReview? || (e.row.tracked && e.task != Stopped(false)) { return false; }
      known := known[id := e.(row := e.row.(status := Failed))];
      return true;
    }

    // finalizeMigration for a finished copy: the success transaction is retried
    // while the VM's lock is taken; any other trouble, or running out of
    // attempts, leaves the row for review.
    method FinalizeMigration(id: Id, who: Who, last: bool, faults: seq<Fault>, reviewWorks: bool)
      requires Valid() && id in known && Runs(View(id), who) && PhaseOf(View(id), who) == Finishing(true, last)
      requires |faults| == CONTENTION_ATTEMPTS
      modifies this`known
      ensures known.Keys == old(known.Keys)
      ensures var k := FirstSettled(faults);
        View(id) == if k < |faults| && faults[k].Fine? then Apply(old(View(id)), Settle(Finish(who, true)))
                    else Apply(Apply(old(View(id)), Settle(Finish(who, false))), Settle(Review(who, reviewWorks)))
      ensures var through := exists k :: 0 <= k < |faults| && faults[k].Fine? && forall i :: 0 <= i < k ==> faults[i].LockBusy?;
        var running := old(known)[id].row.status.Running?;
        && known[id].row.status == (if running && through then Succeeded
                                    else if running && reviewWorks then NeedsReview
                                    else old(known)[id].row.status)
        && known[id].past.repoints == old(known)[id].past.repoints + if running && through then 1 else 0
      ensures forall j :: j in known && j != id ==> View(j) == old(View(j))
    {
      SettlesTo(View(id), who, reviewWorks);
      var through := WriteOutcome(id, faults, reviewWorks);
      var e := known[id];
      known := known[id := e.(threads := Moved(e.threads, who, NextPhase(e.row.mode, who, last)))];
    }

    method WriteOutcome(id: Id, faults: seq<Fault>, reviewWorks: bool) returns (through: bool)
      requires Valid() && id in known && |faults| == CONTENTION_ATTEMPTS
      modifies this`known
      ensures known.Keys == old(known.Keys)
      ensures through <==> FirstSettled(faults) < |faults| && faults[FirstSettled(faults)].Fine?
      ensures through <==> exists k :: 0 <= k < |faults| && faults[k].Fine? && forall i :: 0 <= i < k ==> faults[i].LockBusy?
      ensures View(id) == if through then Succeed(old(View(id)), Running)
                          else if reviewWorks then CompareAndSet(old(View(id)), Running, NeedsReview)
                          else old(View(id))
      ensures var running := old(known)[id].row.status.Running?;
        && known[id].row.status == (if running && through then Succeeded
                                    else if running && reviewWorks then NeedsReview
                                    else old(known)[id].row.status)
        && known[id].past.repoints == old(known)[id].past.repoints + if running && through then 1 else 0
      ensures forall j :: j in known && j != id ==> View(j) == old(View(j))
    {
      var attempt := Retry(faults);
      through := attempt < CONTENTION_ATTEMPTS && faults[attempt].Fine?;
      if through {
        var r := FinalizeMigrationSuccess(id, Running, false);
      } else if reviewWorks && known[id].row.status.Running? {
        known := known[id := known[id].(row := known[id].row.(status := NeedsReview))];
      }
    }

    // finalizeMigration for a failed copy or job: one update of a running row.
    // If it throws, the poller goes on, and an adopt job tries once more.
    method FinalizeMigrationFailed(id: Id, who: Who, last: bool, works: bool)
      requires Valid() && id in known && Runs(View(id), who) && PhaseOf(View(id), who) == Finishing(false, last)
      modifies this`known
      ensures known.Keys == old(known.Keys)
      ensures View(id) == Apply(old(View(id)), Settle(Finish(who, works)))
      ensures known[id].row.status == if works && old(known[id].row.status).Running? then Failed else old(known[id].row.status)
      ensures forall j :: j in known && j != id ==> View(j) == old(View(j))
    {
      var e := known[id];
      if !works {
        known := known[id := e.(threads := Moved(e.threads, who, PhaseAfterThrow(e.row.mode, who, last)))];
        return;
      }
      var row := if e.row.status.Running? then e.row.(status := Failed) else e.row;
      known := known[id := e.(row := row, threads := Moved(e.threads, who, NextPhase(e.row.mode, who, last)))];
    }

    static function PhaseAfterThrow(mode: Mode, who: Who, last: bool): (p: Phase)
      ensures forall m: Migration :: m.row.mode == mode ==> AfterThrow(m, who, last) == p
    {
      match who
      case Poller => if last then Ended else if mode.Adopt? then Finishing(false, true) else Watching
      case Mover => Returned
      case Watcher(_) => Ended
    }

    static method Retry(faults: seq<Fault>) returns (attempt: nat)
      requires |faults| == CONTENTION_ATTEMPTS
      ensures attempt == FirstSettled(faults)
    {
      attempt := 0;
      while attempt < CONTENTION_ATTEMPTS && faults[attempt].LockBusy?
        invariant attempt <= CONTENTION_ATTEMPTS
        invariant forall i :: 0 <= i < attempt ==> faults[i].LockBusy?
      {
        attempt := attempt + 1;
      }
      FirstSettledUnique(faults, attempt);
    }

    static lemma SettlesTo(m: Migration, who: Who, reviewWorks: bool)
      requires Runs(m, who) && PhaseOf(m, who).Finishing? && PhaseOf(m, who).ok
      ensures var next := Resume(m, who, PhaseOf(m, who).last);
        && Apply(m, Settle(Finish(who, true))) == WithPhase(Succeed(m, Running), who, next)
        && var reviewing := Apply(m, Settle(Finish(who, false)));
        && Enabled(reviewing, Settle(Review(who, reviewWorks)))
        && Apply(reviewing, Settle(Review(who, reviewWorks))) ==
           WithPhase(if reviewWorks then CompareAndSet(m, Running, NeedsReview) else m, who, next)
    {
      match who
      case Poller =>
      case Mover =>
      case Watcher(w) =>
    }

    // A restart forgets every thread and list, and startup sweeps the rows it
    // interrupted.
    method Restart()
      requires Valid()
      modifies this
      ensures Valid() && known.Keys == old(known.Keys)
      ensures Now() == Next(old(Now()), RestartPortal)
      ensures pendingRelocations == map[] && relocationsInFlight == {} && claims == map[]
      ensures forall id :: id in known ==>
                known[id].row.status == if old(known)[id].row.status.Running? then NeedsReview else old(known)[id].row.status
    {
      Forget();
      SweepInterrupted();
      RestartedTogether(old(Now()), Now());
    }

    // What is in memory only.
    method Forget()
      modifies this
      ensures Valid() && known.Keys == old(known.Keys) && claims == map[]
      ensures pendingRelocations == map[] && relocationsInFlight == {}
      ensures forall id :: id in known ==> known[id].row == old(known)[id].row
      ensures forall id :: id in known ==>
                View(id) == Unlist(old(View(id))).(
                  inFlight := false,
                  threads := Threads(Ended, if old(known[id].threads.mover).Idle? then Idle else Ended, map[], false))
    {
      known := map id | id in known ::
        Discarded(id).(threads := Threads(Ended, if known[id].threads.mover.Idle? then Idle else Ended, map[], false));
      pendingRelocations, relocationsInFlight, claims := map[], {}, map[];
    }

    // reconcileInterruptedOperations, for the migration rows
    method SweepInterrupted()
      modifies this`known
      ensures known.Keys == old(known.Keys)
      ensures forall id :: id in known ==> View(id) == CompareAndSet(old(View(id)), Running, NeedsReview)
      ensures forall id :: id in known ==>
                known[id] == if old(known)[id].row.status.Running?
                             then old(known)[id].(row := old(known)[id].row.(status := NeedsReview)) else old(known)[id]
    {
      known := map id | id in known ::
        if known[id].row.status.Running? then known[id].(row := known[id].row.(status := NeedsReview)) else known[id];
    }
  }

  // Restarting every migration is the restart of the portal.
  lemma RestartedTogether(s: State, s': State)
    requires s'.migrations.Keys == s.migrations.Keys && s'.claims == map[]
    requires forall id :: id in s.migrations ==> s'.migrations[id] == Restarted(s.migrations[id])
    ensures s' == Next(s, RestartPortal)
  {
    assert s'.migrations == Next(s, RestartPortal).migrations;
  }
}
