// All migrations of the portal together: new ones are claimed under the VM's
// advisory lock, every other step advances one row. The theorems here are about
// every run of the portal, restarts included.
module MigrationSystem {
  import opened MigrationLifecycle

  // A claim transaction holding the VM's lock: before and after it looked for
  // an unresolved migration.
  datatype Claim = Locked | Free

  datatype State = State(migrations: map<Id, Migration>, claims: map<Vmid, Claim>)

  datatype Step =
    | LockVm(v: Vmid)
    | CheckVm(v: Vmid)
    | InsertRow(v: Vmid, id: Id, mode: Mode)
    | GiveUp(v: Vmid)
    | Advance(id: Id, e: Event)
    | RestartPortal

  const EMPTY := State(map[], map[])

  function Unresolved(s: State, v: Vmid): set<Id> {
    set id | id in s.migrations && s.migrations[id].row.vmid == v && Pending(s.migrations[id].row.status)
  }

  // The transactions that take the VM's lock to settle a migration.
  predicate TakesVmLock(m: Migration, e: Event) {
    match e
    case Settle(Finish(who, works)) => works && Runs(m, who) && PhaseOf(m, who).Finishing? && PhaseOf(m, who).ok
    case Outside(Resolve(_)) => true
    case _ => false
  }

  predicate CanStep(s: State, step: Step) {
    match step
    case LockVm(v) => v !in s.claims
    case CheckVm(v) => v in s.claims && s.claims[v].Locked?
    case InsertRow(v, id, _) => v in s.claims && s.claims[v].Free? && id !in s.migrations
    case GiveUp(v) => v in s.claims
    case Advance(id, e) =>
      && id in s.migrations && Enabled(s.migrations[id], e)
      && (TakesVmLock(s.migrations[id], e) ==> s.migrations[id].row.vmid !in s.claims)
    case RestartPortal => true
  }

  function Next(s: State, step: Step): State
    requires CanStep(s, step)
  {
    match step
    case LockVm(v) => s.(claims := s.claims[v := Locked])
    case CheckVm(v) => s.(claims := if Unresolved(s, v) == {} then s.claims[v := Free] else s.claims - {v})
    case InsertRow(v, id, mode) => State(s.migrations[id := New(v, mode)], s.claims - {v})
    case GiveUp(v) => s.(claims := s.claims - {v})
    case Advance(id, e) => s.(migrations := s.migrations[id := Apply(s.migrations[id], e)])
    case RestartPortal => State(map id | id in s.migrations :: Restarted(s.migrations[id]), map[])
  }

  ghost predicate Possible(s: State, steps: seq<Step>)
    decreases |steps|
  {
    steps == [] || (CanStep(s, steps[0]) && Possible(Next(s, steps[0]), steps[1..]))
  }

  function Run(s: State, steps: seq<Step>): State
    requires Possible(s, steps)
    decreases |steps|
  {
    if steps == [] then s else Run(Next(s, steps[0]), steps[1..])
  }

  ghost predicate OnePerVm(s: State) {
    forall a, b :: a in s.migrations && b in s.migrations && a != b
                   && Pending(s.migrations[a].row.status) && Pending(s.migrations[b].row.status)
      ==> s.migrations[a].row.vmid != s.migrations[b].row.vmid
  }

  ghost predicate Safe(s: State) {
    && (forall id :: id in s.migrations ==> Inv(s.migrations[id]))
    && OnePerVm(s)
    && (forall v :: v in s.claims && s.claims[v].Free? ==> Unresolved(s, v) == {})
  }

  // A settled row never becomes unresolved again, so nothing appears behind a
  // claim's back.
  lemma AdvanceIsSafe(s: State, id: Id, e: Event)
    requires Safe(s) && CanStep(s, Advance(id, e))
    ensures Safe(Next(s, Advance(id, e)))
  {
    var m := s.migrations[id];
    EventKeepsInv(m, e);
    EventRowStep(m, e);
    var s' := Next(s, Advance(id, e));
    forall v ensures Unresolved(s', v) <= Unresolved(s, v) {
    }
  }

  lemma RestartKeepsRows(s: State)
    ensures OnePerVm(s) ==> OnePerVm(Next(s, RestartPortal))
  {
    var s' := Next(s, RestartPortal);
    forall id | id in s.migrations
      ensures s'.migrations[id].row.vmid == s.migrations[id].row.vmid
      ensures Pending(s'.migrations[id].row.status) == Pending(s.migrations[id].row.status)
    {
    }
  }

  lemma RestartIsSafe(s: State)
    requires Safe(s)
    ensures Safe(Next(s, RestartPortal))
  {
    RestartKeepsRows(s);
    forall id | id in s.migrations ensures Inv(Restarted(s.migrations[id])) {
      RestartKeepsInv(s.migrations[id]);
    }
  }

  lemma InsertIsSafe(s: State, v: Vmid, id: Id, mode: Mode)
    requires Safe(s) && CanStep(s, InsertRow(v, id, mode))
    ensures Safe(Next(s, InsertRow(v, id, mode)))
  {
    NewInv(v, mode);
    assert forall a :: a in s.migrations && Pending(s.migrations[a].row.status) ==>
        a in Unresolved(s, s.migrations[a].row.vmid);
    var s' := Next(s, InsertRow(v, id, mode));
    forall w | w in s'.claims && s'.claims[w].Free? ensures Unresolved(s', w) == {} {
      assert Unresolved(s', w) <= Unresolved(s, w);
    }
  }

  lemma StepIsSafe(s: State, step: Step)
    requires Safe(s) && CanStep(s, step)
    ensures Safe(Next(s, step))
  {
    match step
    case Advance(id, e) => AdvanceIsSafe(s, id, e);
    case RestartPortal => RestartIsSafe(s);
    case InsertRow(v, id, mode) => InsertIsSafe(s, v, id, mode);
    case CheckVm(v) =>
      var s' := Next(s, step);
      forall w | w in s'.claims && s'.claims[w].Free? ensures Unresolved(s', w) == {} {
        assert Unresolved(s', w) == Unresolved(s, w);
      }
    case _ =>
      var s' := Next(s, step);
      forall w | w in s'.claims && s'.claims[w].Free? ensures Unresolved(s', w) == {} {
        assert Unresolved(s', w) == Unresolved(s, w);
      }
  }

  // The check under the VM's lock lets a new migration in exactly if none of
  // the VM is running or under review; otherwise the claim ends.
  lemma ClaimGrantedExactly(s: State, v: Vmid)
    requires CanStep(s, CheckVm(v))
    ensures var s' := Next(s, CheckVm(v));
      && s'.migrations == s.migrations
      && ((v in s'.claims && s'.claims[v].Free?) <==>
          forall id :: id in s.migrations && s.migrations[id].row.vmid == v ==> s.migrations[id].row.status !in {Running, NeedsReview})
      && (v in s'.claims ==> s'.claims[v].Free?)
  {
    if Unresolved(s, v) != {} {
      var id :| id in Unresolved(s, v);
      assert s.migrations[id].row.vmid == v && s.migrations[id].row.status in {Running, NeedsReview};
    } else {
      forall id | id in s.migrations && s.migrations[id].row.vmid == v
        ensures s.migrations[id].row.status !in {Running, NeedsReview}
      {
        assert id !in Unresolved(s, v);
      }
    }
  }

  // After a start with an uncertain outcome the VM's next migration is refused.
  lemma UncertainStartBlocksTheVm(s: State, id: Id, written: bool, v: Vmid)
    requires Safe(s) && id in s.migrations && Enabled(s.migrations[id], Start(StartFails(true, written)))
    requires s.migrations[id].row.vmid == v && v in s.claims && s.claims[v].Locked?
    ensures var s' := Next(s, Advance(id, Start(StartFails(true, written))));
      CanStep(s', CheckVm(v)) && v !in Next(s', CheckVm(v)).claims
  {
    UncertainStartStaysPending(s.migrations[id], written);
    var s' := Next(s, Advance(id, Start(StartFails(true, written))));
    assert s'.migrations[id].row.vmid == v && s'.migrations[id].row.status in {Running, NeedsReview};
    ClaimGrantedExactly(s', v);
  }

  lemma {:induction false} RunIsSafe(s: State, steps: seq<Step>)
    requires Safe(s) && Possible(s, steps)
    ensures Safe(Run(s, steps))
    decreases |steps|
  {
    if steps != [] {
      StepIsSafe(s, steps[0]);
      RunIsSafe(Next(s, steps[0]), steps[1..]);
    }
  }

  // Each VM has at most one running or needs_review migration.
  lemma AtMostOneUnresolved(steps: seq<Step>, a: Id, b: Id)
    requires Possible(EMPTY, steps)
    requires a in Run(EMPTY, steps).migrations && b in Run(EMPTY, steps).migrations
    requires Run(EMPTY, steps).migrations[a].row.vmid == Run(EMPTY, steps).migrations[b].row.vmid
    requires Pending(Run(EMPTY, steps).migrations[a].row.status) && Pending(Run(EMPTY, steps).migrations[b].row.status)
    ensures a == b
  {
    RunIsSafe(EMPTY, steps);
  }

  // Once 'ok' or 'error', a row keeps that status for the rest of any run, and
  // its portal rows are never repointed again; a removed row stays removed.
  lemma {:induction false} FinalForever(s: State, steps: seq<Step>, id: Id)
    requires Safe(s) && Possible(s, steps) && id in s.migrations && !Pending(s.migrations[id].row.status)
    ensures id in Run(s, steps).migrations
    ensures Run(s, steps).migrations[id].row.status in {s.migrations[id].row.status, Deleted}
    ensures Run(s, steps).migrations[id].past.repoints == s.migrations[id].past.repoints
    decreases |steps|
  {
    if steps != [] {
      var m := s.migrations[id];
      var s' := Next(s, steps[0]);
      StepIsSafe(s, steps[0]);
      if steps[0].Advance? && steps[0].id == id { EventRowStep(m, steps[0].e); }
      if steps[0].RestartPortal? { RestartRowStep(m); }
      assert id in s'.migrations;
      assert RowStep(m, s'.migrations[id]);
      FinalForever(s', steps[1..], id);
    }
  }

  // The portal rows have been repointed exactly once if the migration is 'ok',
  // and not at all otherwise; success was never recorded for a tracked copy
  // that did not end well; the relocation job never started twice.
  lemma RepointedWithOkOnly(steps: seq<Step>, id: Id)
    requires Possible(EMPTY, steps) && id in Run(EMPTY, steps).migrations
    ensures var m := Run(EMPTY, steps).migrations[id];
      && (!m.row.status.Deleted? ==> m.past.repoints == if m.row.status.Succeeded? then 1 else 0)
      && m.past.repoints <= 1
      && (m.row.status.Succeeded? && m.row.mode.RemoteMigrate? && m.row.tracked ==> m.task == Stopped(true))
      && m.past.starts <= 1
  {
    RunIsSafe(EMPTY, steps);
  }

  // ── When the moves are lost ───────────────────────────────────────────────

  // This step throws away the migration's relocation list, for this reason.
  predicate LosesIn(s: State, step: Step, id: Id, cause: Cause) {
    && id in s.migrations
    && match step
       case Advance(i, e) => i == id && Loses(s.migrations[id], e, cause)
       case RestartPortal => cause.Interrupted? && RestartLoses(s.migrations[id])
       case _ => false
  }

  // Some step of the run does.
  predicate Lost(s: State, steps: seq<Step>, id: Id, cause: Cause)
    requires Possible(s, steps)
    decreases |steps|
  {
    steps != [] && (LosesIn(s, steps[0], id, cause) || Lost(Next(s, steps[0]), steps[1..], id, cause))
  }

  predicate LostAtAll(s: State, steps: seq<Step>, id: Id)
    requires Possible(s, steps)
  {
    Lost(s, steps, id, GaveUp) || Lost(s, steps, id, CopyFailed) || Lost(s, steps, id, Interrupted)
  }

  predicate Dropped(s: State, id: Id) { id in s.migrations && s.migrations[id].past.dropped }

  predicate Early(s: State, id: Id) { id in s.migrations && s.migrations[id].past.early }

  lemma StepDropsExactly(s: State, step: Step, id: Id)
    requires Safe(s) && CanStep(s, step) && !Early(Next(s, step), id)
    ensures !Early(s, id)
    ensures Dropped(Next(s, step), id) <==>
            Dropped(s, id) || LosesIn(s, step, id, GaveUp) || LosesIn(s, step, id, CopyFailed)
            || LosesIn(s, step, id, Interrupted)
  {
    if id in s.migrations {
      var m := s.migrations[id];
      if step.Advance? && step.id == id {
        PastStays(m, step.e);
        DroppedExactly(m, step.e);
      }
      if step.RestartPortal? && !m.past.early { RestartDropsExactly(m); }
    }
  }

  lemma {:induction false} RunDropsExactly(s: State, steps: seq<Step>, id: Id)
    requires Safe(s) && Possible(s, steps) && !Early(Run(s, steps), id)
    ensures !Early(s, id)
    ensures Dropped(Run(s, steps), id) <==> Dropped(s, id) || LostAtAll(s, steps, id)
    decreases |steps|
  {
    if steps != [] {
      StepIsSafe(s, steps[0]);
      RunDropsExactly(Next(s, steps[0]), steps[1..], id);
      StepDropsExactly(s, steps[0], id);
    }
  }

  // A migration whose relocations were registered in time and that left
  // 'running' has had its relocation job ended exactly if no step of the run was
  // the poller giving up while they were listed and not in flight, a look at a
  // failed copy, or a restart before they had ended.
  lemma SettledAfterTheMoves(steps: seq<Step>, id: Id)
    requires Possible(EMPTY, steps) && id in Run(EMPTY, steps).migrations
    requires var m := Run(EMPTY, steps).migrations[id]; Timely(m) && !m.row.status.Running?
    ensures Run(EMPTY, steps).migrations[id].past.moved <==> !LostAtAll(EMPTY, steps, id)
  {
    RunIsSafe(EMPTY, steps);
    RunDropsExactly(EMPTY, steps, id);
    SettledMeansMoved(Run(EMPTY, steps).migrations[id]);
  }

  // After a look at a failed copy the copy is known to have failed for good.
  lemma {:induction false} FailureIsKept(s: State, steps: seq<Step>, id: Id)
    requires Safe(s) && Possible(s, steps) && id in s.migrations
    requires s.migrations[id].task == Stopped(false) || Lost(s, steps, id, CopyFailed)
    ensures id in Run(s, steps).migrations && Run(s, steps).migrations[id].task == Stopped(false)
    decreases |steps|
  {
    if steps != [] {
      StepIsSafe(s, steps[0]);
      if steps[0].Advance? && steps[0].id == id { PastStays(s.migrations[id], steps[0].e); }
      FailureIsKept(Next(s, steps[0]), steps[1..], id);
    }
  }

  lemma {:induction false} FailureIsKnown(s: State, steps: seq<Step>, id: Id)
    requires Safe(s) && Possible(s, steps) && Lost(s, steps, id, CopyFailed)
    ensures id in Run(s, steps).migrations && Run(s, steps).migrations[id].task == Stopped(false)
    decreases |steps|
  {
    if id in s.migrations {
      FailureIsKept(s, steps, id);
    } else {
      StepIsSafe(s, steps[0]);
      FailureIsKnown(Next(s, steps[0]), steps[1..], id);
    }
  }

  // A migration is 'ok' without its relocation job having ended only after the
  // poller gave up or the portal restarted while the timely list was open.
  lemma OkWithoutTheMoves(steps: seq<Step>, id: Id)
    requires Possible(EMPTY, steps) && id in Run(EMPTY, steps).migrations
    requires var m := Run(EMPTY, steps).migrations[id]; Timely(m) && m.row.status.Succeeded?
    ensures Run(EMPTY, steps).migrations[id].past.moved <==>
            !Lost(EMPTY, steps, id, GaveUp) && !Lost(EMPTY, steps, id, Interrupted)
  {
    RunIsSafe(EMPTY, steps);
    SettledAfterTheMoves(steps, id);
    if Lost(EMPTY, steps, id, CopyFailed) { FailureIsKnown(EMPTY, steps, id); }
  }

  // ── What the code does not guarantee ──────────────────────────────────────

  lemma {:induction false} RunThen(s: State, steps: seq<Step>, step: Step)
    requires Possible(s, steps) && CanStep(Run(s, steps), step)
    ensures Possible(s, steps + [step]) && Run(s, steps + [step]) == Next(Run(s, steps), step)
    decreases |steps|
  {
    if steps == [] {
      assert (steps + [step])[1..] == [];
    } else {
      assert (steps + [step])[1..] == steps[1..] + [step];
      RunThen(Next(s, steps[0]), steps[1..], step);
    }
  }

  // One more event of migration 0.
  lemma Also(steps: seq<Step>, m: Migration, e: Event) returns (more: seq<Step>)
    requires Possible(EMPTY, steps) && Run(EMPTY, steps) == State(map[0 := m], map[])
    requires Enabled(m, e)
    ensures Possible(EMPTY, more) && Run(EMPTY, more) == State(map[0 := Apply(m, e)], map[])
  {
    more := steps + [Advance(0, e)];
    RunThen(EMPTY, steps, Advance(0, e));
  }

  lemma OneClaimed() returns (steps: seq<Step>)
    ensures Possible(EMPTY, steps) && Run(EMPTY, steps) == State(map[0 := New(100, RemoteMigrate)], map[])
  {
    steps := [];
    RunThen(EMPTY, steps, LockVm(100));
    steps := steps + [LockVm(100)];
    assert Unresolved(Run(EMPTY, steps), 100) == {};
    RunThen(EMPTY, steps, CheckVm(100));
    steps := steps + [CheckVm(100)];
    RunThen(EMPTY, steps, InsertRow(100, 0, RemoteMigrate));
    steps := steps + [InsertRow(100, 0, RemoteMigrate)];
    assert Run(EMPTY, steps).claims == map[];
  }

  // A migration that is copying, with its relocations registered or, if late,
  // not yet registered.
  lemma Copying(late: bool) returns (steps: seq<Step>, m: Migration)
    ensures Possible(EMPTY, steps) && Run(EMPTY, steps) == State(map[0 := m], map[])
    ensures m == Migration(Row(100, RemoteMigrate, Running, true), Ongoing,
                           Threads(if late then Saved else Watching, Idle, map[], false),
                           !late, false, Past(0, 0, !late, false, false, false))
  {
    steps := OneClaimed();
    m := New(100, RemoteMigrate);
    steps := Also(steps, m, Start(SubmitTask));
    m := Apply(m, Start(SubmitTask));
    steps := Also(steps, m, Start(StoreTask(true, true)));
    m := Apply(m, Start(StoreTask(true, true)));
    if !late {
      steps := Also(steps, m, Start(Register(true)));
      m := Apply(m, Start(Register(true)));
    }
  }

  // The poller runs out of attempts and discards the list; before it writes
  // 'error', a status request sees the copy finished, finds no list, and
  // records success. The disks are never moved.
  lemma TimeOutLosesTheMoves() returns (steps: seq<Step>)
    ensures Possible(EMPTY, steps) && 0 in Run(EMPTY, steps).migrations
    ensures var m := Run(EMPTY, steps).migrations[0];
      Timely(m) && m.row.status.Succeeded? && m.past.starts == 0 && !m.past.moved
  {
    var m;
    steps, m := Copying(false);
    var events := [Watch(TimeOut), Watch(StartWatcher(0)), Outside(TaskStops(true)), Watch(Ask(Watcher(0), true)),
                   Watch(Complete(Watcher(0))), Settle(Finish(Watcher(0), true))];
    steps := Also(steps, m, events[0]);
    m := Apply(m, events[0]);
    steps := Also(steps, m, events[1]);
    m := Apply(m, events[1]);
    steps := Also(steps, m, events[2]);
    m := Apply(m, events[2]);
    steps := Also(steps, m, events[3]);
    m := Apply(m, events[3]);
    steps := Also(steps, m, events[4]);
    m := Apply(m, events[4]);
    steps := Also(steps, m, events[5]);
  }

  // A list registered after the copy was seen finished is not waited for: the
  // identifier is stored before the list is registered.
  lemma LateListIsIgnored() returns (steps: seq<Step>)
    ensures Possible(EMPTY, steps) && 0 in Run(EMPTY, steps).migrations
    ensures var m := Run(EMPTY, steps).migrations[0];
      m.past.registered && m.listed && m.row.status.Succeeded? && !m.past.moved && !m.past.dropped
  {
    var m;
    steps, m := Copying(true);
    var events := [Watch(StartWatcher(0)), Outside(TaskStops(true)), Watch(Ask(Watcher(0), true)),
                   Watch(Complete(Watcher(0))), Start(Register(true)), Settle(Finish(Watcher(0), true))];
    steps := Also(steps, m, events[0]);
    m := Apply(m, events[0]);
    steps := Also(steps, m, events[1]);
    m := Apply(m, events[1]);
    steps := Also(steps, m, events[2]);
    m := Apply(m, events[2]);
    steps := Also(steps, m, events[3]);
    m := Apply(m, events[3]);
    steps := Also(steps, m, events[4]);
    m := Apply(m, events[4]);
    steps := Also(steps, m, events[5]);
  }
}
