// The life of a cross-host migration row. Every await of the portal is a point
// where anyone else may run, so each thread advances one step at a time: the
// request that starts the migration and then polls it, the status requests
// that look at it in passing, the follow-up disk relocation, operators, and a
// restart that wipes the memory of all of them.
module MigrationLifecycle {

  type Vmid = nat
  type Id = nat
  type WatcherId = nat

  // Succeeded and Failed are the statuses 'ok' and 'error'; Deleted: the
  // tracking row was removed.
  datatype Status = Running | NeedsReview | Succeeded | Failed | Deleted
  datatype Mode = RemoteMigrate | Adopt
  // tracked: the upstream task identifier is stored on the row
  datatype Row = Row(vmid: Vmid, mode: Mode, status: Status, tracked: bool)

  // The copy task on the source host. Once stopped it stays stopped.
  datatype Task = NoTask | Ongoing | Stopped(ok: bool)

  datatype Phase =
    | Idle
    | Preparing                          // row claimed, nothing submitted
    | Submitted                          // task exists, identifier not stored
    | Saved                              // identifier stored, relocations not registered
    | Working                            // the adopt job, up to its own outcome
    | Moving                             // the relocation job, moving disks
    | Watching                           // the poller between two ticks
    | Asked                              // waiting for the copy status
    | Seen(ok: bool)                     // the copy was seen stopped
    | Finishing(ok: bool, last: bool)    // in finalizeMigration; last: the thread ends after it
    | Reviewing(last: bool)              // writing 'needs_review' because success could not be recorded
    | Returned                           // completion handled
    | Ended

  datatype Threads = Threads(owner: Phase, mover: Phase, watchers: map<WatcherId, Phase>, cleanup: bool)

  datatype Who = Poller | Mover | Watcher(w: WatcherId)

  // What happened so far: how often the portal rows were repointed and the
  // relocation job started; whether a relocation list was registered, whether
  // the copy was seen stopped before that; moved: the job ended, with or without
  // moves that failed; dropped: a list was thrown away before that.
  datatype Past = Past(repoints: nat, starts: nat, registered: bool, early: bool, moved: bool, dropped: bool)

  // listed: the migration is in pendingRelocations; inFlight: in relocationsInFlight.
  datatype Migration = Migration(row: Row, task: Task, threads: Threads, listed: bool, inFlight: bool, past: Past)

  // The request that starts the migration, and the adopt job.
  datatype StartEvent =
    | SubmitTask
    | StartFails(uncertain: bool, written: bool)
    | StoreTask(stored: bool, reviewed: bool)
    | Abandon
    | Register(moves: bool)
    | AdoptEnds(success: bool)

  // Looking at the copy and acting on what was seen.
  datatype WatchEvent =
    | ReadStatus(works: bool)
    | StartWatcher(w: WatcherId)
    | Ask(who: Who, answered: bool)
    | Complete(who: Who)
    | TimeOut

  // The relocation job and finalizeMigration.
  datatype SettleEvent =
    | MovesEnd
    | Finish(who: Who, works: bool)
    | Review(who: Who, works: bool)
    | Return(who: Who)

  // Operators, and the copy itself.
  datatype OutsideEvent =
    | TaskStops(result: bool)
    | Resolve(verified: bool)
    | Reconcile
    | ReadForCleanup
    | Cleanup

  datatype Event =
    | Start(start: StartEvent)
    | Watch(watch: WatchEvent)
    | Settle(settle: SettleEvent)
    | Outside(outside: OutsideEvent)

  function New(vmid: Vmid, mode: Mode): Migration {
    Migration(Row(vmid, mode, Running, false), NoTask, Threads(Preparing, Idle, map[], false),
              false, false, Past(0, 0, false, false, false, false))
  }

  predicate Pending(s: Status) { s.Running? || s.NeedsReview? }

  predicate Final(s: Status) { s.Succeeded? || s.Failed? }

  // ── Row writes ────────────────────────────────────────────────────────────

  function WithStatus(m: Migration, s: Status): Migration { m.(row := m.row.(status := s)) }

  // UPDATE … SET status = to WHERE status = from
  function CompareAndSet(m: Migration, from: Status, to: Status): Migration {
    if m.row.status == from then WithStatus(m, to) else m
  }

  // The transaction that writes 'ok' and repoints the portal rows.
  function Succeed(m: Migration, from: Status): Migration {
    if m.row.status == from
    then WithStatus(m, Succeeded).(past := m.past.(repoints := m.past.repoints + 1))
    else m
  }

  // ── Threads ───────────────────────────────────────────────────────────────

  predicate Runs(m: Migration, who: Who) { who.Watcher? ==> who.w in m.threads.watchers }

  function PhaseOf(m: Migration, who: Who): Phase
    requires Runs(m, who)
  {
    match who
    case Poller => m.threads.owner
    case Mover => m.threads.mover
    case Watcher(w) => m.threads.watchers[w]
  }

  function WithPhase(m: Migration, who: Who, p: Phase): (r: Migration)
    ensures r.row == m.row && r.past == m.past && r.task == m.task
    ensures r.listed == m.listed && r.inFlight == m.inFlight
  {
    match who
    case Poller => m.(threads := m.threads.(owner := p))
    case Mover => m.(threads := m.threads.(mover := p))
    case Watcher(w) => m.(threads := m.threads.(watchers := m.threads.watchers[w := p]))
  }

  // Where a thread continues once completion is handled.
  function Resume(m: Migration, who: Who, last: bool): Phase {
    match who
    case Poller => if last || m.row.mode.Adopt? then Ended else Returned
    case Mover => Returned
    case Watcher(_) => Ended
  }

  // Where a thread continues when recording a failure throws.
  function AfterThrow(m: Migration, who: Who, last: bool): Phase {
    match who
    case Poller => if last then Ended else if m.row.mode.Adopt? then Finishing(false, true) else Watching
    case Mover => Returned
    case Watcher(_) => Ended
  }

  // The relocation list goes away; it is lost if its moves have not ended.
  function Unlist(m: Migration): Migration {
    m.(listed := false, past := m.past.(dropped := m.past.dropped || (m.listed && !m.past.moved)))
  }

  // completeRemoteMigrate, up to its first await.
  function CompleteRemote(m: Migration, who: Who, ok: bool): Migration {
    if !ok || !m.listed then WithPhase(Unlist(m), who, Finishing(ok, false))
    else if m.inFlight then WithPhase(m, who, Resume(m, who, false))
    else WithPhase(
           m.(inFlight := true, threads := m.threads.(mover := Moving), past := m.past.(starts := m.past.starts + 1)),
           who, Resume(m, who, false))
  }

  // ── Events ────────────────────────────────────────────────────────────────

  predicate StartEnabled(m: Migration, e: StartEvent) {
    match e
    case SubmitTask => m.threads.owner.Preparing? && m.row.mode.RemoteMigrate? && m.task.NoTask?
    case StartFails(uncertain, _) =>
      || (m.threads.owner.Preparing? && (uncertain ==> m.row.mode.RemoteMigrate?))
      || (m.threads.owner.Submitted? && uncertain)
    case StoreTask(_, _) => if m.row.mode.Adopt? then m.threads.owner.Preparing? else m.threads.owner.Submitted?
    case Abandon => m.threads.owner.Saved?
    case Register(_) => m.threads.owner.Saved?
    case AdoptEnds(_) => m.threads.owner.Working?
  }

  function ApplyStart(m: Migration, e: StartEvent): Migration {
    match e
    case SubmitTask => WithPhase(m.(task := Ongoing), Poller, Submitted)
    case StartFails(uncertain, written) =>
      var m' := if written then CompareAndSet(m, Running, if uncertain then NeedsReview else Failed) else m;
      WithPhase(m', Poller, Ended)
    case StoreTask(stored, reviewed) =>
      if !stored then WithPhase(if reviewed then CompareAndSet(m, Running, NeedsReview) else m, Poller, Ended)
      else if m.row.mode.Adopt? then WithPhase(m, Poller, Working)
      else WithPhase(m.(row := m.row.(tracked := true)), Poller, Saved)
    case Abandon => WithPhase(m, Poller, Ended)
    case Register(moves) =>
      WithPhase(if moves then m.(listed := true, past := m.past.(registered := true)) else m, Poller, Watching)
    case AdoptEnds(success) => WithPhase(m, Poller, Finishing(success, success))
  }

  predicate WatchEnabled(m: Migration, e: WatchEvent) {
    match e
    case ReadStatus(_) => m.threads.owner.Watching?
    case StartWatcher(w) =>
      w !in m.threads.watchers && m.row.status.Running? && m.row.tracked && m.row.mode.RemoteMigrate?
    case Ask(who, _) => Runs(m, who) && PhaseOf(m, who).Asked?
    case Complete(who) => Runs(m, who) && PhaseOf(m, who).Seen?
    case TimeOut => m.threads.owner.Watching?
  }

  function ApplyWatch(m: Migration, e: WatchEvent): Migration
    requires WatchEnabled(m, e)
  {
    match e
    // a select that fails ends the poller, too
    case ReadStatus(works) => WithPhase(m, Poller, if works && m.row.status.Running? then Asked else Ended)
    case StartWatcher(w) => WithPhase(m, Watcher(w), Asked)
    case Ask(who, answered) =>
      if answered && m.task.Stopped?
      then WithPhase(m.(past := m.past.(early := m.past.early || !m.past.registered)), who, Seen(m.task.ok))
      else WithPhase(m, who, if who.Watcher? then Ended else Watching)
    case Complete(who) => CompleteRemote(m, who, PhaseOf(m, who).ok)
    case TimeOut =>
      if m.inFlight then WithPhase(m, Poller, Ended) else WithPhase(Unlist(m), Poller, Finishing(false, true))
  }

  predicate SettleEnabled(m: Migration, e: SettleEvent) {
    match e
    case MovesEnd => m.threads.mover.Moving?
    case Finish(who, _) => Runs(m, who) && PhaseOf(m, who).Finishing?
    case Review(who, _) => Runs(m, who) && PhaseOf(m, who).Reviewing?
    case Return(who) => Runs(m, who) && PhaseOf(m, who).Returned?
  }

  // finalizeMigration: the success transaction or the failure write.
  function ApplyFinish(m: Migration, who: Who, works: bool): Migration
    requires Runs(m, who) && PhaseOf(m, who).Finishing?
  {
    var p := PhaseOf(m, who);
    if p.ok then
      (if works then WithPhase(Succeed(m, Running), who, Resume(m, who, p.last))
       else WithPhase(m, who, Reviewing(p.last)))
    else
      (if works then WithPhase(CompareAndSet(m, Running, Failed), who, Resume(m, who, p.last))
       else WithPhase(m, who, AfterThrow(m, who, p.last)))
  }

  function ApplySettle(m: Migration, e: SettleEvent): Migration
    requires SettleEnabled(m, e)
  {
    match e
    case MovesEnd =>
      if m.row.status.Deleted? then WithPhase(m, Mover, Returned)
      else WithPhase(m.(past := m.past.(moved := true)), Mover, Finishing(true, false))
    case Finish(who, works) => ApplyFinish(m, who, works)
    case Review(who, works) =>
      WithPhase(if works then CompareAndSet(m, Running, NeedsReview) else m, who,
                Resume(m, who, PhaseOf(m, who).last))
    case Return(who) =>
      if who.Mover? then WithPhase(m.(listed := false, inFlight := false), Mover, Ended)
      else WithPhase(m, who, if m.inFlight then Watching else Ended)
  }

  predicate OutsideEnabled(m: Migration, e: OutsideEvent) {
    match e
    case TaskStops(_) => m.task.Ongoing?
    case Resolve(_) => true
    case Reconcile => m.row.tracked
    case ReadForCleanup => Final(m.row.status)
    case Cleanup => m.threads.cleanup
  }

  function ApplyOutside(m: Migration, e: OutsideEvent): Migration {
    match e
    case TaskStops(result) => m.(task := Stopped(result))
    case Resolve(verified) =>
      if m.row.tracked && m.task != Stopped(verified) then m
      else if verified then Succeed(m, NeedsReview)
      else CompareAndSet(m, NeedsReview, Failed)
    case Reconcile => if m.task == Stopped(false) then CompareAndSet(m, NeedsReview, Failed) else m
    case ReadForCleanup => m.(threads := m.threads.(cleanup := true))
    case Cleanup => WithStatus(m, Deleted)
  }

  predicate Enabled(m: Migration, e: Event) {
    match e
    case Start(start) => StartEnabled(m, start)
    case Watch(watch) => WatchEnabled(m, watch)
    case Settle(settle) => SettleEnabled(m, settle)
    case Outside(outside) => OutsideEnabled(m, outside)
  }

  function Apply(m: Migration, e: Event): Migration
    requires Enabled(m, e)
  {
    match e
    case Start(start) => ApplyStart(m, start)
    case Watch(watch) => ApplyWatch(m, watch)
    case Settle(settle) => ApplySettle(m, settle)
    case Outside(outside) => ApplyOutside(m, outside)
  }

  // A restart loses every thread and list; startup sweeps the rows left running.
  function Restarted(m: Migration): Migration {
    CompareAndSet(Unlist(m), Running, NeedsReview).(
      inFlight := false,
      threads := Threads(Ended, if m.threads.mover.Idle? then Idle else Ended, map[], false))
  }

  // ── Where each thread goes on ─────────────────────────────────────────────

  // The poller asks as long as the row is running and it gets no answer; what
  // it sees it completes, and when it gives up on a copy that is not being
  // completed it finalizes a failure. A watcher asks once.
  lemma PollsExactly(m: Migration, e: WatchEvent, who: Who)
    requires WatchEnabled(m, e) && (e == Ask(who, e.Ask? && e.answered) || (who.Poller? && (e.ReadStatus? || e.TimeOut?)))
    ensures Runs(ApplyWatch(m, e), who)
    ensures PhaseOf(ApplyWatch(m, e), who) ==
      match e
      case ReadStatus(works) => (if works && m.row.status.Running? then Asked else Ended)
      case Ask(_, answered) =>
        (if answered && m.task.Stopped? then Seen(m.task.ok) else if who.Watcher? then Ended else Watching)
      case _ => if m.inFlight then Ended else Finishing(false, true)
  {
  }

  // A copy with relocations to make starts the job that makes them, once, and
  // any other is finalized; the job and a poller that waits for it then wait
  // for the end of the moves.
  lemma CompletesExactly(m: Migration, who: Who)
    requires WatchEnabled(m, Complete(who)) && !who.Mover?
    ensures var m' := ApplyWatch(m, Complete(who));
      var moves := PhaseOf(m, who).ok && m.listed;
      && m'.row == m.row && Runs(m', who)
      && (m'.listed <==> moves) && (m'.inFlight <==> m.inFlight || moves)
      && m'.past.starts == m.past.starts + (if moves && !m.inFlight then 1 else 0)
      && m'.threads.mover == (if moves && !m.inFlight then Moving else m.threads.mover)
      && PhaseOf(m', who) == (if !moves then Finishing(PhaseOf(m, who).ok, false)
                              else if who.Poller? && !m.row.mode.Adopt? then Returned else Ended)
  {
  }

  // After its write a thread is done, but for a poller that may have to look
  // again and the job that has to clear its list. If recording a success fails
  // it goes to review; if recording a failure does, the poller tries again.
  lemma FinishesExactly(m: Migration, who: Who, works: bool)
    requires SettleEnabled(m, Finish(who, works))
    ensures var m', p := ApplySettle(m, Finish(who, works)), PhaseOf(m, who);
      && Runs(m', who)
      && PhaseOf(m', who) ==
         if !works && p.ok then Reviewing(p.last)
         else match who
              case Mover => Returned
              case Watcher(_) => Ended
              case Poller =>
                if p.last then Ended
                else if m.row.mode.Adopt? then (if works then Ended else Finishing(false, true))
                else if works then Returned
                else Watching
  {
  }

  // ── Invariant of one migration ────────────────────────────────────────────

  predicate AtStart(p: Phase) { p.Preparing? || p.Submitted? }

  predicate Finalizing(p: Phase) { p.Finishing? || p.Reviewing? }

  // What a thread that handles completion knows about the copy.
  predicate KnowsTask(task: Task, p: Phase) {
    && (p.Seen? ==> task == Stopped(p.ok))
    && (p.Finishing? && (p.ok || !p.last) ==> task == Stopped(p.ok))
    && (p.Reviewing? ==> task == Stopped(true))
  }

  // The list was registered before anyone saw the copy stopped.
  predicate Timely(m: Migration) { m.past.registered && !m.past.early }

  ghost predicate RowFacts(m: Migration) {
    && (m.row.status.Succeeded? ==> m.past.repoints == 1)
    && (Pending(m.row.status) || m.row.status.Failed? ==> m.past.repoints == 0)
    && m.past.repoints <= 1
    && (m.threads.cleanup ==> !Pending(m.row.status))
    && (m.row.mode.RemoteMigrate? && m.row.tracked && m.row.status.Succeeded? ==> m.task == Stopped(true))
    && (AtStart(m.threads.owner) ==>
          m.row.status.Running? && !m.row.tracked && m.threads.watchers == map[] && !m.past.early)
    && (m.threads.owner.Saved? ==> m.past.early || m.row.status.Running?)
  }

  ghost predicate ThreadFacts(m: Migration) {
    var t := m.threads;
    && !t.owner.Idle? && !t.owner.Moving?
    && (t.mover.Idle? || t.mover.Moving? || t.mover == Finishing(true, false) || t.mover == Reviewing(false)
        || t.mover.Returned? || t.mover.Ended?)
    && (forall w :: w in t.watchers ==>
          (t.watchers[w].Asked? || t.watchers[w].Seen? || Finalizing(t.watchers[w]) || t.watchers[w].Ended?)
          && KnowsTask(m.task, t.watchers[w])
          && (t.watchers[w].Seen? || Finalizing(t.watchers[w]) ==> m.past.early || m.past.registered))
    && KnowsTask(m.task, t.mover)
    && (m.row.mode.RemoteMigrate? ==> KnowsTask(m.task, t.owner) && !t.owner.Working?)
    && (m.row.mode.Adopt? ==>
          && (t.owner.Preparing? || t.owner.Working? || Finalizing(t.owner) || t.owner.Ended?)
          && t.watchers == map[] && t.mover.Idle? && !m.past.registered && !m.row.tracked)
  }

  ghost predicate ListFacts(m: Migration) {
    var t := m.threads;
    && m.inFlight == !(t.mover.Idle? || t.mover.Ended?)
    && m.past.starts == (if t.mover.Idle? then 0 else 1)
    && (m.inFlight ==> m.listed && m.task == Stopped(true))
    && (t.mover.Idle? || t.mover.Moving? ==> !m.past.moved)
    && (t.mover.Ended? ==> !m.listed)
    && (!t.mover.Idle? || m.listed ==> m.past.registered)
    && (m.listed ==> !m.past.dropped)
    && (m.past.dropped ==> m.past.registered)
    && (m.past.moved ==> !m.past.dropped)
    && (AtStart(t.owner) || t.owner.Saved? ==> !m.past.registered)
    && (t.owner.Saved? || m.past.registered ==> m.row.tracked && m.row.mode.RemoteMigrate?)
  }

  ghost predicate TimelyFacts(m: Migration) {
    Timely(m) ==>
      && (!m.listed || !m.row.status.Running? ==> m.past.moved || m.past.dropped)
      && (Finalizing(m.threads.owner) ==> !m.listed)
      && (forall w :: w in m.threads.watchers && Finalizing(m.threads.watchers[w]) ==> !m.listed)
      && (Finalizing(m.threads.mover) || m.threads.mover.Returned? ==> m.past.moved)
  }

  ghost predicate Inv(m: Migration) {
    RowFacts(m) && ThreadFacts(m) && ListFacts(m) && TimelyFacts(m)
  }

  lemma NewInv(vmid: Vmid, mode: Mode)
    ensures Inv(New(vmid, mode))
  {
  }

  lemma RestartKeepsInv(m: Migration)
    requires Inv(m)
    ensures Inv(Restarted(m))
  {
  }

  lemma StartKeepsInv(m: Migration, e: StartEvent)
    requires Inv(m) && StartEnabled(m, e)
    ensures Inv(ApplyStart(m, e))
  {
  }

  lemma AskKeepsInv(m: Migration, who: Who, answered: bool)
    requires Inv(m) && Runs(m, who) && PhaseOf(m, who).Asked?
    ensures Inv(ApplyWatch(m, Ask(who, answered)))
  {
    match who
    case Poller =>
    case Mover =>
    case Watcher(w) =>
  }

  lemma CompleteKeepsInv(m: Migration, who: Who)
    requires Inv(m) && Runs(m, who) && PhaseOf(m, who).Seen?
    ensures Inv(ApplyWatch(m, Complete(who)))
  {
    match who
    case Poller =>
    case Mover =>
    case Watcher(w) =>
  }

  lemma WatchKeepsInv(m: Migration, e: WatchEvent)
    requires Inv(m) && WatchEnabled(m, e)
    ensures Inv(ApplyWatch(m, e))
  {
    match e
    case Ask(who, answered) => AskKeepsInv(m, who, answered);
    case Complete(who) => CompleteKeepsInv(m, who);
    case ReadStatus(_) =>
    case StartWatcher(w) =>
    case TimeOut =>
  }

  // A thread that handles completion may take the row out of 'running'.
  lemma SettlingKnows(m: Migration, who: Who)
    requires Inv(m) && Runs(m, who) && Finalizing(PhaseOf(m, who))
    ensures !AtStart(m.threads.owner)
    ensures m.threads.owner.Saved? ==> m.past.early
    ensures Timely(m) ==> m.past.moved || m.past.dropped
    ensures m.row.mode.RemoteMigrate? ==> KnowsTask(m.task, PhaseOf(m, who))
  {
    match who
    case Poller =>
    case Mover =>
    case Watcher(w) =>
  }

  lemma SettledRowKeepsInv(m: Migration, to: Status)
    requires Inv(m) && m.row.status.Running? && (Final(to) || to.NeedsReview?)
    requires !AtStart(m.threads.owner) && (m.threads.owner.Saved? ==> m.past.early)
    requires Timely(m) ==> m.past.moved || m.past.dropped
    requires to.Succeeded? && m.row.mode.RemoteMigrate? ==> m.task == Stopped(true)
    ensures Inv(if to.Succeeded? then Succeed(m, Running) else CompareAndSet(m, Running, to))
  {
  }

  lemma NextPhaseKeepsInv(m: Migration, who: Who, last: bool)
    requires Inv(m) && Runs(m, who) && Finalizing(PhaseOf(m, who))
    ensures Inv(WithPhase(m, who, Resume(m, who, last)))
    ensures PhaseOf(m, who) == Finishing(true, last) ==> Inv(WithPhase(m, who, Reviewing(last)))
  {
    match who
    case Poller =>
    case Mover =>
    case Watcher(w) =>
  }

  lemma ThrowKeepsInv(m: Migration, who: Who, last: bool)
    requires Inv(m) && Runs(m, who) && PhaseOf(m, who) == Finishing(false, last)
    ensures Inv(WithPhase(m, who, AfterThrow(m, who, last)))
  {
    match who
    case Poller =>
    case Mover =>
    case Watcher(w) =>
  }

  function FinishedRow(m: Migration, ok: bool, works: bool): Migration {
    if !works then m else if ok then Succeed(m, Running) else CompareAndSet(m, Running, Failed)
  }

  lemma FinishedRowKeepsInv(m: Migration, who: Who, works: bool)
    requires Inv(m) && Runs(m, who) && PhaseOf(m, who).Finishing?
    ensures Inv(FinishedRow(m, PhaseOf(m, who).ok, works))
  {
    SettlingKnows(m, who);
    if works && m.row.status.Running? {
      SettledRowKeepsInv(m, if PhaseOf(m, who).ok then Succeeded else Failed);
    }
  }

  lemma FinishKeepsInv(m: Migration, who: Who, works: bool)
    requires Inv(m) && Runs(m, who) && PhaseOf(m, who).Finishing?
    ensures Inv(ApplyFinish(m, who, works))
  {
    var Finishing(ok, last) := PhaseOf(m, who);
    var m' := FinishedRow(m, ok, works);
    FinishedRowKeepsInv(m, who, works);
    NextPhaseKeepsInv(m', who, last);
    if !ok { ThrowKeepsInv(m', who, last); }
  }

  lemma ReviewKeepsInv(m: Migration, who: Who, works: bool)
    requires Inv(m) && Runs(m, who) && PhaseOf(m, who).Reviewing?
    ensures Inv(ApplySettle(m, Review(who, works)))
  {
    var m' := if works then CompareAndSet(m, Running, NeedsReview) else m;
    SettlingKnows(m, who);
    if works && m.row.status.Running? { SettledRowKeepsInv(m, NeedsReview); }
    assert Inv(m') && m'.threads == m.threads && m'.row.mode == m.row.mode;
    NextPhaseKeepsInv(m', who, PhaseOf(m, who).last);
  }

  lemma ReturnKeepsInv(m: Migration, who: Who)
    requires Inv(m) && Runs(m, who) && PhaseOf(m, who).Returned?
    ensures Inv(ApplySettle(m, Return(who)))
  {
    match who
    case Poller =>
    case Mover =>
    case Watcher(w) =>
  }

  lemma SettleKeepsInv(m: Migration, e: SettleEvent)
    requires Inv(m) && SettleEnabled(m, e)
    ensures Inv(ApplySettle(m, e))
  {
    match e
    case MovesEnd =>
    case Finish(who, works) => FinishKeepsInv(m, who, works);
    case Review(who, works) => ReviewKeepsInv(m, who, works);
    case Return(who) => ReturnKeepsInv(m, who);
  }

  lemma OutsideKeepsInv(m: Migration, e: OutsideEvent)
    requires Inv(m) && OutsideEnabled(m, e)
    ensures Inv(ApplyOutside(m, e))
  {
  }

  lemma EventKeepsInv(m: Migration, e: Event)
    requires Inv(m) && Enabled(m, e)
    ensures Inv(Apply(m, e))
  {
    match e
    case Start(start) => StartKeepsInv(m, start);
    case Watch(watch) => WatchKeepsInv(m, watch);
    case Settle(settle) => SettleKeepsInv(m, settle);
    case Outside(outside) => OutsideKeepsInv(m, outside);
  }

  // ── What the invariant says ───────────────────────────────────────────────

  // How one step may change the row: 'ok' and 'error' are never left except by
  // removing the tracking row, and the portal rows are repointed in the step
  // that writes 'ok' and in no other.
  ghost predicate RowStep(m: Migration, m': Migration) {
    && (!Pending(m.row.status) ==> m'.row.status in {m.row.status, Deleted})
    && m'.past.repoints == m.past.repoints + (if m'.row.status.Succeeded? && !m.row.status.Succeeded? then 1 else 0)
    && m'.row.vmid == m.row.vmid && m'.row.mode == m.row.mode
  }

  lemma FinishRowStep(m: Migration, who: Who, works: bool)
    requires RowFacts(m) && Runs(m, who) && PhaseOf(m, who).Finishing?
    ensures RowStep(m, ApplyFinish(m, who, works))
  {
  }

  lemma StartRowStep(m: Migration, e: StartEvent)
    requires RowFacts(m) && StartEnabled(m, e)
    ensures RowStep(m, ApplyStart(m, e))
  {
  }

  lemma WatchRowStep(m: Migration, e: WatchEvent)
    requires RowFacts(m) && WatchEnabled(m, e)
    ensures RowStep(m, ApplyWatch(m, e))
  {
  }

  lemma SettleRowStep(m: Migration, e: SettleEvent)
    requires RowFacts(m) && SettleEnabled(m, e)
    ensures RowStep(m, ApplySettle(m, e))
  {
    if e.Finish? { FinishRowStep(m, e.who, e.works); }
  }

  lemma OutsideRowStep(m: Migration, e: OutsideEvent)
    requires RowFacts(m) && OutsideEnabled(m, e)
    ensures RowStep(m, ApplyOutside(m, e))
  {
  }

  lemma EventRowStep(m: Migration, e: Event)
    requires RowFacts(m) && Enabled(m, e)
    ensures RowStep(m, Apply(m, e))
  {
    match e
    case Start(start) => StartRowStep(m, start);
    case Watch(watch) => WatchRowStep(m, watch);
    case Settle(settle) => SettleRowStep(m, settle);
    case Outside(outside) => OutsideRowStep(m, outside);
  }

  lemma RestartRowStep(m: Migration)
    requires RowFacts(m)
    ensures RowStep(m, Restarted(m))
  {
  }

  // ── Outcomes ──────────────────────────────────────────────────────────────

  // This thread's finalizing write goes through.
  predicate Writes(m: Migration, e: Event, ok: bool) {
    && e.Settle? && e.settle.Finish? && e.settle.works
    && Runs(m, e.settle.who) && PhaseOf(m, e.settle.who).Finishing? && PhaseOf(m, e.settle.who).ok == ok
  }

  // 'ok' is written exactly by a finalization of success on a running row, or
  // by an operator's verdict on a row under review whose stored task, if any,
  // ended OK.
  lemma SucceedsExactly(m: Migration, e: Event)
    requires Enabled(m, e) && !m.row.status.Succeeded?
    ensures Apply(m, e).row.status.Succeeded? <==>
            || (m.row.status.Running? && Writes(m, e, true))
            || (m.row.status.NeedsReview? && e == Outside(Resolve(true)) && (m.row.tracked ==> m.task == Stopped(true)))
  {
  }

  // 'error' is written exactly by a finalization of failure, or by a start that
  // certainly made no task, on a running row; or by a verdict or a later look
  // that finds the copy failed, on a row under review.
  lemma FailsExactly(m: Migration, e: Event)
    requires Inv(m) && Enabled(m, e) && !m.row.status.Failed?
    ensures Apply(m, e).row.status.Failed? <==>
            || (m.row.status.Running? && (Writes(m, e, false) || e == Start(StartFails(false, true))))
            || (m.row.status.NeedsReview? && e == Outside(Resolve(false)) && (m.row.tracked ==> m.task == Stopped(false)))
            || (m.row.status.NeedsReview? && e == Outside(Reconcile) && m.task == Stopped(false))
  {
    if e.Settle? && e.settle.Finish? { FailsByFinish(m, e.settle.who, e.settle.works); }
  }

  lemma FailsByFinish(m: Migration, who: Who, works: bool)
    requires Runs(m, who) && PhaseOf(m, who).Finishing? && !m.row.status.Failed?
    ensures ApplyFinish(m, who, works).row.status.Failed? <==> m.row.status.Running? && works && !PhaseOf(m, who).ok
  {
  }

  // A running row is put under review exactly by a start whose task may exist,
  // by a task identifier that could not be stored, or by a thread that could
  // not record the success it had seen.
  lemma ReviewedExactly(m: Migration, e: Event)
    requires Enabled(m, e) && !m.row.status.NeedsReview?
    ensures Apply(m, e).row.status.NeedsReview? <==>
            m.row.status.Running?
            && (|| e == Start(StartFails(true, true)) || e == Start(StoreTask(false, true))
                || (e.Settle? && e.settle.Review? && e.settle.works))
  {
  }

  // After a start with an uncertain outcome the migration is still unresolved.
  lemma UncertainStartStaysPending(m: Migration, written: bool)
    requires Inv(m) && Enabled(m, Start(StartFails(true, written)))
    ensures Apply(m, Start(StartFails(true, written))).row.status in {Running, NeedsReview}
  {
  }

  // A thread comes to finalize with this outcome exactly by seeing the copy
  // end so without relocations to make first, by giving up, by the end of the
  // adopt job, or by the end of the relocation job; an adopt job whose failure
  // could not be written tries once more.
  lemma FinalizesExactly(m: Migration, e: Event, who: Who, ok: bool)
    requires Enabled(m, e) && Runs(m, who) && !PhaseOf(m, who).Finishing?
    requires !(e.Watch? && e.watch.StartWatcher? && who == Watcher(e.watch.w))
    ensures var m' := Apply(m, e);
      Runs(m', who) && (PhaseOf(m', who).Finishing? && PhaseOf(m', who).ok == ok <==>
        || (e == Watch(Complete(who)) && PhaseOf(m, who) == Seen(ok) && (!ok || !m.listed))
        || (e == Watch(TimeOut) && who.Poller? && !ok && !m.inFlight)
        || (e == Start(AdoptEnds(ok)) && who.Poller?)
        || (e == Settle(MovesEnd) && who.Mover? && ok && !m.row.status.Deleted?))
  {
    match e
    case Start(start) =>
    case Watch(watch) => FinalizesByWatch(m, watch, who, ok);
    case Settle(settle) => FinalizesBySettle(m, settle, who, ok);
    case Outside(outside) =>
  }

  lemma FinalizesByWatch(m: Migration, e: WatchEvent, who: Who, ok: bool)
    requires WatchEnabled(m, e) && Runs(m, who) && !PhaseOf(m, who).Finishing?
    requires !(e.StartWatcher? && who == Watcher(e.w))
    ensures var m' := ApplyWatch(m, e);
      Runs(m', who) && (PhaseOf(m', who).Finishing? && PhaseOf(m', who).ok == ok <==>
        || (e == Complete(who) && PhaseOf(m, who) == Seen(ok) && (!ok || !m.listed))
        || (e == TimeOut && who.Poller? && !ok && !m.inFlight))
  {
    match who
    case Poller =>
    case Mover =>
    case Watcher(w) =>
  }

  lemma FinalizesBySettle(m: Migration, e: SettleEvent, who: Who, ok: bool)
    requires SettleEnabled(m, e) && Runs(m, who) && !PhaseOf(m, who).Finishing?
    ensures var m' := ApplySettle(m, e);
      Runs(m', who) && (PhaseOf(m', who).Finishing? && PhaseOf(m', who).ok == ok <==>
        e == MovesEnd && who.Mover? && ok && !m.row.status.Deleted?)
  {
    match who
    case Poller =>
    case Mover =>
    case Watcher(w) =>
  }

  lemma RepointedExactlyOnce(m: Migration)
    requires Inv(m) && !m.row.status.Deleted?
    ensures m.past.repoints == if m.row.status.Succeeded? then 1 else 0
  {
  }

  // While the registered moves are under way, only the relocation job itself
  // or a restart takes the row out of 'running'.
  lemma MovesAreNotInterrupted(m: Migration, e: Event)
    requires Inv(m) && Enabled(m, e) && Timely(m) && m.inFlight
    ensures m.threads.mover.Moving? ==> m.row.status.Running? && Apply(m, e).row.status.Running?
    ensures m.row.status.Running? && !Apply(m, e).row.status.Running? ==> e.Settle? && (e.settle.Finish? || e.settle.Review?)
    ensures m.row.status.Running? && !Apply(m, e).row.status.Running? ==> e.settle.who == Mover
  {
  }

  // The relocation job of a settled migration has ended, or its list was lost.
  lemma SettledMeansMoved(m: Migration)
    requires Inv(m) && Timely(m) && !m.row.status.Running?
    ensures m.past.moved <==> !m.past.dropped
  {
  }

  // ── Losing the list ───────────────────────────────────────────────────────

  // The poller gives up, the copy turns out to have failed, the portal restarts.
  datatype Cause = GaveUp | CopyFailed | Interrupted

  // The branch that throws a registered list away, as its guard reads.
  predicate Loses(m: Migration, e: Event, cause: Cause) {
    match cause
    case GaveUp => m.listed && !m.inFlight && e == Watch(TimeOut)
    case CopyFailed => m.listed && m.task == Stopped(false) && e.Watch? && e.watch.Complete?
    case Interrupted => false
  }

  predicate RestartLoses(m: Migration) { m.listed && (!m.inFlight || m.threads.mover.Moving?) }

  lemma DroppedExactly(m: Migration, e: Event)
    requires Inv(m) && Enabled(m, e)
    ensures Apply(m, e).past.dropped <==> m.past.dropped || Loses(m, e, GaveUp) || Loses(m, e, CopyFailed)
  {
    match e
    case Start(start) =>
    case Watch(watch) => if watch.Complete? { CompleteDropsExactly(m, watch.who); }
    case Settle(settle) =>
    case Outside(outside) =>
  }

  lemma CompleteDropsExactly(m: Migration, who: Who)
    requires Inv(m) && Runs(m, who) && PhaseOf(m, who).Seen?
    ensures ApplyWatch(m, Complete(who)).past.dropped <==> m.past.dropped || (m.listed && m.task == Stopped(false))
  {
    match who
    case Poller =>
    case Mover =>
    case Watcher(w) =>
  }

  lemma RestartDropsExactly(m: Migration)
    requires Inv(m) && !m.past.early
    ensures Restarted(m).past.dropped <==> m.past.dropped || RestartLoses(m)
  {
  }

  // ── Lists registered late ─────────────────────────────────────────────────

  // A thread that was already finalizing writes the row's outcome.
  predicate PassesOver(e: Event) {
    && e.Settle?
    && match e.settle
       case Finish(_, works) => works
       case Review(_, works) => works
       case _ => false
  }

  // While a list is registered and its job has not ended, the row leaves
  // 'running' exactly by such a write, and only after the copy had been seen
  // stopped before the list was registered. (A restart loses the list.)
  lemma PassedOverExactly(m: Migration, e: Event)
    requires Inv(m) && Enabled(m, e) && m.row.status.Running? && m.listed && !m.past.moved
    ensures !Apply(m, e).row.status.Running? <==> PassesOver(e)
    ensures PassesOver(e) ==> m.past.early
  {
    match e
    case Start(start) =>
    case Watch(watch) =>
    case Settle(settle) => if settle.Finish? || settle.Review? { SettlingKnows(m, settle.who); }
    case Outside(outside) =>
  }

  // What a thread saw early stays seen, and a stopped copy stays stopped.
  lemma PastStays(m: Migration, e: Event)
    requires Enabled(m, e)
    ensures m.past.early ==> Apply(m, e).past.early
    ensures m.task.Stopped? ==> Apply(m, e).task == m.task
  {
  }
}
