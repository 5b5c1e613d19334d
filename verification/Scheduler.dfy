// The VM power scheduler. A tick decides on a snapshot of the schedule rows and
// on a VM status that may be out of date; stops and starts are claimed and run
// out of band and write back later. Every await is a point where the others may
// run. Schedules are not edited here.
module Scheduler {
  import opened Options
  import opened NodeRef

  datatype Key = Key(node: string, vmid: nat)

  // lastOff: 1 inside a recorded off-window, 0 outside, -1 unknown
  datatype Flags = Flags(lastOff: int, manual: bool, stopped: bool)

  datatype Kind = Stop | Start

  datatype VmStatus = IsRunning | IsStopped | Otherwise

  // What a tick sees of one VM at the moment it evaluates its schedule.
  datatype Sight = Sight(off: bool, status: VmStatus, skipping: bool)

  datatype Decision = Decision(flags: Flags, action: Option<Kind>)

  // ── The decision ──────────────────────────────────────────────────────────

  // The window this tick is in began or ended since the row was written.
  predicate Edge(row: Flags, off: bool) { off != (row.lastOff == 1) }

  function Decide(row: Flags, see: Sight, busy: bool): Decision {
    var manual := row.manual && !Edge(row, see.off);
    var stopped := row.stopped && !Edge(row, see.off);
    var override := !see.skipping && see.off && !manual && see.status.IsRunning? && stopped;
    var satisfied := !see.skipping && see.off && !manual && see.status.IsStopped?;
    Decision(
      Flags(if see.off then 1 else 0, manual || override, stopped || satisfied),
      if !see.skipping && see.off && !manual && !stopped && see.status.IsRunning? && !busy then Some(Stop)
      else if !see.skipping && !see.off && row.lastOff == 1 && see.status.IsStopped? && !busy then Some(Start)
      else None)
  }

  // A tick that still sees the window it last recorded forgets neither that the
  // VM was stopped in it nor that the user took over.
  lemma DecisionRemembers(row: Flags, see: Sight, busy: bool)
    ensures var d := Decide(row, see, busy);
      && (d.flags.lastOff == 1 <==> see.off)
      && (row.lastOff == 1 && see.off ==>
            (row.stopped ==> d.flags.stopped && d.action != Some(Stop)) && (row.manual ==> d.flags.manual && d.action.None?))
      && (d.action == Some(Start) ==> row.lastOff == 1 && d.flags == Flags(0, false, false))
      && (d.action == Some(Stop) ==> d.flags == Flags(1, false, false))
  {
  }

  // ── State ─────────────────────────────────────────────────────────────────

  // An action between being queued and its clean-up. claimed: the row was
  // updated, so the key has left `claiming`.
  datatype Action =
    | Claiming(kind: Kind, seen: Flags, flags: Flags)
    | Running(kind: Kind)
    | Over(claimed: bool)

  datatype Write = Write(key: Key, seen: Flags, flags: Flags)

  // The tick in progress: its snapshot, the schedules it has yet to evaluate,
  // and the write it is waiting for.
  datatype Tick = Idle | Sweep(seen: map<Key, Flags>, todo: set<Key>, waiting: Option<Write>)

  datatype State = State(
    rows: map<Key, Flags>, tick: Tick, actions: map<Key, Action>,
    claiming: set<Key>, inFlight: set<Key>, stopping: bool, pool: nat)

  datatype Step =
    | StartTick
    | Evaluate(key: Key, see: Sight)
    | Pass(key: Key)                       // malformed schedule, or VM not visible
    | WriteFlags(granted: bool)
    | EndTick
    | Claim(key: Key, granted: bool)
    | Complete(key: Key, works: bool)
    | CleanUp(key: Key)
    | StopScheduler
    | StartScheduler
    | Restart

  function Begin(rows: map<Key, Flags>, pool: nat): State {
    State(rows, Idle, map[], {}, {}, false, pool)
  }

  predicate CanStep(s: State, step: Step) {
    match step
    case StartTick => s.tick.Idle? && !s.stopping
    case Evaluate(key, _) => s.tick.Sweep? && s.tick.waiting.None? && key in s.tick.todo && key in s.tick.seen
    case Pass(key) => s.tick.Sweep? && s.tick.waiting.None? && key in s.tick.todo
    case WriteFlags(_) => s.tick.Sweep? && s.tick.waiting.Some?
    case EndTick => s.tick.Sweep? && s.tick.waiting.None? && (s.tick.todo == {} || s.stopping)
    case Claim(key, _) => key in s.actions && s.actions[key].Claiming?
    case Complete(key, _) => key in s.actions && s.actions[key].Running?
    case CleanUp(key) => key in s.actions && s.actions[key].Over?
    case _ => true
  }

  // UPDATE … WHERE the row still is as it was seen
  predicate Matches(rows: map<Key, Flags>, key: Key, seen: Flags) { key in rows && rows[key] == seen }

  // claimAndRunAction up to its first await.
  function Queue(s: State, key: Key, kind: Kind, seen: Flags, flags: Flags): State {
    if s.stopping || key in s.inFlight || |s.inFlight| >= s.pool - 1 then s
    else s.(actions := s.actions[key := Claiming(kind, seen, flags)],
            claiming := s.claiming + {key}, inFlight := s.inFlight + {key})
  }

  function Swept(s: State, key: Key): State
    requires s.tick.Sweep?
  {
    s.(tick := Sweep(s.tick.seen, s.tick.todo - {key}, None))
  }

  function Evaluated(s: State, key: Key, see: Sight): State
    requires s.tick.Sweep? && key in s.tick.seen
  {
    var seen := s.tick.seen[key];
    var d := Decide(seen, see, key in s.inFlight);
    if key in s.claiming then Swept(s, key)
    else if s.stopping then s.(tick := Idle)
    else if d.action.Some? then Queue(Swept(s, key), key, d.action.value, seen, d.flags)
    else s.(tick := Sweep(s.tick.seen, s.tick.todo - {key}, Some(Write(key, seen, d.flags))))
  }

  function Written(s: State, granted: bool): State
    requires s.tick.Sweep? && s.tick.waiting.Some?
  {
    var w := s.tick.waiting.value;
    var s' := s.(tick := Sweep(s.tick.seen, s.tick.todo, None));
    if granted && !s.stopping && Matches(s.rows, w.key, w.seen) then s'.(rows := s.rows[w.key := w.flags]) else s'
  }

  // The claim succeeds only on an unchanged row.
  predicate Claims(s: State, key: Key, granted: bool)
    requires key in s.actions && s.actions[key].Claiming?
  {
    granted && !s.stopping && Matches(s.rows, key, s.actions[key].seen)
  }

  function Claimed(s: State, key: Key, granted: bool): State
    requires key in s.actions && s.actions[key].Claiming?
  {
    var a := s.actions[key];
    if Claims(s, key, granted)
    then s.(rows := s.rows[key := a.flags], actions := s.actions[key := Running(a.kind)], claiming := s.claiming - {key})
    else s.(actions := s.actions[key := Over(false)])
  }

  // A stop that worked is remembered while the row records an off-window.
  function Completed(s: State, key: Key, works: bool): State
    requires key in s.actions && s.actions[key].Running?
  {
    var s' := s.(actions := s.actions[key := Over(true)]);
    if works && s.actions[key].kind.Stop? && key in s.rows && s.rows[key].lastOff == 1
    then s'.(rows := s.rows[key := s.rows[key].(stopped := true)])
    else s'
  }

  function Next(s: State, step: Step): State
    requires CanStep(s, step)
  {
    match step
    case StartTick => s.(tick := Sweep(s.rows, s.rows.Keys, None))
    case Evaluate(key, see) => Evaluated(s, key, see)
    case Pass(key) => Swept(s, key)
    case WriteFlags(granted) => Written(s, granted)
    case EndTick => s.(tick := Idle)
    case Claim(key, granted) => Claimed(s, key, granted)
    case Complete(key, works) => Completed(s, key, works)
    case CleanUp(key) =>
      s.(actions := s.actions - {key}, claiming := s.claiming - {key}, inFlight := s.inFlight - {key})
    case StopScheduler => s.(stopping := true)
    case StartScheduler => s.(stopping := false)
    case Restart => Begin(s.rows, s.pool)
  }

  // ── What one evaluation does ──────────────────────────────────────────────

  // Neither an action of this schedule is on its way, nor is the pool used up.
  predicate MayQueue(s: State, key: Key) {
    !s.stopping && key !in s.claiming && key !in s.inFlight && |s.inFlight| < s.pool - 1
  }

  predicate Queued(s: State, s': State, key: Key, kind: Kind) {
    key !in s.actions && key in s'.actions && s'.actions[key].Claiming? && s'.actions[key].kind == kind
  }

  // The VM is to be started exactly at the end of the recorded window, seen
  // stopped; its claim expects the row as seen and leaves it outside the window.
  lemma StartsExactly(s: State, key: Key, see: Sight)
    requires s.inFlight == s.actions.Keys && CanStep(s, Evaluate(key, see))
    ensures var s', seen := Next(s, Evaluate(key, see)), s.tick.seen[key];
      && (Queued(s, s', key, Start) <==>
            MayQueue(s, key) && seen.lastOff == 1 && !see.off && see.status.IsStopped? && !see.skipping)
      && (Queued(s, s', key, Start) ==> s'.actions == s.actions[key := Claiming(Start, seen, Flags(0, false, false))])
  {
  }

  // The VM is to be stopped exactly inside the window, seen running, unless the
  // recorded window has been stopped for already or the user has taken over.
  lemma StopsExactly(s: State, key: Key, see: Sight)
    requires s.inFlight == s.actions.Keys && CanStep(s, Evaluate(key, see))
    ensures var s', seen := Next(s, Evaluate(key, see)), s.tick.seen[key];
      && (Queued(s, s', key, Stop) <==>
            MayQueue(s, key) && see.off && see.status.IsRunning? && !see.skipping
            && (seen.lastOff == 1 ==> !seen.stopped && !seen.manual))
      && (Queued(s, s', key, Stop) ==> s'.actions == s.actions[key := Claiming(Stop, seen, Flags(1, false, false))])
  {
  }

  // What the tick writes when it queues nothing: whether it is inside the
  // window, that the user took over (a VM that runs although the window has
  // been stopped for), and that the window is done (the VM was seen stopped).
  // At the edges of a window both marks are forgotten first.
  lemma WritesExactly(s: State, key: Key, see: Sight)
    requires CanStep(s, Evaluate(key, see)) && Next(s, Evaluate(key, see)).tick.Sweep?
    requires Next(s, Evaluate(key, see)).tick.waiting.Some?
    ensures var w, seen := Next(s, Evaluate(key, see)).tick.waiting.value, s.tick.seen[key];
      var sameSide := see.off <==> seen.lastOff == 1;
      && w.key == key && w.seen == seen && w.flags.lastOff == (if see.off then 1 else 0)
      && (w.flags.manual <==>
            sameSide && (seen.manual || (see.off && see.status.IsRunning? && seen.stopped && !see.skipping)))
      && (w.flags.stopped <==>
            || (sameSide && seen.stopped)
            || (see.off && see.status.IsStopped? && !see.skipping && !(sameSide && seen.manual)))
  {
  }

  // A tick waits for its own write exactly if it may go on and has no reason to
  // act, or an action of the schedule is in flight already.
  lemma WaitsExactly(s: State, key: Key, see: Sight)
    requires CanStep(s, Evaluate(key, see))
    ensures var s', seen := Next(s, Evaluate(key, see)), s.tick.seen[key];
      var wanted := && !see.skipping
                    && ((see.off && see.status.IsRunning? && (seen.lastOff == 1 ==> !seen.stopped && !seen.manual))
                        || (!see.off && seen.lastOff == 1 && see.status.IsStopped?));
      (s'.tick.Sweep? && s'.tick.waiting.Some?) <==>
      !s.stopping && key !in s.claiming && (!wanted || key in s.inFlight)
  {
  }

  // A tick starts on all rows and takes each schedule off its list once.
  lemma TickExactly(s: State, step: Step)
    requires CanStep(s, step)
    ensures var s' := Next(s, step);
      s'.tick.Sweep? ==>
            && s'.tick.seen == (if step.StartTick? then s.rows else s.tick.seen)
            && s'.tick.todo == (if step.StartTick? then s.rows.Keys
                                else if step.Evaluate? || step.Pass? then s.tick.todo - {step.key}
                                else s.tick.todo)
  {
  }

  // It goes on to its end, unless a restart or a stopping scheduler ends it.
  lemma TickEndsExactly(s: State, step: Step)
    requires CanStep(s, step)
    ensures Next(s, step).tick.Idle? <==>
            || step.EndTick? || step.Restart? || (s.tick.Idle? && !step.StartTick?)
            || (step.Evaluate? && s.stopping && step.key !in s.claiming)
  {
  }

  lemma StoppingExactly(s: State, step: Step)
    requires CanStep(s, step)
    ensures Next(s, step).stopping <==> (s.stopping || step.StopScheduler?) && !step.StartScheduler? && !step.Restart?
  {
  }

  // Every way a row can change: by the tick's write or by a claim, each behind
  // its gate and only while the row is as it was seen, and by a stop that worked.
  lemma RowsExactly(s: State, step: Step, key: Key)
    requires CanStep(s, step) && key in s.rows
    ensures key in Next(s, step).rows
    ensures Next(s, step).rows[key] ==
      if step == WriteFlags(true) && !s.stopping && s.tick.waiting.value.key == key && s.tick.waiting.value.seen == s.rows[key]
      then s.tick.waiting.value.flags
      else if step == Claim(key, true) && !s.stopping && s.actions[key].seen == s.rows[key]
      then s.actions[key].flags
      else if step == Complete(key, true) && s.actions[key].kind.Stop? && s.rows[key].lastOff == 1
      then s.rows[key].(stopped := true)
      else s.rows[key]
  {
  }

  // ── Invariant ─────────────────────────────────────────────────────────────

  // The flags come from a decision on the seen row.
  ghost predicate Decided(seen: Flags, flags: Flags, action: Option<Kind>) {
    exists see, busy :: Decide(seen, see, busy) == Decision(flags, action)
  }

  ghost predicate Inv(s: State) {
    && s.inFlight == s.actions.Keys
    && s.claiming == (set k | k in s.actions && (s.actions[k].Claiming? || s.actions[k] == Over(false)))
    && (|s.inFlight| <= s.pool - 1 || s.inFlight == {})
    && (forall k :: k in s.actions && s.actions[k].Claiming? ==>
          Decided(s.actions[k].seen, s.actions[k].flags, Some(s.actions[k].kind)))
    && (s.tick.Sweep? && s.tick.waiting.Some? ==>
          Decided(s.tick.waiting.value.seen, s.tick.waiting.value.flags, None))
  }

  lemma QueueKeepsInv(s: State, key: Key, kind: Kind, seen: Flags, flags: Flags)
    requires Inv(s) && Decided(seen, flags, Some(kind))
    ensures Inv(Queue(s, key, kind, seen, flags))
  {
  }

  // A queued action never replaces another of the same schedule, and the
  // number in flight stays below the size of the connection pool.
  lemma EvaluateKeepsInv(s: State, key: Key, see: Sight)
    requires Inv(s) && CanStep(s, Evaluate(key, see))
    ensures Inv(Next(s, Evaluate(key, see)))
    ensures key in s.actions ==> Next(s, Evaluate(key, see)).actions == s.actions
  {
    var seen := s.tick.seen[key];
    var busy := key in s.inFlight;
    var d := Decide(seen, see, busy);
    assert Decided(seen, d.flags, d.action);
    if d.action.Some? { QueueKeepsInv(Swept(s, key), key, d.action.value, seen, d.flags); }
  }

  lemma StepKeepsInv(s: State, step: Step)
    requires Inv(s) && CanStep(s, step)
    ensures Inv(Next(s, step))
  {
    match step
    case Evaluate(key, see) => EvaluateKeepsInv(s, key, see);
    case Claim(key, granted) => ClaimKeepsInv(s, key, granted);
    case Complete(key, works) => CompleteKeepsInv(s, key, works);
    case CleanUp(key) => CleanUpKeepsInv(s, key);
    case _ =>
  }

  lemma ClaimKeepsInv(s: State, key: Key, granted: bool)
    requires Inv(s) && CanStep(s, Claim(key, granted))
    ensures Inv(Next(s, Claim(key, granted)))
  {
  }

  lemma CompleteKeepsInv(s: State, key: Key, works: bool)
    requires Inv(s) && CanStep(s, Complete(key, works))
    ensures Inv(Next(s, Complete(key, works)))
  {
  }

  lemma CleanUpKeepsInv(s: State, key: Key)
    requires Inv(s) && CanStep(s, CleanUp(key))
    ensures Inv(Next(s, CleanUp(key)))
  {
    assert |s.inFlight - {key}| <= |s.inFlight|;
  }

  // ── What steps do to one schedule's row ───────────────────────────────────

  // This step claims an action of the schedule.
  predicate ClaimsKind(s: State, step: Step, key: Key, kind: Kind)
    requires CanStep(s, step)
  {
    step.Claim? && step.key == key && s.actions[key].kind == kind && Claims(s, key, step.granted)
  }

  predicate Off(s: State, key: Key) { key in s.rows && s.rows[key].lastOff == 1 }

  lemma RowsStay(s: State, step: Step)
    requires CanStep(s, step)
    ensures Next(s, step).rows.Keys == s.rows.Keys
  {
  }

  // Inside a window the row keeps that the VM was stopped, and once it does, no
  // stop is claimed.
  lemma StoppedIsKept(s: State, step: Step, key: Key)
    requires Inv(s) && CanStep(s, step) && Off(s, key) && s.rows[key].stopped
    ensures Off(Next(s, step), key) ==> Next(s, step).rows[key].stopped
    ensures !ClaimsKind(s, step, key, Stop)
  {
    if step.Claim? && step.key == key {
      var a := s.actions[key];
      var see, busy :| Decide(a.seen, see, busy) == Decision(a.flags, Some(a.kind));
      DecisionRemembers(a.seen, see, busy);
    } else if step.WriteFlags? && s.tick.waiting.value.key == key {
      var w := s.tick.waiting.value;
      var see, busy :| Decide(w.seen, see, busy) == Decision(w.flags, None);
      DecisionRemembers(w.seen, see, busy);
    }
  }

  // A start is claimed only in the step that ends a recorded window.
  lemma StartEndsTheWindow(s: State, step: Step, key: Key)
    requires Inv(s) && CanStep(s, step) && ClaimsKind(s, step, key, Start)
    ensures Off(s, key) && !Off(Next(s, step), key)
  {
    var a := s.actions[key];
    var see, busy :| Decide(a.seen, see, busy) == Decision(a.flags, Some(a.kind));
    DecisionRemembers(a.seen, see, busy);
  }

  // A stop that works while the row records the window is remembered.
  lemma CompletedStopIsRecorded(s: State, key: Key)
    requires CanStep(s, Complete(key, true)) && s.actions[key].kind.Stop? && Off(s, key)
    ensures Off(Next(s, Complete(key, true)), key) && Next(s, Complete(key, true)).rows[key].stopped
  {
  }

  // ── Whole runs ────────────────────────────────────────────────────────────

  ghost predicate Possible(s: State, steps: seq<Step>)
    decreases |steps|
  {
    steps == [] || (CanStep(s, steps[0]) && Possible(Next(s, steps[0]), steps[1..]))
  }

  function Run(s: State, steps: seq<Step>): State
    requires Possible(s, steps)
    decreases |steps|
  {
    if steps == [] then s else Run(Next(s, steps[0]), steps[1..])
  }

  // Number of claims of the schedule along a run.
  function Count(s: State, steps: seq<Step>, key: Key, kind: Kind): nat
    requires Possible(s, steps)
    decreases |steps|
  {
    if steps == [] then 0
    else (if ClaimsKind(s, steps[0], key, kind) then 1 else 0) + Count(Next(s, steps[0]), steps[1..], key, kind)
  }

  // The row records the off-window all along the run.
  ghost predicate StaysOff(s: State, steps: seq<Step>, key: Key)
    requires Possible(s, steps)
    decreases |steps|
  {
    Off(s, key) && (steps == [] || StaysOff(Next(s, steps[0]), steps[1..], key))
  }

  // Number of windows that begin along a run.
  function Openings(s: State, steps: seq<Step>, key: Key): nat
    requires Possible(s, steps)
    decreases |steps|
  {
    if steps == [] then 0
    else (if !Off(s, key) && Off(Next(s, steps[0]), key) then 1 else 0) + Openings(Next(s, steps[0]), steps[1..], key)
  }

  lemma {:induction false} RunKeepsInv(s: State, steps: seq<Step>)
    requires Inv(s) && Possible(s, steps)
    ensures Inv(Run(s, steps))
    decreases |steps|
  {
    if steps != [] {
      StepKeepsInv(s, steps[0]);
      RunKeepsInv(Next(s, steps[0]), steps[1..]);
    }
  }

  // Once a stop has completed in a recorded window, that window sees no further
  // stop, whatever ticks, claims, completions and restarts follow.
  lemma {:induction false} NoSecondStop(s: State, steps: seq<Step>, key: Key)
    requires Inv(s) && Possible(s, steps) && StaysOff(s, steps, key) && s.rows[key].stopped
    ensures Count(s, steps, key, Stop) == 0
    decreases |steps|
  {
    if steps != [] {
      StoppedIsKept(s, steps[0], key);
      StepKeepsInv(s, steps[0]);
      assert Off(Next(s, steps[0]), key);
      NoSecondStop(Next(s, steps[0]), steps[1..], key);
    }
  }

  lemma NoStopAfterCompletion(s: State, key: Key, steps: seq<Step>)
    requires Inv(s) && CanStep(s, Complete(key, true)) && s.actions[key].kind.Stop? && Off(s, key)
    requires var s' := Next(s, Complete(key, true)); Possible(s', steps) && StaysOff(s', steps, key)
    ensures Count(Next(s, Complete(key, true)), steps, key, Stop) == 0
  {
    CompletedStopIsRecorded(s, key);
    StepKeepsInv(s, Complete(key, true));
    NoSecondStop(Next(s, Complete(key, true)), steps, key);
  }

  // Every window yields at most one start claim: along any run the starts,
  // plus the window still open at the end, are covered by the windows that
  // began, plus the one open at the beginning.
  lemma {:induction false} OneStartPerWindow(s: State, steps: seq<Step>, key: Key)
    requires Inv(s) && Possible(s, steps)
    ensures Count(s, steps, key, Start) + (if Off(Run(s, steps), key) then 1 else 0)
            <= Openings(s, steps, key) + (if Off(s, key) then 1 else 0)
    decreases |steps|
  {
    if steps != [] {
      StepKeepsInv(s, steps[0]);
      if ClaimsKind(s, steps[0], key, Start) { StartEndsTheWindow(s, steps[0], key); }
      OneStartPerWindow(Next(s, steps[0]), steps[1..], key);
    }
  }

  // At no time does a schedule have two actions, or the portal more of them
  // than the pool can carry.
  lemma InFlightIsBounded(rows: map<Key, Flags>, pool: nat, steps: seq<Step>)
    requires Possible(Begin(rows, pool), steps)
    ensures var s := Run(Begin(rows, pool), steps);
      && s.inFlight == s.actions.Keys
      && |s.inFlight| <= (if pool == 0 then 0 else pool - 1)
  {
    RunKeepsInv(Begin(rows, pool), steps);
    SizeKeepsPool(Begin(rows, pool), steps);
  }

  lemma {:induction false} SizeKeepsPool(s: State, steps: seq<Step>)
    requires Possible(s, steps)
    ensures Run(s, steps).pool == s.pool
    decreases |steps|
  {
    if steps != [] { SizeKeepsPool(Next(s, steps[0]), steps[1..]); }
  }

  // ── One VM under two names ────────────────────────────────────────────────

  lemma {:induction false} RunThen(s: State, steps: seq<Step>, step: Step)
    requires Possible(s, steps) && CanStep(Run(s, steps), step)
    ensures Possible(s, steps + [step]) && Run(s, steps + [step]) == Next(Run(s, steps), step)
    decreases |steps|
  {
    if steps == [] {
      assert (steps + [step])[1..] == [];
    } else {
      assert (steps + [step])[1..] == steps[1..] + [step];
      RunThen(Next(s, steps[0]), steps[1..], step);
    }
  }

  // The VM a schedule acts on.
  function VmOf(key: Key, home: (string, nat) -> nat): Vm { Denotes(key.node, key.vmid, home) }

  ghost predicate OnePerVm(s: State, home: (string, nat) -> nat) {
    forall a, b :: a in s.inFlight && b in s.inFlight && VmOf(a, home) == VmOf(b, home) ==> a == b
  }

  ghost predicate NoAliases(rows: map<Key, Flags>, home: (string, nat) -> nat) {
    forall a, b :: a in rows && b in rows && VmOf(a, home) == VmOf(b, home) ==> a == b
  }

  // Everything in memory is about known schedules.
  ghost predicate KnownKeys(s: State) {
    && s.actions.Keys <= s.rows.Keys
    && (s.tick.Sweep? ==> s.tick.seen.Keys <= s.rows.Keys && s.tick.todo <= s.rows.Keys)
  }

  lemma StepKnowsKeys(s: State, step: Step)
    requires s.inFlight == s.actions.Keys && KnownKeys(s) && CanStep(s, step)
    ensures KnownKeys(Next(s, step))
  {
    RowsStay(s, step);
  }

  lemma {:induction false} RunKnowsKeys(s: State, steps: seq<Step>)
    requires Inv(s) && KnownKeys(s) && Possible(s, steps)
    ensures Run(s, steps).rows.Keys == s.rows.Keys && Run(s, steps).inFlight <= s.rows.Keys
    decreases |steps|
  {
    if steps != [] {
      RowsStay(s, steps[0]);
      StepKeepsInv(s, steps[0]);
      StepKnowsKeys(s, steps[0]);
      RunKnowsKeys(Next(s, steps[0]), steps[1..]);
    }
  }

  lemma OneActionWithoutAliases(rows: map<Key, Flags>, pool: nat, home: (string, nat) -> nat, steps: seq<Step>)
    requires NoAliases(rows, home) || pool < 3
    requires Possible(Begin(rows, pool), steps)
    ensures OnePerVm(Run(Begin(rows, pool), steps), home)
  {
    var s := Run(Begin(rows, pool), steps);
    RunKnowsKeys(Begin(rows, pool), steps);
    InFlightIsBounded(rows, pool, steps);
    if pool < 3 {
      forall a, b | a in s.inFlight && b in s.inFlight ensures a == b {
        if a != b { PairSize(a, b, s.inFlight); }
      }
    }
  }

  lemma PairSize(a: Key, b: Key, keys: set<Key>)
    requires a in keys && b in keys && a != b
    ensures |keys| >= 2
  {
    assert keys == {a, b} + (keys - {a, b});
  }

  lemma Then(s0: State, steps: seq<Step>, s: State, step: Step) returns (steps': seq<Step>, s': State)
    requires Possible(s0, steps) && Run(s0, steps) == s && CanStep(s, step)
    ensures Possible(s0, steps') && Run(s0, steps') == s' && s' == Next(s, step)
  {
    RunThen(s0, steps, step);
    steps', s' := steps + [step], Next(s, step);
  }

  const DAY := Sight(false, Otherwise, false)
  const NIGHT := Sight(true, IsRunning, false)

  // A tick during the day leaves both rows outside the off-window.
  lemma DayTick(rows: map<Key, Flags>, pool: nat, a: Key, b: Key) returns (steps: seq<Step>, s: State)
    requires a in rows && b in rows && a != b
    ensures Possible(Begin(rows, pool), steps) && Run(Begin(rows, pool), steps) == s && s == Begin(s.rows, pool)
    ensures a in s.rows && b in s.rows && s.rows[a].lastOff == 0 && s.rows[b].lastOff == 0
  {
    var s0 := Begin(rows, pool);
    steps, s := [], s0;
    steps, s := Then(s0, steps, s, StartTick);
    steps, s := Then(s0, steps, s, Evaluate(a, DAY));
    steps, s := Then(s0, steps, s, WriteFlags(true));
    steps, s := Then(s0, steps, s, Evaluate(b, DAY));
    steps, s := Then(s0, steps, s, WriteFlags(true));
    steps, s := Then(s0, steps, s, Restart);
  }

  // Any two schedules can be stopped at the same time, if the pool has room.
  lemma TwoStopsAtOnce(rows: map<Key, Flags>, pool: nat, a: Key, b: Key) returns (steps: seq<Step>)
    requires a in rows && b in rows && a != b && pool >= 3
    ensures Possible(Begin(rows, pool), steps)
    ensures var s := Run(Begin(rows, pool), steps);
      a in s.inFlight && b in s.inFlight && a in s.actions && b in s.actions && s.actions[a] == s.actions[b] == Running(Stop)
  {
    var s0, s := Begin(rows, pool), Begin(rows, pool);
    steps, s := DayTick(rows, pool, a, b);
    steps, s := Then(s0, steps, s, StartTick);
    steps, s := Then(s0, steps, s, Evaluate(a, NIGHT));
    steps, s := Then(s0, steps, s, Evaluate(b, NIGHT));
    steps, s := Then(s0, steps, s, Claim(a, true));
    steps, s := Then(s0, steps, s, Claim(b, true));
  }

  // In every run each VM has at most one action in flight exactly if no VM is
  // scheduled under two names, or the pool has no room for two actions.
  lemma OneActionPerVmExactly(rows: map<Key, Flags>, pool: nat, home: (string, nat) -> nat)
    ensures (forall steps :: Possible(Begin(rows, pool), steps) ==> OnePerVm(Run(Begin(rows, pool), steps), home))
            <==> NoAliases(rows, home) || pool < 3
  {
    if NoAliases(rows, home) || pool < 3 {
      forall steps | Possible(Begin(rows, pool), steps) ensures OnePerVm(Run(Begin(rows, pool), steps), home) {
        OneActionWithoutAliases(rows, pool, home, steps);
      }
    } else {
      var a, b :| a in rows && b in rows && VmOf(a, home) == VmOf(b, home) && a != b;
      var steps := TwoStopsAtOnce(rows, pool, a, b);
      assert !OnePerVm(Run(Begin(rows, pool), steps), home);
    }
  }

  // The guards know schedules by node name and VMID, so a VM scheduled under
  // its qualified and its bare node name can be stopped twice at once.
  lemma AliasesActTogether(home: (string, nat) -> nat) returns (rows: map<Key, Flags>, steps: seq<Step>)
    requires home("pve", 100) == 1
    ensures Possible(Begin(rows, 3), steps)
    ensures var s := Run(Begin(rows, 3), steps);
      var qualified, bare := Key("1~pve", 100), Key("pve", 100);
      && VmOf(qualified, home) == VmOf(bare, home) == Vm(1, "pve", 100)
      && qualified in s.actions && bare in s.actions && s.actions[qualified] == s.actions[bare] == Running(Stop)
  {
    var qualified, bare := Key("1~pve", 100), Key("pve", 100);
    DecodedNames();
    var day := Flags(0, false, false);
    rows := map[qualified := day, bare := day];
    steps := TwoStopsAtOnce(rows, 3, qualified, bare);
  }
}
