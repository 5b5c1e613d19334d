// The sliding-window budget for credential confirmations. A per-user lock
// covers prune, count and insert; the prune removes old rows of every user, and
// a successful confirmation clears the user's rows without the lock. The clock
// is read before the lock is taken.
module AttemptBudget {

  type Key = nat
  type Instant = int

  const WINDOW := 10 * 60 * 1000
  const MAX := 6

  // How far a reservation got; count: attempts it found inside its window.
  // missed is history: admitted attempts inside its window, since the user's
  // last success, that prunes had taken from the table before the count.
  datatype Phase = Locked | Pruned | Counted(count: nat, missed: nat)

  // now: the clock value the reservation works with from start to end
  datatype Reservation = Reservation(now: Instant, phase: Phase)

  // rows: times of the stored attempts. The rest is history: attempts admitted
  // since the user's last success, those of them that prunes have removed, and
  // the latest clock a prune used.
  datatype State = State(rows: map<Key, seq<Instant>>, holders: map<Key, Reservation>,
                         admitted: map<Key, seq<Instant>>, removed: map<Key, seq<Instant>>, pruned: Instant)

  datatype Step =
    | Lock(key: Key, now: Instant)
    | Prune(key: Key)
    | Count(key: Key)
    | Insert(key: Key)
    | Clear(key: Key)
    | PruneBy(clock: Instant)

  function Start(clock: Instant): State { State(map[], map[], map[], map[], clock) }

  function At(m: map<Key, seq<Instant>>, key: Key): seq<Instant> { if key in m then m[key] else [] }

  // DELETE … WHERE attempted_at < bound
  function Kept(times: seq<Instant>, bound: Instant): seq<Instant> {
    if times == [] then [] else (if times[0] < bound then [] else [times[0]]) + Kept(times[1..], bound)
  }

  function Dropped(times: seq<Instant>, bound: Instant): (r: seq<Instant>)
    ensures forall t :: t in r ==> t < bound
  {
    if times == [] then [] else (if times[0] < bound then [times[0]] else []) + Dropped(times[1..], bound)
  }

  // count … WHERE attempted_at > bound
  function Above(times: seq<Instant>, bound: Instant): (n: nat)
    ensures n <= |times|
  {
    if times == [] then 0
    else (if times[|times| - 1] > bound then 1 else 0) + Above(times[..|times| - 1], bound)
  }

  function KeptRows(rows: map<Key, seq<Instant>>, bound: Instant): map<Key, seq<Instant>> {
    map k | k in rows :: Kept(rows[k], bound)
  }

  function WithDropped(removed: map<Key, seq<Instant>>, rows: map<Key, seq<Instant>>, bound: Instant): map<Key, seq<Instant>> {
    map k | k in rows.Keys + removed.Keys :: At(removed, k) + Dropped(At(rows, k), bound)
  }

  function PruneAll(s: State, clock: Instant): State {
    s.(rows := KeptRows(s.rows, clock - WINDOW), removed := WithDropped(s.removed, s.rows, clock - WINDOW),
       pruned := if clock > s.pruned then clock else s.pruned)
  }

  predicate CanStep(s: State, step: Step) {
    match step
    case Lock(key, _) => key !in s.holders
    case Prune(key) => key in s.holders && s.holders[key].phase.Locked?
    case Count(key) => key in s.holders && s.holders[key].phase.Pruned?
    case Insert(key) => key in s.holders && s.holders[key].phase.Counted?
    case _ => true
  }

  // The reservation is refused at the limit, otherwise its attempt is stored.
  predicate Admits(s: State, key: Key)
    requires CanStep(s, Insert(key))
  {
    s.holders[key].phase.count < MAX
  }

  // After a success nothing of the user's history is missing from the table.
  function Cleared(holders: map<Key, Reservation>, key: Key): map<Key, Reservation> {
    if key in holders && holders[key].phase.Counted?
    then holders[key := holders[key].(phase := Counted(holders[key].phase.count, 0))] else holders
  }

  function Next(s: State, step: Step): State
    requires CanStep(s, step)
  {
    match step
    case Lock(key, now) => s.(holders := s.holders[key := Reservation(now, Locked)])
    case Prune(key) =>
      PruneAll(s, s.holders[key].now).(holders := s.holders[key := s.holders[key].(phase := Pruned)])
    case Count(key) =>
      var r := s.holders[key];
      var bound := r.now - WINDOW;
      s.(holders := s.holders[key := r.(phase := Counted(Above(At(s.rows, key), bound), Above(At(s.removed, key), bound)))])
    case Insert(key) =>
      var now := s.holders[key].now;
      var s' := s.(holders := s.holders - {key});
      if Admits(s, key) then
        s'.(rows := s.rows[key := At(s.rows, key) + [now]], admitted := s.admitted[key := At(s.admitted, key) + [now]])
      else s'
    case Clear(key) =>
      s.(rows := s.rows - {key}, admitted := s.admitted[key := []], removed := s.removed[key := []],
         holders := Cleared(s.holders, key))
    case PruneBy(clock) => PruneAll(s, clock)
  }

  // ── Pruning and counting ──────────────────────────────────────────────────

  lemma {:induction false} AboveConcat(a: seq<Instant>, b: seq<Instant>, bound: Instant)
    ensures Above(a + b, bound) == Above(a, bound) + Above(b, bound)
  {
    if b == [] {
      assert a + b == a;
    } else {
      assert (a + b)[..|a + b| - 1] == a + b[..|b| - 1];
      AboveConcat(a, b[..|b| - 1], bound);
    }
  }

  // A prune is noticed by a count exactly if it removes a row the count's
  // window still contains.
  lemma {:induction false} PruneUnnoticed(times: seq<Instant>, bound: Instant, window: Instant)
    ensures Above(Kept(times, bound), window) <= Above(times, window)
    ensures Above(Kept(times, bound), window) == Above(times, window) <==>
            forall i :: 0 <= i < |times| ==> !(window < times[i] < bound)
  {
    if times != [] {
      PruneUnnoticed(times[1..], bound, window);
      assert times == [times[0]] + times[1..];
      AboveConcat([times[0]], times[1..], window);
      AboveConcat(if times[0] < bound then [] else [times[0]], Kept(times[1..], bound), window);
      assert forall i :: 0 <= i < |times| ==> times[i] == if i == 0 then times[0] else times[1..][i - 1];
      assert forall i :: 0 <= i < |times[1..]| ==> times[1..][i] == times[i + 1];
    }
  }

  lemma {:induction false} KeptAndDropped(times: seq<Instant>, bound: Instant, window: Instant)
    ensures Above(times, window) == Above(Kept(times, bound), window) + Above(Dropped(times, bound), window)
  {
    if times != [] {
      KeptAndDropped(times[1..], bound, window);
      assert times == [times[0]] + times[1..];
      AboveConcat([times[0]], times[1..], window);
      AboveConcat(if times[0] < bound then [] else [times[0]], Kept(times[1..], bound), window);
      AboveConcat(if times[0] < bound then [times[0]] else [], Dropped(times[1..], bound), window);
    }
  }

  // The prune shared by all users leaves every count alone whose clock is not
  // earlier than the prune's.
  lemma SharedPruneIsHarmless(s: State, clock: Instant, key: Key, now: Instant)
    requires clock <= now
    ensures Above(At(PruneAll(s, clock).rows, key), now - WINDOW) == Above(At(s.rows, key), now - WINDOW)
  {
    AtPruned(s, clock, key);
    PruneUnnoticed(At(s.rows, key), clock - WINDOW, now - WINDOW);
  }

  lemma {:induction false} NoneAbove(times: seq<Instant>, bound: Instant)
    requires forall t :: t in times ==> t <= bound
    ensures Above(times, bound) == 0
  {
    if times != [] {
      var before := times[..|times| - 1];
      forall t | t in before ensures t <= bound { assert t in times; }
      assert times[|times| - 1] in times;
      NoneAbove(before, bound);
    }
  }

  // The places of the rows that a count takes in.
  function Later(times: seq<Instant>, bound: Instant): set<nat> { set i: nat | i < |times| && times[i] > bound }

  lemma {:induction false} AboveIsHowMany(times: seq<Instant>, bound: Instant)
    ensures Above(times, bound) == |set i: nat | i < |times| && times[i] > bound|
  {
    if times != [] {
      var n := |times| - 1;
      var before := times[..n];
      AboveIsHowMany(before, bound);
      assert Later(times, bound) == Later(before, bound) + if times[n] > bound then {n} else {};
      assert Later(before, bound) == set i: nat | i < |before| && before[i] > bound;
      assert Later(times, bound) == set i: nat | i < |times| && times[i] > bound;
    }
  }

  // ── Invariant ─────────────────────────────────────────────────────────────

  // An admitted attempt is a row or was removed by a prune.
  ghost predicate Adds(admitted: seq<Instant>, rows: seq<Instant>, removed: seq<Instant>) {
    forall bound :: Above(admitted, bound) == Above(rows, bound) + Above(removed, bound)
  }

  ghost predicate Tallied(s: State, key: Key) { Adds(At(s.admitted, key), At(s.rows, key), At(s.removed, key)) }

  // What prunes removed was out of the window of the latest clock they used.
  ghost predicate RemovedOld(s: State, key: Key) {
    forall t :: t in At(s.removed, key) ==> t < s.pruned - WINDOW
  }

  // A count and what it missed are all the attempts inside the window, unless
  // the user succeeded since.
  ghost predicate CountOk(s: State, key: Key) {
    key in s.holders && s.holders[key].phase.Counted? ==>
      var r := s.holders[key];
      && (r.phase.missed > 0 ==> r.now < s.pruned)
      && (Above(At(s.admitted, key), r.now - WINDOW) == r.phase.count + r.phase.missed
          || (At(s.admitted, key) == [] && r.phase.missed == 0))
  }

  ghost predicate KeyOk(s: State, key: Key) { Tallied(s, key) && RemovedOld(s, key) && CountOk(s, key) }

  ghost predicate Inv(s: State) { forall key :: KeyOk(s, key) }

  lemma PruneAdds(admitted: seq<Instant>, rows: seq<Instant>, removed: seq<Instant>, limit: Instant)
    requires Adds(admitted, rows, removed)
    ensures Adds(admitted, Kept(rows, limit), removed + Dropped(rows, limit))
  {
    forall bound ensures Above(admitted, bound) == Above(Kept(rows, limit), bound) + Above(removed + Dropped(rows, limit), bound) {
      KeptAndDropped(rows, limit, bound);
      AboveConcat(removed, Dropped(rows, limit), bound);
    }
  }

  lemma InsertAdds(admitted: seq<Instant>, rows: seq<Instant>, removed: seq<Instant>, t: Instant)
    requires Adds(admitted, rows, removed)
    ensures Adds(admitted + [t], rows + [t], removed)
  {
    forall bound ensures Above(admitted + [t], bound) == Above(rows + [t], bound) + Above(removed, bound) {
      AboveConcat(admitted, [t], bound);
      AboveConcat(rows, [t], bound);
    }
  }

  lemma AtPruned(s: State, clock: Instant, key: Key)
    ensures var s' := PruneAll(s, clock);
      && At(s'.rows, key) == Kept(At(s.rows, key), clock - WINDOW)
      && At(s'.removed, key) == At(s.removed, key) + Dropped(At(s.rows, key), clock - WINDOW)
  {
  }

  lemma PruneKeepsTally(s: State, clock: Instant, key: Key)
    requires Tallied(s, key)
    ensures Tallied(PruneAll(s, clock), key)
  {
    AtPruned(s, clock, key);
    PruneAdds(At(s.admitted, key), At(s.rows, key), At(s.removed, key), clock - WINDOW);
  }

  lemma PruneRemovesOld(s: State, clock: Instant, key: Key)
    requires RemovedOld(s, key)
    ensures RemovedOld(PruneAll(s, clock), key)
  {
    AtPruned(s, clock, key);
  }

  lemma InsertKeepsTally(s: State, key: Key)
    requires Tallied(s, key) && CanStep(s, Insert(key))
    ensures Tallied(Next(s, Insert(key)), key)
  {
    InsertAdds(At(s.admitted, key), At(s.rows, key), At(s.removed, key), s.holders[key].now);
  }

  lemma CountIsComplete(s: State, key: Key)
    requires Tallied(s, key) && RemovedOld(s, key) && CanStep(s, Count(key))
    ensures CountOk(Next(s, Count(key)), key)
  {
    var now := s.holders[key].now;
    if s.pruned <= now { NoneAbove(At(s.removed, key), now - WINDOW); }
  }

  lemma StepKeepsTally(s: State, step: Step, key: Key)
    requires Tallied(s, key) && CanStep(s, step)
    ensures Tallied(Next(s, step), key)
  {
    match step
    case Prune(k) => PruneKeepsTally(s, s.holders[k].now, key);
    case PruneBy(clock) => PruneKeepsTally(s, clock, key);
    case Insert(k) => if k == key { InsertKeepsTally(s, key); }
    case _ =>
  }

  lemma StepRemovesOld(s: State, step: Step, key: Key)
    requires RemovedOld(s, key) && CanStep(s, step)
    ensures RemovedOld(Next(s, step), key)
  {
    match step
    case Prune(k) => PruneRemovesOld(s, s.holders[k].now, key);
    case PruneBy(clock) => PruneRemovesOld(s, clock, key);
    case Clear(k) => assert At(Next(s, step).removed, key) == if k == key then [] else At(s.removed, key);
    case _ => assert At(Next(s, step).removed, key) == At(s.removed, key);
  }

  lemma QuietKeepsCount(s: State, s': State, key: Key)
    requires CountOk(s, key) && At(s'.admitted, key) == At(s.admitted, key) && s'.pruned >= s.pruned
    requires key in s'.holders && s'.holders[key].phase.Counted? ==> key in s.holders && s'.holders[key] == s.holders[key]
    ensures CountOk(s', key)
  {
  }

  lemma StepKeepsCount(s: State, step: Step, key: Key)
    requires KeyOk(s, key) && CanStep(s, step)
    ensures CountOk(Next(s, step), key)
  {
    if step == Count(key) {
      CountIsComplete(s, key);
    } else if step == Clear(key) {
      assert At(Next(s, step).admitted, key) == [];
    } else if step != Insert(key) {
      QuietKeepsCount(s, Next(s, step), key);
    }
  }

  lemma StepKeepsInv(s: State, step: Step)
    requires Inv(s) && CanStep(s, step)
    ensures Inv(Next(s, step))
  {
    forall key ensures KeyOk(Next(s, step), key) {
      assert KeyOk(s, key);
      StepKeepsTally(s, step, key);
      StepRemovesOld(s, step, key);
      StepKeepsCount(s, step, key);
    }
  }

  // ── Windows ───────────────────────────────────────────────────────────────

  // Attempts inside [from, from + WINDOW).
  function InWindow(times: seq<Instant>, from: Instant): nat {
    if times == [] then 0
    else (if from <= times[|times| - 1] < from + WINDOW then 1 else 0) + InWindow(times[..|times| - 1], from)
  }

  ghost predicate WithinBudget(times: seq<Instant>) { forall from :: InWindow(times, from) <= MAX }

  // Each admission saw at most MAX attempts in the window that ends with it.
  predicate Budgeted(times: seq<Instant>) {
    times == [] ||
      (Budgeted(times[..|times| - 1]) && Above(times, times[|times| - 1] - WINDOW) <= MAX)
  }

  predicate Ascending(times: seq<Instant>) { forall i, j :: 0 <= i < j < |times| ==> times[i] <= times[j] }

  lemma {:induction false} WindowBelow(times: seq<Instant>, from: Instant, bound: Instant)
    requires bound < from
    ensures InWindow(times, from) <= Above(times, bound)
  {
    if times != [] { WindowBelow(times[..|times| - 1], from, bound); }
  }

  // In whatever order the clocks stand.
  lemma {:induction false} WindowIsBudgeted(times: seq<Instant>, from: Instant)
    requires Budgeted(times)
    ensures InWindow(times, from) <= MAX
  {
    if times != [] {
      var last := times[|times| - 1];
      if from <= last < from + WINDOW {
        WindowBelow(times, from, last - WINDOW);
      } else {
        WindowIsBudgeted(times[..|times| - 1], from);
      }
    }
  }

  // The window that ends with the latest attempt.
  lemma {:induction false} LatestWindow(times: seq<Instant>, last: Instant)
    requires forall t :: t in times ==> t <= last
    ensures InWindow(times, last - WINDOW + 1) == Above(times, last - WINDOW)
  {
    if times != [] {
      var before := times[..|times| - 1];
      forall t | t in before ensures t <= last { assert t in times; }
      assert times[|times| - 1] in times;
      LatestWindow(before, last);
    }
  }

  lemma WithinIsBudgeted(times: seq<Instant>)
    requires Ascending(times) && WithinBudget(times)
    ensures Budgeted(times)
  {
    if times != [] {
      var before, last := times[..|times| - 1], times[|times| - 1];
      forall from ensures InWindow(before, from) <= MAX { assert InWindow(before, from) <= InWindow(times, from); }
      WithinIsBudgeted(before);
      LatestWindow(times, last);
    }
  }

  // For clocks in order the two are the same.
  lemma BudgetedExactly(times: seq<Instant>)
    requires Ascending(times)
    ensures Budgeted(times) <==> WithinBudget(times)
  {
    if Budgeted(times) {
      forall from ensures InWindow(times, from) <= MAX { WindowIsBudgeted(times, from); }
    } else if WithinBudget(times) {
      WithinIsBudgeted(times);
    }
  }

  // ── Reservations that admit too many ──────────────────────────────────────

  // The reservation stays below the limit only because prunes ahead of its
  // clock had removed attempts that are still inside its window.
  predicate Overadmits(s: State, step: Step, key: Key)
    requires CanStep(s, step)
  {
    && step == Insert(key) && Admits(s, key)
    && s.holders[key].phase.count + s.holders[key].phase.missed >= MAX
  }

  // That is exactly when MAX attempts have been admitted inside the window.
  lemma OveradmitsExactly(s: State, key: Key)
    requires KeyOk(s, key) && CanStep(s, Insert(key))
    ensures Overadmits(s, Insert(key), key) <==>
            Admits(s, key) && Above(At(s.admitted, key), s.holders[key].now - WINDOW) >= MAX
    ensures Overadmits(s, Insert(key), key) ==> s.holders[key].now < s.pruned
  {
  }

  // An admission keeps the budget exactly if the reservation does not overadmit.
  lemma StepBudgetsExactly(s: State, step: Step, key: Key)
    requires KeyOk(s, key) && CanStep(s, step) && Budgeted(At(s.admitted, key))
    ensures Budgeted(At(Next(s, step).admitted, key)) <==> !Overadmits(s, step, key)
  {
    var before, after := At(s.admitted, key), At(Next(s, step).admitted, key);
    if step == Insert(key) && Admits(s, key) {
      OveradmitsExactly(s, key);
      OneMoreInBudget(before, s.holders[key].now);
      assert after == before + [s.holders[key].now];
    } else {
      assert after == before || after == [];
    }
  }

  lemma {:induction false} OneMoreInBudget(before: seq<Instant>, now: Instant)
    requires Budgeted(before)
    ensures Budgeted(before + [now]) <==> Above(before, now - WINDOW) < MAX
  {
    AboveConcat(before, [now], now - WINDOW);
    assert (before + [now])[..|before|] == before;
  }

  // ── The budget over whole runs ────────────────────────────────────────────

  ghost predicate Possible(s: State, steps: seq<Step>)
    decreases |steps|
  {
    steps == [] || (CanStep(s, steps[0]) && Possible(Next(s, steps[0]), steps[1..]))
  }

  function Run(s: State, steps: seq<Step>): State
    requires Possible(s, steps)
    decreases |steps|
  {
    if steps == [] then s else Run(Next(s, steps[0]), steps[1..])
  }

  ghost predicate NoneOveradmits(s: State, steps: seq<Step>, key: Key)
    requires Possible(s, steps)
    decreases |steps|
  {
    steps == [] || (!Overadmits(s, steps[0], key) && NoneOveradmits(Next(s, steps[0]), steps[1..], key))
  }

  lemma {:induction false} RunIsBudgeted(s: State, steps: seq<Step>, key: Key)
    requires Inv(s) && Budgeted(At(s.admitted, key)) && Possible(s, steps) && NoneOveradmits(s, steps, key)
    ensures Budgeted(At(Run(s, steps).admitted, key))
    decreases |steps|
  {
    if steps != [] {
      assert KeyOk(s, key);
      StepKeepsInv(s, steps[0]);
      StepBudgetsExactly(s, steps[0], key);
      RunIsBudgeted(Next(s, steps[0]), steps[1..], key);
    }
  }

  // Whatever reservations, prunes and confirmations of all users interleave and
  // whatever their clocks: at most MAX attempts of a user fall into any window
  // without a success in it, if no reservation of the user overadmits.
  lemma AtMostMaxPerWindow(clock: Instant, steps: seq<Step>, key: Key, from: Instant)
    requires Possible(Start(clock), steps) && NoneOveradmits(Start(clock), steps, key)
    ensures InWindow(At(Run(Start(clock), steps).admitted, key), from) <= MAX
  {
    RunIsBudgeted(Start(clock), steps, key);
    WindowIsBudgeted(At(Run(Start(clock), steps).admitted, key), from);
  }

  // From one holder of the user's lock to the next, clock values do not decrease.
  predicate LocksInOrder(s: State, step: Step, key: Key)
    requires CanStep(s, step)
  {
    step.Lock? && step.key == key ==> forall t :: t in At(s.admitted, key) ==> t <= step.now
  }

  ghost predicate Orderly(s: State, steps: seq<Step>, key: Key)
    requires Possible(s, steps)
    decreases |steps|
  {
    steps == [] || (LocksInOrder(s, steps[0], key) && Orderly(Next(s, steps[0]), steps[1..], key))
  }

  ghost predicate Ordered(s: State, key: Key) {
    && Ascending(At(s.admitted, key))
    && (key in s.holders ==> forall t :: t in At(s.admitted, key) ==> t <= s.holders[key].now)
  }

  lemma StepKeepsOrder(s: State, step: Step, key: Key)
    requires Ordered(s, key) && CanStep(s, step) && LocksInOrder(s, step, key)
    ensures Ordered(Next(s, step), key)
  {
    var before, after := At(s.admitted, key), At(Next(s, step).admitted, key);
    if step == Insert(key) && Admits(s, key) {
      assert forall i :: 0 <= i < |before| ==> before[i] in before;
      assert after == before + [s.holders[key].now];
    } else {
      assert after == before || after == [];
    }
  }

  ghost predicate AlwaysWithin(s: State, steps: seq<Step>, key: Key)
    requires Possible(s, steps)
    decreases |steps|
  {
    WithinBudget(At(s.admitted, key)) && (steps == [] || AlwaysWithin(Next(s, steps[0]), steps[1..], key))
  }

  lemma {:induction false} WithinExactly(s: State, steps: seq<Step>, key: Key)
    requires Inv(s) && Ordered(s, key) && WithinBudget(At(s.admitted, key))
    requires Possible(s, steps) && Orderly(s, steps, key)
    ensures AlwaysWithin(s, steps, key) <==> NoneOveradmits(s, steps, key)
    decreases |steps|
  {
    if steps != [] {
      var s' := Next(s, steps[0]);
      assert KeyOk(s, key);
      StepKeepsInv(s, steps[0]);
      StepKeepsOrder(s, steps[0], key);
      BudgetedExactly(At(s.admitted, key));
      BudgetedExactly(At(s'.admitted, key));
      StepBudgetsExactly(s, steps[0], key);
      if !Overadmits(s, steps[0], key) { WithinExactly(s', steps[1..], key); }
    }
  }

  // With the clocks of a user's reservations in the order of the lock, every
  // window stays within the budget all along a run exactly if no reservation of
  // the user overadmits.
  lemma BudgetHoldsExactly(clock: Instant, steps: seq<Step>, key: Key)
    requires Possible(Start(clock), steps) && Orderly(Start(clock), steps, key)
    ensures AlwaysWithin(Start(clock), steps, key) <==> NoneOveradmits(Start(clock), steps, key)
  {
    WithinExactly(Start(clock), steps, key);
  }

  // No prune, of whatever user, is ahead of the clock of a later count.
  predicate CountsInOrder(s: State, step: Step, key: Key)
    requires CanStep(s, step)
  {
    step == Count(key) ==> s.pruned <= s.holders[key].now
  }

  ghost predicate AllCountsInOrder(s: State, steps: seq<Step>, key: Key)
    requires Possible(s, steps)
    decreases |steps|
  {
    steps == [] || (CountsInOrder(s, steps[0], key) && AllCountsInOrder(Next(s, steps[0]), steps[1..], key))
  }

  predicate MissedNothing(s: State, key: Key) {
    key in s.holders && s.holders[key].phase.Counted? ==> s.holders[key].phase.missed == 0
  }

  lemma StepMissesNothing(s: State, step: Step, key: Key)
    requires KeyOk(s, key) && MissedNothing(s, key) && CanStep(s, step) && CountsInOrder(s, step, key)
    ensures MissedNothing(Next(s, step), key) && !Overadmits(s, step, key)
  {
    if step == Count(key) { NoneAbove(At(s.removed, key), s.holders[key].now - WINDOW); }
  }

  // Then nothing is missed and nobody overadmits.
  lemma {:induction false} OrderedCountsSuffice(s: State, steps: seq<Step>, key: Key)
    requires Inv(s) && MissedNothing(s, key) && Possible(s, steps) && AllCountsInOrder(s, steps, key)
    ensures NoneOveradmits(s, steps, key)
    decreases |steps|
  {
    if steps != [] {
      assert KeyOk(s, key);
      StepKeepsInv(s, steps[0]);
      StepMissesNothing(s, steps[0], key);
      OrderedCountsSuffice(Next(s, steps[0]), steps[1..], key);
    }
  }

  // ── Windows with both ends ────────────────────────────────────────────────

  // Attempts inside [from, from + WINDOW], and at one instant.
  function InClosed(times: seq<Instant>, from: Instant): nat {
    if times == [] then 0
    else (if from <= times[|times| - 1] <= from + WINDOW then 1 else 0) + InClosed(times[..|times| - 1], from)
  }

  function Occurrences(times: seq<Instant>, at: Instant): (n: nat)
    ensures n > 0 <==> at in times
  {
    if times == [] then 0
    else
      assert times == times[..|times| - 1] + [times[|times| - 1]];
      (if times[|times| - 1] == at then 1 else 0) + Occurrences(times[..|times| - 1], at)
  }

  lemma {:induction false} ClosedWindowParts(times: seq<Instant>, from: Instant)
    ensures InClosed(times, from) == InWindow(times, from) + Occurrences(times, from + WINDOW)
    ensures InClosed(times, from) == Occurrences(times, from) + InWindow(times, from + 1)
  {
    if times != [] { ClosedWindowParts(times[..|times| - 1], from); }
  }

  // Within the budget, a window that includes both ends holds more than MAX
  // only with attempts on both of them, and exactly if the ones on its last
  // instant are more than what is left by those before.
  lemma ClosedWindowExactly(times: seq<Instant>, from: Instant)
    requires WithinBudget(times)
    ensures InClosed(times, from) > MAX <==> Occurrences(times, from + WINDOW) > MAX - InWindow(times, from)
    ensures InClosed(times, from) > MAX ==> from in times && from + WINDOW in times
  {
    ClosedWindowParts(times, from);
    assert InWindow(times, from) <= MAX && InWindow(times, from + 1) <= MAX;
  }

  // ── Where the budget ends ─────────────────────────────────────────────────

  lemma {:induction false} RunThen(s: State, steps: seq<Step>, step: Step)
    requires Possible(s, steps) && CanStep(Run(s, steps), step)
    ensures Possible(s, steps + [step]) && Run(s, steps + [step]) == Next(Run(s, steps), step)
    decreases |steps|
  {
    if steps == [] {
      assert (steps + [step])[1..] == [];
    } else {
      assert (steps + [step])[1..] == steps[1..] + [step];
      RunThen(Next(s, steps[0]), steps[1..], step);
    }
  }

  lemma Then(steps: seq<Step>, s: State, step: Step) returns (steps': seq<Step>, s': State)
    requires Possible(Start(0), steps) && Run(Start(0), steps) == s && CanStep(s, step)
    ensures Possible(Start(0), steps') && Run(Start(0), steps') == s' && s' == Next(s, step)
  {
    RunThen(Start(0), steps, step);
    steps', s' := steps + [step], Next(s, step);
  }

  function Zeros(n: nat): seq<Instant> { seq(n, _ => 0) }

  lemma {:induction false} ZeroCounts(n: nat, bound: Instant)
    ensures Above(Zeros(n), bound) == if bound < 0 then n else 0
    ensures Kept(Zeros(n), -WINDOW) == Zeros(n)
  {
    if n > 0 {
      assert Zeros(n)[..n - 1] == Zeros(n - 1) && Zeros(n)[1..] == Zeros(n - 1);
      ZeroCounts(n - 1, bound);
      assert Zeros(n) == [0] + Zeros(n - 1);
    }
  }

  // A reservation whose statements nothing comes between.
  function Reserving(key: Key, now: Instant): seq<Step> { [Lock(key, now), Prune(key), Count(key), Insert(key)] }

  // The attempt goes in if the count after the prune allows it.
  function Reserved(s: State, key: Key, now: Instant): State {
    if Above(At(s.rows, key), now - WINDOW) < MAX
    then s.(rows := s.rows[key := At(s.rows, key) + [now]], admitted := s.admitted[key := At(s.admitted, key) + [now]])
    else s
  }

  lemma {:induction false} RunOn(s: State, steps: seq<Step>, more: seq<Step>)
    requires Possible(s, steps) && Possible(Run(s, steps), more)
    ensures Possible(s, steps + more) && Run(s, steps + more) == Run(Run(s, steps), more)
    decreases |steps|
  {
    if steps == [] {
      assert steps + more == more;
    } else {
      assert (steps + more)[1..] == steps[1..] + more;
      RunOn(Next(s, steps[0]), steps[1..], more);
    }
  }

  lemma TwoSteps(s: State, a: Step, b: Step)
    requires CanStep(s, a) && CanStep(Next(s, a), b)
    ensures Possible(s, [a, b]) && Run(s, [a, b]) == Next(Next(s, a), b)
  {
    RunThen(s, [], a);
    RunThen(s, [a], b);
    assert [a] + [b] == [a, b];
  }

  lemma ReservesIn(s: State, key: Key, now: Instant)
    requires key !in s.holders
    ensures Possible(s, Reserving(key, now))
    ensures Run(s, Reserving(key, now)) == Reserved(PruneAll(s, now), key, now)
  {
    var s2 := Next(Next(s, Lock(key, now)), Prune(key));
    TwoSteps(s, Lock(key, now), Prune(key));
    TwoSteps(s2, Count(key), Insert(key));
    RunOn(s, [Lock(key, now), Prune(key)], [Count(key), Insert(key)]);
    assert [Lock(key, now), Prune(key)] + [Count(key), Insert(key)] == Reserving(key, now);
    LastStep(s, key, now);
  }

  lemma LastStep(s: State, key: Key, now: Instant)
    requires key !in s.holders
    ensures var s2 := Next(Next(s, Lock(key, now)), Prune(key));
      Next(Next(s2, Count(key)), Insert(key)) == Reserved(PruneAll(s, now), key, now)
  {
    var s2 := Next(Next(s, Lock(key, now)), Prune(key));
    var h := s.holders[key := Reservation(now, Locked)][key := Reservation(now, Pruned)];
    assert s2 == PruneAll(s, now).(holders := h) && h - {key} == s.holders;
    CountThenInsert(s2, key, now);
    assert s2.(holders := h - {key}) == PruneAll(s, now);
  }

  lemma CountThenInsert(s: State, key: Key, now: Instant)
    requires key in s.holders && s.holders[key] == Reservation(now, Pruned)
    ensures Next(Next(s, Count(key)), Insert(key)) == Reserved(s.(holders := s.holders - {key}), key, now)
  {
    assert Next(s, Count(key)).holders - {key} == s.holders - {key};
  }

  // What a whole reservation leaves of the table.
  lemma ReservedRows(s: State, key: Key, now: Instant)
    ensures var s' := Reserved(PruneAll(s, now), key, now);
      var rows := s'.rows;
      var attempt := if Above(At(s.rows, key), now - WINDOW) < MAX then [now] else [];
      && At(rows, key) == Kept(At(s.rows, key), now - WINDOW) + attempt
      && At(s'.admitted, key) == At(s.admitted, key) + attempt
      && forall k :: k != key ==> At(rows, k) == Kept(At(s.rows, k), now - WINDOW)
  {
    SharedPruneIsHarmless(s, now, key, now);
    AtPruned(s, now, key);
    forall k ensures At(PruneAll(s, now).rows, k) == Kept(At(s.rows, k), now - WINDOW) { AtPruned(s, now, k); }
  }

  lemma Attempt(steps: seq<Step>, s: State, key: Key, now: Instant) returns (steps': seq<Step>, s': State)
    requires Possible(Start(0), steps) && Run(Start(0), steps) == s && key !in s.holders
    ensures Possible(Start(0), steps') && Run(Start(0), steps') == s' && s' == Reserved(PruneAll(s, now), key, now)
  {
    ReservesIn(s, key, now);
    RunOn(Start(0), steps, Reserving(key, now));
    steps', s' := steps + Reserving(key, now), Reserved(PruneAll(s, now), key, now);
  }

  lemma {:induction false} BurstGrows(s: State, n: nat)
    requires n < MAX && s.holders == map[] && s.pruned == 0 && At(s.rows, 0) == Zeros(n) && At(s.admitted, 0) == Zeros(n)
    ensures var s' := Reserved(PruneAll(s, 0), 0, 0);
      && s'.holders == map[] && s'.pruned == 0
      && At(s'.rows, 0) == Zeros(n + 1) && At(s'.admitted, 0) == Zeros(n + 1)
  {
    ZeroCounts(n, -WINDOW);
    ReservedRows(s, 0, 0);
    assert Zeros(n + 1) == Zeros(n) + [0];
  }

  // n attempts of user 0 at time 0.
  lemma {:induction false} Burst(n: nat) returns (steps: seq<Step>, s: State)
    requires n <= MAX
    ensures Possible(Start(0), steps) && Run(Start(0), steps) == s
    ensures s.holders == map[] && s.pruned == 0
    ensures At(s.rows, 0) == Zeros(n) && At(s.admitted, 0) == Zeros(n)
  {
    if n == 0 {
      steps, s := [], Start(0);
    } else {
      var before;
      steps, before := Burst(n - 1);
      BurstGrows(before, n - 1);
      steps, s := Attempt(steps, before, 0, 0);
    }
  }

  // Both ends of a window included, seven attempts fit: the count leaves out
  // the attempt exactly one window ago.
  lemma ClosedWindowHoldsSeven() returns (steps: seq<Step>)
    ensures Possible(Start(0), steps)
    ensures At(Run(Start(0), steps).admitted, 0) == Zeros(MAX) + [WINDOW]
  {
    var before, s;
    steps, before := Burst(MAX);
    ZeroCounts(MAX, 0);
    steps, s := Attempt(steps, before, 0, WINDOW);
    ReservedRows(before, 0, WINDOW);
    PruneUnnoticed(Zeros(MAX), 0, 0);
  }

  lemma {:induction false} ZerosExpire(n: nat)
    ensures Kept(Zeros(n), 1) == [] && InWindow(Zeros(n), 0) == n
  {
    if n > 0 {
      assert Zeros(n)[1..] == Zeros(n - 1) && Zeros(n)[..n - 1] == Zeros(n - 1);
      ZerosExpire(n - 1);
    }
  }

  lemma Overtaken() returns (steps: seq<Step>, s: State)
    ensures Possible(Start(0), steps) && Run(Start(0), steps) == s
    ensures At(s.rows, 0) == [] && At(s.admitted, 0) == Zeros(MAX) && 0 in s.holders && s.holders[0] == Reservation(WINDOW - 1, Locked)
  {
    steps, s := Burst(MAX);
    ZerosExpire(MAX);
    steps, s := Then(steps, s, Lock(0, WINDOW - 1));
    steps, s := Then(steps, s, PruneBy(WINDOW + 1));
  }

  // A reservation that is overtaken by a prune with a later clock counts too
  // little: seven attempts fall into one window.
  lemma OvertakenReservationEscapes() returns (steps: seq<Step>)
    ensures Possible(Start(0), steps)
    ensures InWindow(At(Run(Start(0), steps).admitted, 0), 0) == MAX + 1
  {
    var s;
    steps, s := Overtaken();
    ZerosExpire(MAX);
    steps, s := Then(steps, s, Prune(0));
    assert At(s.rows, 0) == [];
    steps, s := Then(steps, s, Count(0));
    steps, s := Then(steps, s, Insert(0));
    var times := At(s.admitted, 0);
    assert times == Zeros(MAX) + [WINDOW - 1] && times[..|times| - 1] == Zeros(MAX);
  }

  // ── The code ──────────────────────────────────────────────────────────────

  class AttemptTable {
    var rows: map<Key, seq<Instant>>
    ghost var holders: map<Key, Reservation>     // who holds a user's lock
    ghost var admitted: map<Key, seq<Instant>>
    ghost var removed: map<Key, seq<Instant>>
    ghost var pruned: Instant

    ghost function Now(): State
      reads this
    {
      State(rows, holders, admitted, removed, pruned)
    }

    constructor (clock: Instant)
      ensures Now() == Start(clock)
    {
      rows, holders, admitted, removed, pruned := map[], map[], map[], map[], clock;
    }

    // Removes old rows of every user. No count whose window begins at the bound
    // or later notices.
    method PruneOlder(clock: Instant)
      modifies this`rows, this`removed, this`pruned
      ensures Now() == Next(old(Now()), PruneBy(clock))
      ensures forall k :: At(rows, k) == Kept(At(old(rows), k), clock - WINDOW)
      ensures forall k, bound :: bound >= clock - WINDOW ==> Above(At(rows, k), bound) == Above(At(old(rows), k), bound)
    {
      ghost var after := PruneAll(Now(), clock);
      forall k, bound | bound >= clock - WINDOW ensures Above(At(after.rows, k), bound) == Above(At(rows, k), bound) {
        SharedPruneIsHarmless(Now(), clock, k, bound + WINDOW);
      }
      rows, removed, pruned := KeptRows(rows, clock - WINDOW), after.removed, after.pruned;
    }

    // The whole reservation: at the limit it is refused, and then and only then
    // nothing is stored.
    method ReserveConfirmationAttempt(key: Key, now: Instant) returns (ok: bool)
      requires key !in holders
      modifies this`rows, this`admitted, this`removed, this`pruned
      ensures Possible(old(Now()), Reserving(key, now)) && Now() == Run(old(Now()), Reserving(key, now))
      ensures ok <==> Above(At(old(rows), key), now - WINDOW) < MAX
      ensures var times := if key in old(rows) then old(rows)[key] else [];
        ok <==> |set i: nat | i < |times| && times[i] > now - WINDOW| < MAX
      ensures At(rows, key) == Kept(At(old(rows), key), now - WINDOW) + if ok then [now] else []
      ensures At(admitted, key) == At(old(admitted), key) + if ok then [now] else []
      ensures forall k :: k != key ==> At(rows, k) == Kept(At(old(rows), k), now - WINDOW)
    {
      AboveIsHowMany(At(rows, key), now - WINDOW);
      ReservesIn(Now(), key, now);
      ReservedRows(Now(), key, now);
      PruneOlder(now);
      ok := InsertBelowLimit(key, now);
    }

    method InsertBelowLimit(key: Key, now: Instant) returns (ok: bool)
      modifies this`rows, this`admitted
      ensures ok <==> Above(At(old(rows), key), now - WINDOW) < MAX
      ensures Now() == Reserved(old(Now()), key, now)
    {
      var times := if key in rows then rows[key] else [];
      var c := CountAbove(times, now - WINDOW);
      if c >= MAX { return false; }
      rows := rows[key := times + [now]];
      admitted := admitted[key := At(admitted, key) + [now]];
      ok := true;
    }

    static method CountAbove(times: seq<Instant>, bound: Instant) returns (n: nat)
      ensures n == Above(times, bound) == |set i: nat | i < |times| && times[i] > bound|
    {
      n := 0;
      var i := 0;
      while i < |times|
        invariant i <= |times|
        invariant n == Above(times[..i], bound)
      {
        if times[i] > bound { n := n + 1; }
        assert times[..i + 1][..i] == times[..i];
        i := i + 1;
      }
      assert times[..i] == times;
      AboveIsHowMany(times, bound);
    }

    method ClearAttempts(key: Key)
      modifies this
      ensures Now() == Next(old(Now()), Clear(key))
      ensures At(rows, key) == [] && forall k :: k != key ==> At(rows, k) == At(old(rows), k)
    {
      rows := rows - {key};
      admitted, removed, holders := admitted[key := []], removed[key := []], Cleared(holders, key);
    }
  }
}
