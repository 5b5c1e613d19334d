// Electricity contracts: half-open validity intervals with an optional open
// end. Creating, ending and superseding hold one advisory lock; finalizing a
// month holds another; deactivating holds none.
module Contracts {
  import opened Options

  type ContractId = nat
  type Instant = int

  // 9999-12-31T00:00:00Z in milliseconds, which stands in for an open end when
  // a new contract looks for overlaps.
  const FAR: Instant := 253402214400000

  // [from, to), or from on
  datatype Span = Span(from: Instant, to: Option<Instant>)

  datatype Contract = Contract(span: Span, active: bool, successor: Option<ContractId>)

  // A finalized month: its period and the contracts it was calculated from,
  // with the intervals they had then.
  datatype Statement = Statement(start: Instant, end: Instant, used: map<ContractId, Span>)

  datatype Holder =
    | Inserting(span: Span, active: bool, checked: bool)
    | Ending(id: ContractId, at: Instant, checked: bool)
    | Superseding(id: ContractId, at: Instant, until: Option<Instant>, endChecked: bool, checked: bool)

  // finalizing: a month's contracts have been read, its statement not yet stored
  datatype State = State(contracts: map<ContractId, Contract>, statements: set<Statement>,
                         holder: Option<Holder>, finalizing: Option<Statement>)

  datatype Step =
    | BeginInsert(span: Span, active: bool)
    | BeginEnd(id: ContractId, at: Instant)
    | BeginSupersede(id: ContractId, at: Instant, until: Option<Instant>)
    | CheckStatements
    | CheckOverlap
    | Commit(newId: ContractId)
    | RollBack
    | Deactivate(id: ContractId)
    | ReadMonth(start: Instant, end: Instant, ids: set<ContractId>)
    | StoreStatement

  const EMPTY := State(map[], {}, None, None)

  // ── Intervals ─────────────────────────────────────────────────────────────

  predicate Covers(s: Span, t: Instant) { s.from <= t && (s.to.Some? ==> t < s.to.value) }

  predicate Sane(s: Span) { s.to.Some? ==> s.from < s.to.value }

  predicate Overlap(a: Span, b: Span) {
    (a.to.Some? ==> b.from < a.to.value) && (b.to.Some? ==> a.from < b.to.value)
  }

  // Intervals overlap exactly when they have an instant in common.
  lemma OverlapMeansCommonInstant(a: Span, b: Span)
    requires Sane(a) && Sane(b)
    ensures Overlap(a, b) <==> exists t :: Covers(a, t) && Covers(b, t)
  {
    var t := if a.from < b.from then b.from else a.from;
    assert Overlap(a, b) ==> Covers(a, t) && Covers(b, t);
  }

  // The query's condition on an active row, for a new interval.
  predicate Found(row: Span, s: Span) {
    row.from < (if s.to.Some? then s.to.value else FAR) && (row.to.Some? ==> s.from < row.to.value)
  }

  function Clashing(contracts: map<ContractId, Contract>, s: Span): set<ContractId> {
    set id | id in contracts && contracts[id].active && Found(contracts[id].span, s)
  }

  // A new interval meets an active one exactly if they have an instant in
  // common and, for an open end, the active one begins before the stand-in.
  lemma FoundExactly(row: Span, s: Span)
    requires Sane(row) && Sane(s)
    ensures Found(row, s) <==> (exists t :: Covers(row, t) && Covers(s, t)) && (s.to.None? ==> row.from < FAR)
  {
    OverlapMeansCommonInstant(row, s);
  }

  function Cut(c: Contract, at: Instant): Contract { c.(span := Span(c.span.from, Some(at))) }

  // The end must lie inside the contract.
  predicate EndsInside(s: Span, at: Instant) { s.from < at && (s.to.Some? ==> at < s.to.value) }

  // The query's condition on a statement, for a new end.
  predicate Cuts(s: Span, at: Instant, st: Statement) {
    at < st.end && (s.to.Some? ==> st.start < s.to.value)
  }

  predicate Uses(st: Statement, id: ContractId) { id in st.used }

  predicate FinalizedCut(statements: set<Statement>, id: ContractId, s: Span, at: Instant) {
    exists st :: st in statements && Uses(st, id) && Cuts(s, at, st)
  }

  // Coverage of a period by two intervals.
  ghost predicate SameIn(a: Span, b: Span, st: Statement) {
    forall t :: st.start <= t < st.end ==> (Covers(a, t) <==> Covers(b, t))
  }

  // Ending is refused for a statement exactly when it would change which of its
  // instants the contract covers.
  lemma CutsExactly(s: Span, at: Instant, st: Statement)
    requires Sane(s) && EndsInside(s, at) && st.start < st.end
    ensures Cuts(s, at, st) <==> !SameIn(s, Span(s.from, Some(at)), st)
  {
    if Cuts(s, at, st) {
      var t := if at < st.start then st.start else at;
      assert st.start <= t < st.end && Covers(s, t) && !Covers(Span(s.from, Some(at)), t);
    }
  }

  // ── Steps ─────────────────────────────────────────────────────────────────

  // The contract an ending transaction holds FOR UPDATE.
  predicate RowLocked(s: State, id: ContractId) {
    s.holder.Some? && !s.holder.value.Inserting? && s.holder.value.id == id
  }

  predicate MayEnd(s: State, id: ContractId, at: Instant) {
    id in s.contracts && s.contracts[id].active && EndsInside(s.contracts[id].span, at)
  }

  predicate CanStep(s: State, step: Step) {
    match step
    case BeginInsert(span, _) => s.holder.None? && Sane(span)
    case BeginEnd(id, at) => s.holder.None? && MayEnd(s, id, at)
    case BeginSupersede(id, at, end) => s.holder.None? && MayEnd(s, id, at) && Sane(Span(at, end))
    case CheckStatements =>
      s.holder.Some? &&
      (match s.holder.value
       case Ending(_, _, checked) => !checked
       case Superseding(_, _, _, endChecked, _) => !endChecked
       case Inserting(_, _, _) => false)
    case CheckOverlap =>
      s.holder.Some? &&
      (match s.holder.value
       case Inserting(_, _, checked) => !checked
       case Superseding(_, _, _, endChecked, checked) => endChecked && !checked
       case Ending(_, _, _) => false)
    case Commit(newId) =>
      s.holder.Some? && s.holder.value.checked && (s.holder.value.Ending? || newId !in s.contracts)
    case RollBack => s.holder.Some?
    case Deactivate(id) => id in s.contracts && s.contracts[id].active && !RowLocked(s, id)
    case ReadMonth(start, end, ids) => s.finalizing.None? && start < end && ids <= s.contracts.Keys
    case StoreStatement => s.finalizing.Some?
  }

  function CheckedStatements(s: State): State
    requires s.holder.Some?
  {
    match s.holder.value
    case Ending(id, at, _) =>
      if id in s.contracts && FinalizedCut(s.statements, id, s.contracts[id].span, at) then s.(holder := None)
      else s.(holder := Some(Ending(id, at, true)))
    case Superseding(id, at, end, _, checked) =>
      if id in s.contracts && FinalizedCut(s.statements, id, s.contracts[id].span, at) then s.(holder := None)
      else s.(holder := Some(Superseding(id, at, end, true, checked)))
    case Inserting(_, _, _) => s
  }

  // The successor's check sees the predecessor already cut.
  function CheckedOverlap(s: State): State
    requires s.holder.Some?
  {
    match s.holder.value
    case Inserting(span, active, _) =>
      if active && Clashing(s.contracts, span) != {} then s.(holder := None)
      else s.(holder := Some(Inserting(span, active, true)))
    case Superseding(id, at, end, endChecked, _) =>
      if id in s.contracts && Clashing(s.contracts[id := Cut(s.contracts[id], at)], Span(at, end)) != {} then s.(holder := None)
      else s.(holder := Some(Superseding(id, at, end, endChecked, true)))
    case Ending(_, _, _) => s
  }

  function Committed(s: State, newId: ContractId): State
    requires s.holder.Some?
  {
    match s.holder.value
    case Inserting(span, active, _) =>
      s.(contracts := s.contracts[newId := Contract(span, active, None)], holder := None)
    case Ending(id, at, _) =>
      if id !in s.contracts then s else s.(contracts := s.contracts[id := Cut(s.contracts[id], at)], holder := None)
    case Superseding(id, at, end, _, _) =>
      if id !in s.contracts then s else
      s.(contracts := s.contracts[id := Cut(s.contracts[id], at).(successor := Some(newId))]
                                 [newId := Contract(Span(at, end), true, None)],
         holder := None)
  }

  function Next(s: State, step: Step): State
    requires CanStep(s, step)
  {
    match step
    case BeginInsert(span, active) => s.(holder := Some(Inserting(span, active, false)))
    case BeginEnd(id, at) => s.(holder := Some(Ending(id, at, false)))
    case BeginSupersede(id, at, end) => s.(holder := Some(Superseding(id, at, end, false, false)))
    case CheckStatements => CheckedStatements(s)
    case CheckOverlap => CheckedOverlap(s)
    case Commit(newId) => Committed(s, newId)
    case RollBack => s.(holder := None)
    case Deactivate(id) => s.(contracts := s.contracts[id := s.contracts[id].(active := false)])
    case ReadMonth(start, end, ids) =>
      s.(finalizing := Some(Statement(start, end, map id | id in ids :: s.contracts[id].span)))
    case StoreStatement => s.(statements := s.statements + {s.finalizing.value}, finalizing := None)
  }

  // ── Active contracts are disjoint ─────────────────────────────────────────

  ghost predicate Disjoint(contracts: map<ContractId, Contract>) {
    forall a, b :: a in contracts && b in contracts && a != b && contracts[a].active && contracts[b].active
      ==> !Overlap(contracts[a].span, contracts[b].span)
  }

  ghost predicate AllSane(contracts: map<ContractId, Contract>) {
    forall id :: id in contracts ==> Sane(contracts[id].span)
  }

  // An active contract that starts so late that an open-ended one misses it.
  predicate Missed(contracts: map<ContractId, Contract>, s: Span) {
    s.to.None? && exists id :: id in contracts && contracts[id].active && contracts[id].span.from >= FAR
                               && (contracts[id].span.to.Some? ==> s.from < contracts[id].span.to.value)
  }

  // Once the check has found nothing, inserting keeps active contracts disjoint
  // exactly when it missed nothing.
  lemma InsertKeepsDisjointExactly(contracts: map<ContractId, Contract>, s: Span, newId: ContractId)
    requires Disjoint(contracts) && newId !in contracts && Clashing(contracts, s) == {}
    ensures Disjoint(contracts[newId := Contract(s, true, None)]) <==> !Missed(contracts, s)
  {
    var contracts' := contracts[newId := Contract(s, true, None)];
    forall id | id in contracts && contracts[id].active ensures !Found(contracts[id].span, s) {
      assert id !in Clashing(contracts, s);
    }
    if Missed(contracts, s) {
      var id :| id in contracts && contracts[id].active && contracts[id].span.from >= FAR
                && (contracts[id].span.to.Some? ==> s.from < contracts[id].span.to.value);
      assert Overlap(contracts'[id].span, contracts'[newId].span);
    }
  }

  lemma CutKeepsDisjoint(contracts: map<ContractId, Contract>, id: ContractId, c: Contract)
    requires Disjoint(contracts) && id in contracts
    requires c.active ==> contracts[id].active
    requires c.span.from == contracts[id].span.from
    requires c.span == contracts[id].span || (c.span.to.Some? && (contracts[id].span.to.Some? ==> c.span.to.value <= contracts[id].span.to.value))
    ensures Disjoint(contracts[id := c])
  {
  }

  // ── What every step keeps ─────────────────────────────────────────────────

  ghost predicate HolderSane(s: State) {
    s.holder.Some? ==>
      match s.holder.value
      case Inserting(span, _, _) => Sane(span)
      case Ending(id, at, _) => MayEnd(s, id, at)
      case Superseding(id, at, until, _, _) => MayEnd(s, id, at) && Sane(Span(at, until))
  }

  ghost predicate Sound(s: State) {
    && AllSane(s.contracts) && HolderSane(s)
    && (forall st :: st in s.statements || Some(st) == s.finalizing ==> st.start < st.end)
  }

  lemma StepKeepsSound(s: State, step: Step)
    requires Sound(s) && CanStep(s, step)
    ensures Sound(Next(s, step))
  {
  }

  // ── Disjointness ──────────────────────────────────────────────────────────

  // What a transaction's overlap check has found stays true.
  ghost predicate HolderClear(s: State) {
    s.holder.Some? ==>
      match s.holder.value
      case Inserting(span, active, checked) => checked && active ==> Clashing(s.contracts, span) == {}
      case Ending(_, _, _) => true
      case Superseding(id, at, until, _, checked) =>
        checked && id in s.contracts ==> Clashing(s.contracts[id := Cut(s.contracts[id], at)], Span(at, until)) == {}
  }

  // A commit of an active contract whose check could not see a late start.
  predicate Misses(s: State, step: Step)
    requires CanStep(s, step)
  {
    step.Commit? &&
      match s.holder.value
      case Inserting(span, active, _) => active && Missed(s.contracts, span)
      case Ending(_, _, _) => false
      case Superseding(id, at, until, _, _) =>
        id in s.contracts && Missed(s.contracts[id := Cut(s.contracts[id], at)], Span(at, until))
  }

  lemma SupersedeKeepsDisjointExactly(contracts: map<ContractId, Contract>, id: ContractId, at: Instant,
                                      until: Option<Instant>, newId: ContractId)
    requires Disjoint(contracts) && id in contracts && newId !in contracts && EndsInside(contracts[id].span, at)
    requires Clashing(contracts[id := Cut(contracts[id], at)], Span(at, until)) == {}
    ensures var linked := contracts[id := Cut(contracts[id], at).(successor := Some(newId))];
      Disjoint(linked[newId := Contract(Span(at, until), true, None)]) <==>
      !Missed(contracts[id := Cut(contracts[id], at)], Span(at, until))
  {
    var cut, c := contracts[id := Cut(contracts[id], at)], Cut(contracts[id], at).(successor := Some(newId));
    var linked := contracts[id := c];
    CutKeepsDisjoint(contracts, id, c);
    assert Clashing(linked, Span(at, until)) == Clashing(cut, Span(at, until));
    forall x | x in contracts ensures x in linked && linked[x].span == cut[x].span && linked[x].active == cut[x].active {
    }
    assert Missed(linked, Span(at, until)) <==> Missed(cut, Span(at, until));
    InsertKeepsDisjointExactly(linked, Span(at, until), newId);
  }

  lemma DeactivateKeepsClear(s: State, id: ContractId)
    requires HolderClear(s) && HolderSane(s) && CanStep(s, Deactivate(id))
    ensures HolderClear(Next(s, Deactivate(id)))
  {
    var c := s.contracts[id].(active := false);
    if s.holder.Some? {
      match s.holder.value
      case Inserting(span, _, _) => assert Clashing(s.contracts[id := c], span) <= Clashing(s.contracts, span);
      case Superseding(x, at, until, _, _) =>
        var cut, cut' := s.contracts[x := Cut(s.contracts[x], at)], s.contracts[id := c][x := Cut(s.contracts[x], at)];
        assert Clashing(cut', Span(at, until)) <= Clashing(cut, Span(at, until));
      case Ending(_, _, _) =>
    }
  }

  // Each step keeps active contracts disjoint exactly if it does not commit a
  // contract that missed another one.
  lemma StepKeepsDisjointExactly(s: State, step: Step)
    requires Sound(s) && Disjoint(s.contracts) && HolderClear(s) && CanStep(s, step)
    ensures HolderClear(Next(s, step))
    ensures Disjoint(Next(s, step).contracts) <==> !Misses(s, step)
  {
    match step
    case Commit(newId) => CommitKeepsDisjointExactly(s, newId);
    case Deactivate(id) =>
      DeactivateKeepsClear(s, id);
      CutKeepsDisjoint(s.contracts, id, s.contracts[id].(active := false));
    case _ =>
  }

  lemma CommitKeepsDisjointExactly(s: State, newId: ContractId)
    requires Sound(s) && Disjoint(s.contracts) && HolderClear(s) && CanStep(s, Commit(newId))
    ensures Disjoint(Next(s, Commit(newId)).contracts) <==> !Misses(s, Commit(newId))
  {
    match s.holder.value
    case Inserting(span, active, _) => if active { InsertKeepsDisjointExactly(s.contracts, span, newId); }
    case Ending(id, at, _) => CutKeepsDisjoint(s.contracts, id, Cut(s.contracts[id], at));
    case Superseding(id, at, until, _, _) => SupersedeKeepsDisjointExactly(s.contracts, id, at, until, newId);
  }

  // ── Finalized coverage ────────────────────────────────────────────────────

  // The contracts of a finalized period cover what they covered in it.
  ghost predicate Kept(contracts: map<ContractId, Contract>, st: Statement) {
    forall id :: Uses(st, id) ==> id in contracts && SameIn(contracts[id].span, st.used[id], st)
  }

  // So it is for every stored statement and for the month being finalized.
  ghost predicate CoverageKept(s: State) {
    && (forall st :: st in s.statements ==> Kept(s.contracts, st))
    && (s.finalizing.Some? ==> Kept(s.contracts, s.finalizing.value))
  }

  // The end a transaction is about to write.
  predicate Ends(h: Holder, id: ContractId, at: Instant) { !h.Inserting? && h.id == id && h.at == at }

  // A commit that would be refused if its check for finalized months were made
  // again now, over the stored statements and the month being finalized.
  ghost predicate Overtaken(s: State, step: Step)
    requires CanStep(s, step)
  {
    step.Commit? && !s.holder.value.Inserting? && s.holder.value.id in s.contracts
    && exists st :: (st in s.statements || Some(st) == s.finalizing)
                    && Uses(st, s.holder.value.id) && Cuts(s.contracts[s.holder.value.id].span, s.holder.value.at, st)
  }

  // Cutting a contract keeps a statement's coverage exactly if it does not cut
  // a period it was used for.
  lemma CutKeepsExactly(contracts: map<ContractId, Contract>, id: ContractId, c: Contract, at: Instant, st: Statement)
    requires AllSane(contracts) && Kept(contracts, st) && st.start < st.end && id in contracts
    requires EndsInside(contracts[id].span, at) && c.span == Span(contracts[id].span.from, Some(at))
    ensures Kept(contracts[id := c], st) <==> !(Uses(st, id) && Cuts(contracts[id].span, at, st))
  {
    if Uses(st, id) {
      var prior := contracts[id].span;
      CutsExactly(prior, at, st);
      if SameIn(prior, c.span, st) {
        assert SameIn(c.span, st.used[id], st);
      } else {
        var t :| st.start <= t < st.end && Covers(prior, t) != Covers(c.span, t);
        assert Covers(prior, t) == Covers(st.used[id], t);
        assert !SameIn(contracts[id := c][id].span, st.used[id], st);
      }
    }
  }

  lemma AddKeeps(contracts: map<ContractId, Contract>, id: ContractId, c: Contract, st: Statement)
    requires id !in contracts && forall x :: Uses(st, x) ==> x in contracts
    ensures Kept(contracts[id := c], st) <==> Kept(contracts, st)
  {
    forall x | Uses(st, x) ensures contracts[id := c][x] == contracts[x] {
    }
  }

  // The contracts after a commit, by the statement's lights.
  lemma CommitKeepsExactly(s: State, newId: ContractId, st: Statement)
    requires Sound(s) && CanStep(s, Commit(newId)) && Kept(s.contracts, st) && st.start < st.end
    ensures var h := s.holder.value;
      Kept(Next(s, Commit(newId)).contracts, st) <==>
      h.Inserting? || !(Uses(st, h.id) && Cuts(s.contracts[h.id].span, h.at, st))
  {
    match s.holder.value
    case Inserting(span, active, _) => AddKeeps(s.contracts, newId, Contract(span, active, None), st);
    case Ending(id, at, _) => CutKeepsExactly(s.contracts, id, Cut(s.contracts[id], at), at, st);
    case Superseding(id, at, until, _, _) =>
      var c := Cut(s.contracts[id], at).(successor := Some(newId));
      CutKeepsExactly(s.contracts, id, c, at, st);
      AddKeeps(s.contracts[id := c], newId, Contract(Span(at, until), true, None), st);
  }

  lemma StepKeepsCoverageExactly(s: State, step: Step)
    requires Sound(s) && CoverageKept(s) && CanStep(s, step)
    ensures CoverageKept(Next(s, step)) <==> !Overtaken(s, step)
  {
    if step.Commit? {
      forall st | st in s.statements || Some(st) == s.finalizing
        ensures var h := s.holder.value;
          Kept(Next(s, step).contracts, st) <==> h.Inserting? || !(Uses(st, h.id) && Cuts(s.contracts[h.id].span, h.at, st))
      {
        CommitKeepsExactly(s, step.newId, st);
      }
    }
  }

  // An end or supersession that has passed its checks and a month that has been
  // read: storing both, in either order, breaks the month's coverage exactly if
  // the end lies inside a period that the contract was used for.
  lemma RaceBreaksCoverageExactly(s: State, newId: ContractId, monthFirst: bool)
    requires Sound(s) && CanStep(s, Commit(newId)) && !s.holder.value.Inserting?
    requires s.finalizing.Some? && Kept(s.contracts, s.finalizing.value)
    ensures var h, st := s.holder.value, s.finalizing.value;
      var s' := if monthFirst then Next(Next(s, StoreStatement), Commit(newId)) else Next(Next(s, Commit(newId)), StoreStatement);
      && st in s'.statements
      && (Kept(s'.contracts, st) <==> !(Uses(st, h.id) && Cuts(s.contracts[h.id].span, h.at, st)))
  {
    CommitKeepsExactly(s, newId, s.finalizing.value);
  }

  // ── Whole runs ────────────────────────────────────────────────────────────

  ghost predicate Possible(s: State, steps: seq<Step>)
    decreases |steps|
  {
    steps == [] || (CanStep(s, steps[0]) && Possible(Next(s, steps[0]), steps[1..]))
  }

  function Run(s: State, steps: seq<Step>): State
    requires Possible(s, steps)
    decreases |steps|
  {
    if steps == [] then s else Run(Next(s, steps[0]), steps[1..])
  }

  // Active contracts are disjoint in every state of the run.
  ghost predicate AlwaysDisjoint(s: State, steps: seq<Step>)
    requires Possible(s, steps)
    decreases |steps|
  {
    Disjoint(s.contracts) && (steps == [] || AlwaysDisjoint(Next(s, steps[0]), steps[1..]))
  }

  ghost predicate NoneMissed(s: State, steps: seq<Step>)
    requires Possible(s, steps)
    decreases |steps|
  {
    steps == [] || (!Misses(s, steps[0]) && NoneMissed(Next(s, steps[0]), steps[1..]))
  }

  lemma {:induction false} DisjointExactly(s: State, steps: seq<Step>)
    requires Sound(s) && Disjoint(s.contracts) && HolderClear(s) && Possible(s, steps)
    ensures AlwaysDisjoint(s, steps) <==> NoneMissed(s, steps)
    decreases |steps|
  {
    if steps != [] {
      StepKeepsSound(s, steps[0]);
      StepKeepsDisjointExactly(s, steps[0]);
      if !Misses(s, steps[0]) { DisjointExactly(Next(s, steps[0]), steps[1..]); }
    }
  }

  lemma {:induction false} EndsDisjoint(s: State, steps: seq<Step>)
    requires Sound(s) && Disjoint(s.contracts) && HolderClear(s) && Possible(s, steps) && NoneMissed(s, steps)
    ensures Disjoint(Run(s, steps).contracts) && Sound(Run(s, steps))
    decreases |steps|
  {
    if steps != [] {
      StepKeepsSound(s, steps[0]);
      StepKeepsDisjointExactly(s, steps[0]);
      EndsDisjoint(Next(s, steps[0]), steps[1..]);
    }
  }

  // At no instant are two active contracts in force, in any run in which no
  // open-ended contract is committed over one that starts too late to be seen.
  lemma OneContractAtATime(steps: seq<Step>, a: ContractId, b: ContractId, t: Instant)
    requires Possible(EMPTY, steps) && NoneMissed(EMPTY, steps)
    requires var cs := Run(EMPTY, steps).contracts;
      a in cs && b in cs && cs[a].active && cs[b].active && Covers(cs[a].span, t) && Covers(cs[b].span, t)
    ensures a == b
  {
    EndsDisjoint(EMPTY, steps);
    var cs := Run(EMPTY, steps).contracts;
    OverlapMeansCommonInstant(cs[a].span, cs[b].span);
  }

  // New contracts start before the year 9999 is over.
  predicate StartsSoon(step: Step) {
    match step
    case BeginInsert(span, _) => span.from < FAR
    case BeginSupersede(_, at, _) => at < FAR
    case _ => true
  }

  ghost predicate AllStartSoon(s: State) {
    && (forall id :: id in s.contracts ==> s.contracts[id].span.from < FAR)
    && (s.holder.Some? && s.holder.value.Inserting? ==> s.holder.value.span.from < FAR)
    && (s.holder.Some? && s.holder.value.Superseding? ==> s.holder.value.at < FAR)
  }

  // Nothing is missed while every contract starts before then.
  lemma {:induction false} EarlyStartsMissNothing(s: State, steps: seq<Step>)
    requires AllStartSoon(s) && Possible(s, steps) && forall step :: step in steps ==> StartsSoon(step)
    ensures NoneMissed(s, steps)
    decreases |steps|
  {
    if steps != [] {
      assert steps[0] in steps;
      assert !Misses(s, steps[0]) && AllStartSoon(Next(s, steps[0]));
      EarlyStartsMissNothing(Next(s, steps[0]), steps[1..]);
    }
  }

  ghost predicate AlwaysKept(s: State, steps: seq<Step>)
    requires Possible(s, steps)
    decreases |steps|
  {
    CoverageKept(s) && (steps == [] || AlwaysKept(Next(s, steps[0]), steps[1..]))
  }

  ghost predicate NoneOvertaken(s: State, steps: seq<Step>)
    requires Possible(s, steps)
    decreases |steps|
  {
    steps == [] || (!Overtaken(s, steps[0]) && NoneOvertaken(Next(s, steps[0]), steps[1..]))
  }

  lemma {:induction false} CoverageExactly(s: State, steps: seq<Step>)
    requires Sound(s) && CoverageKept(s) && Possible(s, steps)
    ensures AlwaysKept(s, steps) <==> NoneOvertaken(s, steps)
    decreases |steps|
  {
    if steps != [] {
      StepKeepsSound(s, steps[0]);
      StepKeepsCoverageExactly(s, steps[0]);
      if !Overtaken(s, steps[0]) { CoverageExactly(Next(s, steps[0]), steps[1..]); }
    }
  }

  lemma {:induction false} EndsKept(s: State, steps: seq<Step>)
    requires Sound(s) && CoverageKept(s) && Possible(s, steps) && NoneOvertaken(s, steps)
    ensures CoverageKept(Run(s, steps))
    decreases |steps|
  {
    if steps != [] {
      StepKeepsSound(s, steps[0]);
      StepKeepsCoverageExactly(s, steps[0]);
      EndsKept(Next(s, steps[0]), steps[1..]);
    }
  }

  // Every instant of a finalized period is still covered by the contracts the
  // statement used, exactly as when it was calculated.
  lemma FinalizedCoverageStays(steps: seq<Step>, st: Statement, id: ContractId, t: Instant)
    requires Possible(EMPTY, steps) && NoneOvertaken(EMPTY, steps)
    requires st in Run(EMPTY, steps).statements && Uses(st, id) && st.start <= t < st.end
    ensures id in Run(EMPTY, steps).contracts
    ensures Covers(Run(EMPTY, steps).contracts[id].span, t) <==> Covers(st.used[id], t)
  {
    EndsKept(EMPTY, steps);
    assert Kept(Run(EMPTY, steps).contracts, st);
  }

  // ── Keeping ends and finalizations apart ──────────────────────────────────

  predicate PastCheck(h: Holder) { (h.Ending? && h.checked) || (h.Superseding? && h.endChecked) }

  // Finalizing a month and ending one of its contracts within it do not overlap:
  // neither starts between the other's check and its commit.
  ghost predicate Apart(s: State, step: Step)
    requires CanStep(s, step)
  {
    match step
    case ReadMonth(start, end, ids) =>
      s.holder.Some? && PastCheck(s.holder.value) && s.holder.value.id in ids
      ==> !Cuts(s.contracts[s.holder.value.id].span, s.holder.value.at, Statement(start, end, map[]))
    case CheckStatements =>
      s.finalizing.Some? ==> !(Uses(s.finalizing.value, s.holder.value.id) && s.holder.value.id in s.contracts
                               && Cuts(s.contracts[s.holder.value.id].span, s.holder.value.at, s.finalizing.value))
    case _ => true
  }

  ghost predicate NoRace(s: State) {
    && (s.holder.Some? && s.holder.value.Superseding? && s.holder.value.checked ==> s.holder.value.endChecked)
    && (s.holder.Some? && PastCheck(s.holder.value) && s.holder.value.id in s.contracts ==>
          forall st :: (st in s.statements || Some(st) == s.finalizing) && Uses(st, s.holder.value.id)
            ==> !Cuts(s.contracts[s.holder.value.id].span, s.holder.value.at, st))
  }

  lemma ApartKeepsNoRace(s: State, step: Step)
    requires NoRace(s) && HolderSane(s) && CanStep(s, step) && Apart(s, step)
    ensures NoRace(Next(s, step)) && !Overtaken(s, step)
  {
  }

  ghost predicate KeptApart(s: State, steps: seq<Step>)
    requires Possible(s, steps)
    decreases |steps|
  {
    steps == [] || (Apart(s, steps[0]) && KeptApart(Next(s, steps[0]), steps[1..]))
  }

  lemma {:induction false} ApartIsEnough(s: State, steps: seq<Step>)
    requires Sound(s) && NoRace(s) && Possible(s, steps) && KeptApart(s, steps)
    ensures NoneOvertaken(s, steps)
    decreases |steps|
  {
    if steps != [] {
      StepKeepsSound(s, steps[0]);
      ApartKeepsNoRace(s, steps[0]);
      ApartIsEnough(Next(s, steps[0]), steps[1..]);
    }
  }

  // ── The handover ──────────────────────────────────────────────────────────

  lemma {:induction false} RunKeepsSound(s: State, steps: seq<Step>)
    requires Sound(s) && Possible(s, steps)
    ensures Sound(Run(s, steps))
    decreases |steps|
  {
    if steps != [] {
      StepKeepsSound(s, steps[0]);
      RunKeepsSound(Next(s, steps[0]), steps[1..]);
    }
  }

  // In every run superseding leaves neither gap nor overlap: what the old
  // contract covered up to the handover it still covers, and from there on the
  // new one does.
  lemma HandoverAdjoins(steps: seq<Step>, newId: ContractId, t: Instant)
    requires Possible(EMPTY, steps)
    requires var s := Run(EMPTY, steps); CanStep(s, Commit(newId)) && s.holder.value.Superseding?
    ensures var s := Run(EMPTY, steps);
      var h := s.holder.value;
      h.id in s.contracts &&
      var prior, prior', next := s.contracts[h.id].span, Next(s, Commit(newId)).contracts[h.id].span,
                                 Next(s, Commit(newId)).contracts[newId].span;
      && prior'.to == Some(next.from)
      && Next(s, Commit(newId)).contracts[h.id].successor == Some(newId)
      && !(Covers(prior', t) && Covers(next, t))
      && (Covers(prior, t) && t < h.at ==> Covers(prior', t))
      && (Covers(prior, t) && t >= h.at && (h.until.Some? ==> t < h.until.value) ==> Covers(next, t))
      && Covers(prior', h.at - 1) && Covers(next, h.at)
  {
    RunKeepsSound(EMPTY, steps);
  }

  // ── What can happen ───────────────────────────────────────────────────────

  lemma {:induction false} RunThen(s: State, steps: seq<Step>, step: Step)
    requires Possible(s, steps) && CanStep(Run(s, steps), step)
    ensures Possible(s, steps + [step]) && Run(s, steps + [step]) == Next(Run(s, steps), step)
    decreases |steps|
  {
    if steps == [] {
      assert (steps + [step])[1..] == [];
    } else {
      assert (steps + [step])[1..] == steps[1..] + [step];
      RunThen(Next(s, steps[0]), steps[1..], step);
    }
  }

  lemma Then(steps: seq<Step>, s: State, step: Step) returns (steps': seq<Step>, s': State)
    requires Possible(EMPTY, steps) && Run(EMPTY, steps) == s && CanStep(s, step)
    ensures Possible(EMPTY, steps') && Run(EMPTY, steps') == s' && s' == Next(s, step)
  {
    RunThen(EMPTY, steps, step);
    steps', s' := steps + [step], Next(s, step);
  }

  // Ending and finalizing hold different locks, so a month read between an
  // end's check and its commit can be stored.
  lemma RaceIsReachable() returns (steps: seq<Step>, st: Statement)
    ensures Possible(EMPTY, steps)
    ensures st in Run(EMPTY, steps).statements && !Kept(Run(EMPTY, steps).contracts, st)
  {
    var s;
    steps, s := [], EMPTY;
    steps, s := Then(steps, s, BeginInsert(Span(0, None), true));
    assert Clashing(s.contracts, Span(0, None)) == {};
    steps, s := Then(steps, s, CheckOverlap);
    steps, s := Then(steps, s, Commit(7));
    steps, s := Then(steps, s, BeginEnd(7, 5));
    steps, s := Then(steps, s, CheckStatements);
    steps, s := Then(steps, s, ReadMonth(0, 10, {7}));
    st := s.finalizing.value;
    RaceBreaksCoverageExactly(s, 7, false);
    steps, s := Then(steps, s, Commit(7));
    steps, s := Then(steps, s, StoreStatement);
  }

  // An open-ended contract does not see one that starts after the year 9999.
  lemma FarStartIsMissed() returns (steps: seq<Step>)
    ensures Possible(EMPTY, steps) && !Disjoint(Run(EMPTY, steps).contracts)
  {
    var s;
    var far, open := Span(FAR, None), Span(0, None);
    steps, s := [], EMPTY;
    steps, s := Then(steps, s, BeginInsert(far, true));
    assert Clashing(s.contracts, far) == {};
    steps, s := Then(steps, s, CheckOverlap);
    steps, s := Then(steps, s, Commit(1));
    steps, s := Then(steps, s, BeginInsert(open, true));
    assert Clashing(s.contracts, open) == {};
    steps, s := Then(steps, s, CheckOverlap);
    steps, s := Then(steps, s, Commit(2));
    assert s.contracts[1].span == far && s.contracts[2].span == open && Overlap(far, open);
  }

  // ── The transactions' code ────────────────────────────────────────────────

  // A short run, unrolled.
  lemma InSteps(s: State, a: Step, b: Step)
    requires CanStep(s, a) && CanStep(Next(s, a), b)
    ensures Possible(s, [a, b]) && Run(s, [a, b]) == Next(Next(s, a), b)
    ensures forall c :: CanStep(Next(Next(s, a), b), c) ==>
              Possible(s, [a, b, c]) && Run(s, [a, b, c]) == Next(Next(Next(s, a), b), c)
  {
    RunThen(s, [], a);
    RunThen(s, [a], b);
    assert [a] + [b] == [a, b];
    forall c | CanStep(Next(Next(s, a), b), c)
      ensures Possible(s, [a, b, c]) && Run(s, [a, b, c]) == Next(Next(Next(s, a), b), c)
    {
      RunThen(s, [a, b], c);
      assert [a, b] + [c] == [a, b, c];
    }
  }

  datatype Answer = Done | InvalidContract | OverlappingContract | NotActive | InvalidEnd | FinalizedPeriod

  // Each method is one transaction that nothing comes between: the run of its
  // own steps.
  class ContractStore {
    var contracts: map<ContractId, Contract>
    var statements: set<Statement>
    var finalizing: Option<Statement>

    ghost function Now(): State
      reads this
    {
      State(contracts, statements, None, finalizing)
    }

    constructor ()
      ensures Now() == EMPTY
    {
      contracts, statements, finalizing := map[], {}, None;
    }

    method InsertContract(newId: ContractId, span: Span, active: bool) returns (r: Answer)
      requires newId !in contracts
      modifies this`contracts
      ensures r == if !Sane(span) then InvalidContract
                   else if active && Clashing(old(contracts), span) != {} then OverlappingContract else Done
      ensures r.OverlappingContract? ==> exists id :: id in contracts && contracts[id].active && Found(contracts[id].span, span)
      ensures r.Done? && active ==> forall id :: id in old(contracts) && old(contracts)[id].active ==> !Found(old(contracts)[id].span, span)
      ensures r.Done? ==>
                var steps := [BeginInsert(span, active), CheckOverlap, Commit(newId)];
                Possible(old(Now()), steps) && Now() == Run(old(Now()), steps)
      ensures r.Done? ==> contracts == old(contracts)[newId := Contract(span, active, None)]
      ensures !r.Done? ==> Now() == old(Now())
    {
      if span.to.Some? && span.to.value <= span.from { return InvalidContract; }
      var overlapping := set id | id in contracts && contracts[id].active
                                  && contracts[id].span.from < (if span.to.Some? then span.to.value else FAR)
                                  && (contracts[id].span.to.None? || contracts[id].span.to.value > span.from);
      assert overlapping == Clashing(contracts, span);
      assert forall id :: id in contracts && contracts[id].active && Found(contracts[id].span, span) ==> id in overlapping;
      if active && overlapping != {} {
        var id :| id in overlapping;
        assert Found(contracts[id].span, span);
        return OverlappingContract;
      }
      InSteps(Now(), BeginInsert(span, active), CheckOverlap);
      contracts := contracts[newId := Contract(span, active, None)];
      r := Done;
    }

    // The statements a new end would cut, among those that used the contract.
    method FindFinalized(id: ContractId, span: Span, at: Instant) returns (found: bool)
      ensures found == FinalizedCut(statements, id, span, at)
    {
      var todo := set st | st in statements && st.end > at && (span.to.None? || st.start < span.to.value);
      ghost var all := todo;
      while todo != {}
        invariant todo <= all
        invariant forall st :: st in all && st !in todo ==> !Uses(st, id)
        decreases |todo|
      {
        var st :| st in todo;
        if id in st.used {
          assert Uses(st, id) && Cuts(span, at, st);
          return true;
        }
        todo := todo - {st};
      }
      assert forall st :: st in statements && Cuts(span, at, st) ==> st in all;
      found := false;
    }

    method EndContract(id: ContractId, at: Instant) returns (r: Answer)
      modifies this`contracts
      ensures r == if id !in old(contracts) || !old(contracts)[id].active then NotActive
                   else if !EndsInside(old(contracts)[id].span, at) then InvalidEnd
                   else if FinalizedCut(statements, id, old(contracts)[id].span, at) then FinalizedPeriod
                   else Done
      ensures r.NotActive? <==> id !in old(contracts) || !old(contracts)[id].active
      ensures r.InvalidEnd? <==>
                && id in old(contracts) && old(contracts)[id].active
                && (at <= old(contracts)[id].span.from
                    || (old(contracts)[id].span.to.Some? && old(contracts)[id].span.to.value <= at))
      ensures r.FinalizedPeriod? ==> exists st :: st in statements && id in st.used && Cuts(old(contracts)[id].span, at, st)
      ensures r.Done? ==> forall st :: st in statements && id in st.used ==> !Cuts(old(contracts)[id].span, at, st)
      ensures r.Done? ==>
                var steps := [BeginEnd(id, at), CheckStatements, Commit(id)];
                Possible(old(Now()), steps) && Now() == Run(old(Now()), steps)
      ensures r.Done? ==>
                var row := old(contracts)[id];
                contracts == old(contracts)[id := Contract(Span(row.span.from, Some(at)), true, row.successor)]
      ensures !r.Done? ==> Now() == old(Now())
    {
      if id !in contracts || !contracts[id].active { return NotActive; }
      var row := contracts[id];
      if at <= row.span.from || (row.span.to.Some? && at >= row.span.to.value) { return InvalidEnd; }
      var finalized := FindFinalized(id, row.span, at);
      if finalized { return FinalizedPeriod; }
      InSteps(Now(), BeginEnd(id, at), CheckStatements);
      contracts := contracts[id := row.(span := Span(row.span.from, Some(at)))];
      r := Done;
    }

    // Both halves or neither: the successor's overlap check sees the cut.
    method SupersedeContract(id: ContractId, at: Instant, until: Option<Instant>, newId: ContractId) returns (r: Answer)
      requires newId !in contracts
      modifies this`contracts
      ensures r == if !Sane(Span(at, until)) then InvalidContract
                   else if id !in old(contracts) || !old(contracts)[id].active then NotActive
                   else if !EndsInside(old(contracts)[id].span, at) then InvalidEnd
                   else if FinalizedCut(statements, id, old(contracts)[id].span, at) then FinalizedPeriod
                   else if Clashing(old(contracts)[id := Cut(old(contracts)[id], at)], Span(at, until)) != {}
                   then OverlappingContract else Done
      ensures r.Done? ==>
                var steps := [BeginSupersede(id, at, until), CheckStatements, CheckOverlap, Commit(newId)];
                Possible(old(Now()), steps) && Now() == Run(old(Now()), steps)
      ensures r.Done? ==>
                var row := old(contracts)[id];
                contracts == old(contracts)[id := Contract(Span(row.span.from, Some(at)), true, Some(newId))]
                                           [newId := Contract(Span(at, until), true, None)]
      ensures !r.Done? ==> Now() == old(Now())
    {
      if until.Some? && until.value <= at { return InvalidContract; }
      ghost var s := Now();
      var before := contracts;
      r := EndContract(id, at);
      if !r.Done? { return; }
      assert contracts == before[id := Cut(before[id], at)] by { EndedMap(s, id, at); }
      r := InsertContract(newId, Span(at, until), true);
      if !r.Done? {
        contracts := before;
        return;
      }
      InsertedMap(State(before[id := Cut(before[id], at)], statements, None, finalizing), newId, Span(at, until));
      contracts := contracts[id := contracts[id].(successor := Some(newId))];
      SupersedeSteps(s, id, at, until, newId);
      assert contracts == s.contracts[id := Cut(s.contracts[id], at).(successor := Some(newId))]
                                     [newId := Contract(Span(at, until), true, None)];
    }

    static lemma EndedMap(s: State, id: ContractId, at: Instant)
      requires s.holder.None? && MayEnd(s, id, at) && !FinalizedCut(s.statements, id, s.contracts[id].span, at)
      ensures var steps := [BeginEnd(id, at), CheckStatements, Commit(id)];
        Possible(s, steps) && Run(s, steps) == s.(contracts := s.contracts[id := Cut(s.contracts[id], at)])
    {
      InSteps(s, BeginEnd(id, at), CheckStatements);
    }

    static lemma InsertedMap(s: State, newId: ContractId, span: Span)
      requires s.holder.None? && newId !in s.contracts && Sane(span) && Clashing(s.contracts, span) == {}
      ensures var steps := [BeginInsert(span, true), CheckOverlap, Commit(newId)];
        Possible(s, steps) && Run(s, steps) == s.(contracts := s.contracts[newId := Contract(span, true, None)])
    {
      InSteps(s, BeginInsert(span, true), CheckOverlap);
    }

    static lemma SupersedeSteps(s: State, id: ContractId, at: Instant, until: Option<Instant>, newId: ContractId)
      requires s.holder.None? && MayEnd(s, id, at) && Sane(Span(at, until)) && newId !in s.contracts
      requires !FinalizedCut(s.statements, id, s.contracts[id].span, at)
      requires Clashing(s.contracts[id := Cut(s.contracts[id], at)], Span(at, until)) == {}
      ensures var steps := [BeginSupersede(id, at, until), CheckStatements, CheckOverlap, Commit(newId)];
        && Possible(s, steps)
        && Run(s, steps) == s.(contracts := s.contracts[id := Cut(s.contracts[id], at).(successor := Some(newId))]
                                                       [newId := Contract(Span(at, until), true, None)])
    {
      var a, b, c := BeginSupersede(id, at, until), CheckStatements, CheckOverlap;
      InSteps(s, a, b);
      RunThen(s, [a, b, c], Commit(newId));
      assert [a, b, c] + [Commit(newId)] == [a, b, c, Commit(newId)];
    }

    method DeactivateContract(id: ContractId) returns (found: bool)
      modifies this`contracts
      ensures found == CanStep(old(Now()), Deactivate(id))
      ensures Now() == if found then Next(old(Now()), Deactivate(id)) else old(Now())
      ensures found <==> id in old(contracts) && old(contracts)[id].active
      ensures contracts == if found then old(contracts)[id := old(contracts)[id].(active := false)] else old(contracts)
    {
      found := id in contracts && contracts[id].active;
      if found { contracts := contracts[id := contracts[id].(active := false)]; }
    }
  }
}
