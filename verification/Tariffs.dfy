// Tariffs of a contract: per component, disjoint half-open intervals with one
// price each. Creating and revising hold one advisory lock, finalizing a month
// holds another.
module Tariffs {
  import opened Options

  type TariffId = nat
  type ContractId = nat
  type Instant = int

  datatype Component = Network | System | Tax | Retailer

  datatype Price = Price(rate: int, vatIncluded: bool)

  datatype Tariff = Tariff(contract: ContractId, component: Component, from: Instant, to: Instant,
                           price: Price, revision: nat)

  // contract: the contract the statement is stored under; refs: all contracts it
  // was calculated from; seen: the tariffs as they were read for it.
  datatype Statement = Statement(contract: ContractId, refs: set<ContractId>, start: Instant, end: Instant,
                                 seen: map<TariffId, Tariff>)

  datatype Holder =
    | Creating(tariff: Tariff, checked: bool)
    | Revising(id: TariffId, from: Instant, price: Price, checked: bool)

  datatype State = State(contracts: set<ContractId>, tariffs: map<TariffId, Tariff>, statements: set<Statement>,
                         holder: Option<Holder>, finalizing: Option<Statement>)

  datatype Step =
    | AddContract(contract: ContractId)
    | BeginCreate(tariff: Tariff)
    | BeginRevise(id: TariffId, from: Instant, price: Price)
    | Check
    | Commit(newId: TariffId)
    | RollBack
    | ReadMonth(contract: ContractId, refs: set<ContractId>, start: Instant, end: Instant)
    | StoreStatement

  const EMPTY := State({}, map[], {}, None, None)

  // ── Prices ────────────────────────────────────────────────────────────────

  predicate Covers(t: Tariff, at: Instant) { t.from <= at < t.to }

  predicate SameLine(a: Tariff, b: Tariff) { a.contract == b.contract && a.component == b.component }

  predicate Overlap(a: Tariff, b: Tariff) { SameLine(a, b) && a.from < b.to && b.from < a.to }

  // Two tariffs clash exactly if they price the same component of the same
  // contract at a common instant.
  lemma OverlapExactly(a: Tariff, b: Tariff)
    requires a.from < a.to && b.from < b.to
    ensures Overlap(a, b) <==>
      a.contract == b.contract && a.component == b.component && exists at :: Covers(a, at) && Covers(b, at)
  {
    var at := if a.from < b.from then b.from else a.from;
    assert Overlap(a, b) ==> Covers(a, at) && Covers(b, at);
  }

  ghost predicate Charged(tariffs: map<TariffId, Tariff>, c: ContractId, k: Component, at: Instant, price: Price) {
    exists id :: id in tariffs && tariffs[id].contract == c && tariffs[id].component == k
                 && Covers(tariffs[id], at) && tariffs[id].price == price
  }

  ghost predicate Disjoint(tariffs: map<TariffId, Tariff>) {
    forall a, b :: a in tariffs && b in tariffs && a != b ==> !Overlap(tariffs[a], tariffs[b])
  }

  // With disjoint tariffs an instant has at most one price.
  lemma OnePrice(tariffs: map<TariffId, Tariff>, c: ContractId, k: Component, at: Instant, p: Price, q: Price)
    requires Disjoint(tariffs) && Charged(tariffs, c, k, at, p) && Charged(tariffs, c, k, at, q)
    ensures p == q
  {
    var a :| a in tariffs && tariffs[a].contract == c && tariffs[a].component == k && Covers(tariffs[a], at) && tariffs[a].price == p;
    var b :| b in tariffs && tariffs[b].contract == c && tariffs[b].component == k && Covers(tariffs[b], at) && tariffs[b].price == q;
    assert Overlap(tariffs[a], tariffs[b]);
  }

  // ── Steps ─────────────────────────────────────────────────────────────────

  function Clashing(tariffs: map<TariffId, Tariff>, t: Tariff): set<TariffId> {
    set id | id in tariffs && Overlap(tariffs[id], t)
  }

  predicate StartsInside(t: Tariff, from: Instant) { t.from < from < t.to }

  // The query for a finalized month that a revision would touch: it looks at
  // the contract a statement is stored under, not at the others it used.
  predicate Touches(st: Statement, t: Tariff, from: Instant) {
    st.contract == t.contract && st.end > from && st.start < t.to
  }

  predicate Finalized(statements: set<Statement>, t: Tariff, from: Instant) {
    exists st :: st in statements && Touches(st, t, from)
  }

  predicate CanStep(s: State, step: Step) {
    match step
    case AddContract(_) => true
    case BeginCreate(t) => s.holder.None? && t.from < t.to && t.contract in s.contracts
    case BeginRevise(id, from, _) => s.holder.None? && id in s.tariffs && StartsInside(s.tariffs[id], from)
    case Check => s.holder.Some? && !s.holder.value.checked
    case Commit(newId) => s.holder.Some? && s.holder.value.checked && newId !in s.tariffs
    case RollBack => s.holder.Some?
    case ReadMonth(_, _, start, end) => s.finalizing.None? && start < end
    case StoreStatement => s.finalizing.Some?
  }

  function Checked(s: State): State
    requires s.holder.Some?
  {
    match s.holder.value
    case Creating(t, _) => s.(holder := if Clashing(s.tariffs, t) != {} then None else Some(Creating(t, true)))
    case Revising(id, from, price, _) =>
      s.(holder := if id in s.tariffs && Finalized(s.statements, s.tariffs[id], from) then None
                   else Some(Revising(id, from, price, true)))
  }

  // The old tariff ends where its revision begins.
  function Revised(tariffs: map<TariffId, Tariff>, id: TariffId, from: Instant, price: Price, newId: TariffId): map<TariffId, Tariff>
    requires id in tariffs
  {
    var t := tariffs[id];
    tariffs[id := t.(to := from)][newId := Tariff(t.contract, t.component, from, t.to, price, t.revision + 1)]
  }

  function Committed(s: State, newId: TariffId): State
    requires s.holder.Some?
  {
    match s.holder.value
    case Creating(t, _) => s.(tariffs := s.tariffs[newId := t], holder := None)
    case Revising(id, from, price, _) =>
      if id !in s.tariffs then s else s.(tariffs := Revised(s.tariffs, id, from, price, newId), holder := None)
  }

  function Next(s: State, step: Step): State
    requires CanStep(s, step)
  {
    match step
    case AddContract(c) => s.(contracts := s.contracts + {c})
    case BeginCreate(t) => s.(holder := Some(Creating(t.(revision := 1), false)))
    case BeginRevise(id, from, price) => s.(holder := Some(Revising(id, from, price, false)))
    case Check => Checked(s)
    case Commit(newId) => Committed(s, newId)
    case RollBack => s.(holder := None)
    case ReadMonth(c, refs, start, end) => s.(finalizing := Some(Statement(c, refs, start, end, s.tariffs)))
    case StoreStatement => s.(statements := s.statements + {s.finalizing.value}, finalizing := None)
  }

  // ── One revision ──────────────────────────────────────────────────────────

  // A revision covers exactly the instants the old tariff covered; it changes
  // the price from its effective instant to the old end, and nowhere else.
  lemma RevisionChangesOnlyItsTail(tariffs: map<TariffId, Tariff>, id: TariffId, from: Instant, price: Price, newId: TariffId,
                                   c: ContractId, k: Component, at: Instant, p: Price)
    requires Disjoint(tariffs) && id in tariffs && StartsInside(tariffs[id], from) && newId !in tariffs
    ensures var t, after := tariffs[id], Revised(tariffs, id, from, price, newId);
      var tail := c == t.contract && k == t.component && from <= at < t.to;
      && (!tail ==> (Charged(after, c, k, at, p) <==> Charged(tariffs, c, k, at, p)))
      && (tail ==> (Charged(after, c, k, at, p) <==> p == price) && (Charged(tariffs, c, k, at, p) <==> p == t.price))
  {
    var t, after := tariffs[id], Revised(tariffs, id, from, price, newId);
    forall x | x in tariffs && x != id ensures x in after && after[x] == tariffs[x] {
    }
    assert after[id] == t.(to := from) && after[newId].price == price;
    if c == t.contract && k == t.component && from <= at < t.to {
      assert Covers(after[newId], at) && Covers(t, at);
      forall x | x in tariffs && x != id && tariffs[x].contract == c && tariffs[x].component == k ensures !Covers(tariffs[x], at) {
        assert !Overlap(tariffs[x], t);
      }
    }
  }

  lemma RevisionKeepsDisjoint(tariffs: map<TariffId, Tariff>, id: TariffId, from: Instant, price: Price, newId: TariffId)
    requires Disjoint(tariffs) && id in tariffs && StartsInside(tariffs[id], from) && newId !in tariffs
    ensures Disjoint(Revised(tariffs, id, from, price, newId))
  {
    var t, after := tariffs[id], Revised(tariffs, id, from, price, newId);
    forall x | x in tariffs && x != id ensures !Overlap(after[x], after[newId]) && !Overlap(after[newId], after[x]) {
      assert !Overlap(tariffs[x], t) && !Overlap(t, tariffs[x]);
    }
  }

  predicate InPeriod(st: Statement, at: Instant) { st.start <= at < st.end }

  predicate InTail(t: Tariff, from: Instant, at: Instant) { from <= at < t.to }

  // A statement refuses a revision exactly when it is stored under the contract
  // and its period shares an instant with the revised tail.
  lemma RefusedExactly(st: Statement, t: Tariff, from: Instant)
    requires st.start < st.end && StartsInside(t, from)
    ensures Touches(st, t, from) <==> st.contract == t.contract && exists at :: InPeriod(st, at) && InTail(t, from, at)
  {
    var at := if st.start < from then from else st.start;
    assert Touches(st, t, from) ==> InPeriod(st, at) && InTail(t, from, at);
  }

  // ── What every step keeps ─────────────────────────────────────────────────

  ghost predicate HolderOk(s: State) {
    s.holder.Some? ==>
      match s.holder.value
      case Creating(t, checked) => t.from < t.to && (checked ==> Clashing(s.tariffs, t) == {})
      case Revising(id, from, _, _) => id in s.tariffs && StartsInside(s.tariffs[id], from)
  }

  // Tariffs of one contract and component are disjoint.
  ghost predicate Sound(s: State) {
    && Disjoint(s.tariffs) && HolderOk(s)
    && (forall st :: st in s.statements || Some(st) == s.finalizing ==> st.start < st.end)
  }

  lemma CommitKeepsDisjoint(s: State, newId: TariffId)
    requires Sound(s) && CanStep(s, Commit(newId))
    ensures Disjoint(Next(s, Commit(newId)).tariffs)
  {
    match s.holder.value
    case Creating(t, _) =>
      forall x | x in s.tariffs ensures !Overlap(s.tariffs[x], t) && !Overlap(t, s.tariffs[x]) {
        assert x !in Clashing(s.tariffs, t);
      }
    case Revising(id, from, price, _) => RevisionKeepsDisjoint(s.tariffs, id, from, price, newId);
  }

  lemma StepKeepsSound(s: State, step: Step)
    requires Sound(s) && CanStep(s, step)
    ensures Sound(Next(s, step))
  {
    if step.Commit? { CommitKeepsDisjoint(s, step.newId); }
  }

  // ── Finalized prices ──────────────────────────────────────────────────────

  // Every price the statement was calculated with for its own contract still
  // holds throughout its period.
  ghost predicate Kept(tariffs: map<TariffId, Tariff>, st: Statement) {
    forall k, at, p :: InPeriod(st, at) && Charged(st.seen, st.contract, k, at, p) ==> Charged(tariffs, st.contract, k, at, p)
  }

  // So it is for every stored statement and for the month being finalized.
  ghost predicate PricesKept(s: State) {
    && (forall st :: st in s.statements ==> Kept(s.tariffs, st))
    && (s.finalizing.Some? ==> Kept(s.tariffs, s.finalizing.value))
  }

  // A revision to another price of an instant that the statement priced.
  ghost predicate Affects(st: Statement, t: Tariff, from: Instant, price: Price) {
    && st.contract == t.contract && price != t.price
    && exists at :: InPeriod(st, at) && InTail(t, from, at) && Charged(st.seen, t.contract, t.component, at, t.price)
  }

  // For a statement that read the tariff, that is what the query for finalized
  // months looks for, unless the price stays the same.
  lemma AffectsWhatItTouches(st: Statement, id: TariffId, t: Tariff, from: Instant, price: Price)
    requires st.start < st.end && StartsInside(t, from) && id in st.seen && st.seen[id] == t
    ensures Affects(st, t, from, price) <==> Touches(st, t, from) && price != t.price
  {
    if st.contract == t.contract {
      RefusedExactly(st, t, from);
      if Touches(st, t, from) {
        var at :| InPeriod(st, at) && InTail(t, from, at);
        assert Covers(st.seen[id], at);
        assert Charged(st.seen, t.contract, t.component, at, t.price);
      }
    }
  }

  // A revision keeps a statement's prices exactly if it does not affect them.
  lemma RevisionKeepsExactly(tariffs: map<TariffId, Tariff>, id: TariffId, from: Instant, price: Price, newId: TariffId, st: Statement)
    requires Disjoint(tariffs) && id in tariffs && StartsInside(tariffs[id], from) && newId !in tariffs && Kept(tariffs, st)
    ensures Kept(Revised(tariffs, id, from, price, newId), st) <==> !Affects(st, tariffs[id], from, price)
  {
    var t, after := tariffs[id], Revised(tariffs, id, from, price, newId);
    if Affects(st, t, from, price) {
      var at :| InPeriod(st, at) && InTail(t, from, at) && Charged(st.seen, t.contract, t.component, at, t.price);
      RevisionChangesOnlyItsTail(tariffs, id, from, price, newId, t.contract, t.component, at, t.price);
    } else {
      forall k, at, p | InPeriod(st, at) && Charged(st.seen, st.contract, k, at, p)
        ensures Charged(after, st.contract, k, at, p)
      {
        RevisionChangesOnlyItsTail(tariffs, id, from, price, newId, st.contract, k, at, p);
        if st.contract == t.contract && k == t.component && InTail(t, from, at) {
          OnePrice(tariffs, st.contract, k, at, p, t.price);
        }
      }
    }
  }

  lemma CreateKeeps(tariffs: map<TariffId, Tariff>, newId: TariffId, t: Tariff, st: Statement)
    requires Kept(tariffs, st) && newId !in tariffs
    ensures Kept(tariffs[newId := t], st)
  {
    forall k, at, p | InPeriod(st, at) && Charged(st.seen, st.contract, k, at, p)
      ensures Charged(tariffs[newId := t], st.contract, k, at, p)
    {
      var id :| id in tariffs && tariffs[id].contract == st.contract && tariffs[id].component == k
                && Covers(tariffs[id], at) && tariffs[id].price == p;
      assert id in tariffs[newId := t] && tariffs[newId := t][id] == tariffs[id];
    }
  }

  ghost predicate HolderAffects(s: State, st: Statement) {
    s.holder.Some? && s.holder.value.Revising? && s.holder.value.id in s.tariffs
    && Affects(st, s.tariffs[s.holder.value.id], s.holder.value.from, s.holder.value.price)
  }

  lemma CommitKeepsExactly(s: State, newId: TariffId, st: Statement)
    requires Sound(s) && CanStep(s, Commit(newId)) && Kept(s.tariffs, st)
    ensures Kept(Next(s, Commit(newId)).tariffs, st) <==> !HolderAffects(s, st)
  {
    match s.holder.value
    case Creating(t, _) => CreateKeeps(s.tariffs, newId, t, st);
    case Revising(id, from, price, _) => RevisionKeepsExactly(s.tariffs, id, from, price, newId, st);
  }

  // A commit of a revision that affects a stored statement or the month being
  // finalized, whatever its check found earlier.
  ghost predicate Overtaken(s: State, step: Step) {
    step.Commit? && exists st :: (st in s.statements || Some(st) == s.finalizing) && HolderAffects(s, st)
  }

  lemma StepKeepsPricesExactly(s: State, step: Step)
    requires Sound(s) && PricesKept(s) && CanStep(s, step)
    ensures PricesKept(Next(s, step)) <==> !Overtaken(s, step)
  {
    if step.Commit? {
      forall st | st in s.statements || Some(st) == s.finalizing
        ensures Kept(Next(s, step).tariffs, st) <==> !HolderAffects(s, st)
      {
        CommitKeepsExactly(s, step.newId, st);
      }
    }
  }

  // A checked revision and a month that has read the tariff: storing both, in
  // either order, breaks the month's prices exactly if the revised tail touches
  // its period and the price differs.
  lemma RaceBreaksPricesExactly(s: State, newId: TariffId, monthFirst: bool)
    requires Sound(s) && CanStep(s, Commit(newId)) && s.holder.value.Revising?
    requires s.finalizing.Some? && Kept(s.tariffs, s.finalizing.value)
    requires var id := s.holder.value.id; id in s.finalizing.value.seen && s.finalizing.value.seen[id] == s.tariffs[id]
    ensures var h, st := s.holder.value, s.finalizing.value;
      var s' := if monthFirst then Next(Next(s, StoreStatement), Commit(newId)) else Next(Next(s, Commit(newId)), StoreStatement);
      && st in s'.statements
      && (Kept(s'.tariffs, st) <==> !(Touches(st, s.tariffs[h.id], h.from) && h.price != s.tariffs[h.id].price))
  {
    var h, st := s.holder.value, s.finalizing.value;
    CommitKeepsExactly(s, newId, st);
    AffectsWhatItTouches(st, h.id, s.tariffs[h.id], h.from, h.price);
  }

  // ── Whole runs ────────────────────────────────────────────────────────────

  ghost predicate Possible(s: State, steps: seq<Step>)
    decreases |steps|
  {
    steps == [] || (CanStep(s, steps[0]) && Possible(Next(s, steps[0]), steps[1..]))
  }

  function Run(s: State, steps: seq<Step>): State
    requires Possible(s, steps)
    decreases |steps|
  {
    if steps == [] then s else Run(Next(s, steps[0]), steps[1..])
  }

  // In every run, races included.
  lemma {:induction false} TariffsStayDisjoint(s: State, steps: seq<Step>)
    requires Sound(s) && Possible(s, steps)
    ensures Sound(Run(s, steps))
    decreases |steps|
  {
    if steps != [] {
      StepKeepsSound(s, steps[0]);
      TariffsStayDisjoint(Next(s, steps[0]), steps[1..]);
    }
  }

  ghost predicate AlwaysKept(s: State, steps: seq<Step>)
    requires Possible(s, steps)
    decreases |steps|
  {
    PricesKept(s) && (steps == [] || AlwaysKept(Next(s, steps[0]), steps[1..]))
  }

  ghost predicate NoneOvertaken(s: State, steps: seq<Step>)
    requires Possible(s, steps)
    decreases |steps|
  {
    steps == [] || (!Overtaken(s, steps[0]) && NoneOvertaken(Next(s, steps[0]), steps[1..]))
  }

  lemma {:induction false} PricesExactly(s: State, steps: seq<Step>)
    requires Sound(s) && PricesKept(s) && Possible(s, steps)
    ensures AlwaysKept(s, steps) <==> NoneOvertaken(s, steps)
    decreases |steps|
  {
    if steps != [] {
      StepKeepsSound(s, steps[0]);
      StepKeepsPricesExactly(s, steps[0]);
      if !Overtaken(s, steps[0]) { PricesExactly(Next(s, steps[0]), steps[1..]); }
    }
  }

  lemma {:induction false} EndsKept(s: State, steps: seq<Step>)
    requires Sound(s) && PricesKept(s) && Possible(s, steps) && NoneOvertaken(s, steps)
    ensures PricesKept(Run(s, steps))
    decreases |steps|
  {
    if steps != [] {
      StepKeepsSound(s, steps[0]);
      StepKeepsPricesExactly(s, steps[0]);
      EndsKept(Next(s, steps[0]), steps[1..]);
    }
  }

  // A price used in a finalized month, for the contract the statement is stored
  // under, is the price of that instant ever after, and the only one.
  lemma FinalizedPricesStay(steps: seq<Step>, st: Statement, k: Component, at: Instant, p: Price, q: Price)
    requires Possible(EMPTY, steps) && NoneOvertaken(EMPTY, steps) && st in Run(EMPTY, steps).statements
    requires InPeriod(st, at) && Charged(st.seen, st.contract, k, at, p)
    ensures Charged(Run(EMPTY, steps).tariffs, st.contract, k, at, q) <==> q == p
  {
    EndsKept(EMPTY, steps);
    TariffsStayDisjoint(EMPTY, steps);
    var s := Run(EMPTY, steps);
    assert Kept(s.tariffs, st);
    if Charged(s.tariffs, st.contract, k, at, q) { OnePrice(s.tariffs, st.contract, k, at, p, q); }
  }

  // ── Keeping revisions and finalizations apart ─────────────────────────────

  predicate PastCheck(s: State) {
    s.holder.Some? && s.holder.value.Revising? && s.holder.value.checked && s.holder.value.id in s.tariffs
  }

  // Finalizing a month and revising a tariff of its contract within it do not
  // overlap between check and commit.
  predicate Apart(s: State, step: Step)
    requires CanStep(s, step)
  {
    match step
    case ReadMonth(c, refs, start, end) =>
      PastCheck(s) ==> !Touches(Statement(c, refs, start, end, map[]), s.tariffs[s.holder.value.id], s.holder.value.from)
    case Check =>
      s.holder.value.Revising? && s.finalizing.Some? && s.holder.value.id in s.tariffs
      ==> !Touches(s.finalizing.value, s.tariffs[s.holder.value.id], s.holder.value.from)
    case _ => true
  }

  ghost predicate NoRace(s: State) {
    PastCheck(s) ==>
      forall st :: st in s.statements || Some(st) == s.finalizing
        ==> !Touches(st, s.tariffs[s.holder.value.id], s.holder.value.from)
  }

  lemma ApartKeepsNoRace(s: State, step: Step)
    requires Sound(s) && NoRace(s) && CanStep(s, step) && Apart(s, step)
    ensures NoRace(Next(s, step)) && !Overtaken(s, step)
  {
  }

  ghost predicate KeptApart(s: State, steps: seq<Step>)
    requires Possible(s, steps)
    decreases |steps|
  {
    steps == [] || (Apart(s, steps[0]) && KeptApart(Next(s, steps[0]), steps[1..]))
  }

  lemma {:induction false} ApartIsEnough(s: State, steps: seq<Step>)
    requires Sound(s) && NoRace(s) && Possible(s, steps) && KeptApart(s, steps)
    ensures NoneOvertaken(s, steps)
    decreases |steps|
  {
    if steps != [] {
      StepKeepsSound(s, steps[0]);
      ApartKeepsNoRace(s, steps[0]);
      ApartIsEnough(Next(s, steps[0]), steps[1..]);
    }
  }

  // ── Contracts a statement merely refers to ────────────────────────────────

  lemma {:induction false} RunThen(s: State, steps: seq<Step>, step: Step)
    requires Possible(s, steps) && CanStep(Run(s, steps), step)
    ensures Possible(s, steps + [step]) && Run(s, steps + [step]) == Next(Run(s, steps), step)
    decreases |steps|
  {
    if steps == [] {
      assert (steps + [step])[1..] == [];
    } else {
      assert (steps + [step])[1..] == steps[1..] + [step];
      RunThen(Next(s, steps[0]), steps[1..], step);
    }
  }

  lemma Then(steps: seq<Step>, s: State, step: Step) returns (steps': seq<Step>, s': State)
    requires Possible(EMPTY, steps) && Run(EMPTY, steps) == s && CanStep(s, step)
    ensures Possible(EMPTY, steps') && Run(EMPTY, steps') == s' && s' == Next(s, step)
  {
    RunThen(EMPTY, steps, step);
    steps', s' := steps + [step], Next(s, step);
  }

  // A revision that its check let pass changes a price inside a statement's
  // period exactly if the statement is stored under another contract and its
  // period meets the revised tail.
  lemma OnlyReferredPricesChange(tariffs: map<TariffId, Tariff>, id: TariffId, from: Instant, price: Price, newId: TariffId, st: Statement)
    requires Disjoint(tariffs) && id in tariffs && StartsInside(tariffs[id], from) && newId !in tariffs
    requires price != tariffs[id].price && st.start < st.end && !Touches(st, tariffs[id], from)
    ensures var t, after := tariffs[id], Revised(tariffs, id, from, price, newId);
      (exists at :: InPeriod(st, at) && Charged(tariffs, t.contract, t.component, at, t.price)
                    && !Charged(after, t.contract, t.component, at, t.price))
      <==> st.contract != t.contract && st.end > from && st.start < t.to
  {
    var t, after := tariffs[id], Revised(tariffs, id, from, price, newId);
    forall at
      ensures Charged(tariffs, t.contract, t.component, at, t.price) && !Charged(after, t.contract, t.component, at, t.price)
              <==> InTail(t, from, at)
    {
      RevisionChangesOnlyItsTail(tariffs, id, from, price, newId, t.contract, t.component, at, t.price);
    }
    var at := if st.start < from then from else st.start;
    if st.end > from && st.start < t.to { assert InPeriod(st, at) && InTail(t, from, at); }
  }

  // A month calculated from two contracts is stored under the first; the tariffs
  // of the second can still be revised inside the month.
  lemma ReferredContractIsNotProtected() returns (steps: seq<Step>, st: Statement)
    ensures Possible(EMPTY, steps)
    ensures var s := Run(EMPTY, steps);
      && st in s.statements && 2 in st.refs && st.start <= 5 < st.end
      && Charged(st.seen, 2, Network, 5, Price(100, true)) && !Charged(s.tariffs, 2, Network, 5, Price(100, true))
  {
    var s;
    var t := Tariff(2, Network, 0, 10, Price(100, true), 1);
    steps, s := [], EMPTY;
    steps, s := Then(steps, s, AddContract(2));
    steps, s := Then(steps, s, BeginCreate(t));
    assert Clashing(s.tariffs, t) == {};
    steps, s := Then(steps, s, Check);
    steps, s := Then(steps, s, Commit(0));
    assert s.tariffs == map[0 := t];
    steps, s := Then(steps, s, ReadMonth(1, {1, 2}, 0, 10));
    st := s.finalizing.value;
    assert Charged(st.seen, 2, Network, 5, Price(100, true)) by { assert Covers(st.seen[0], 5); }
    steps, s := Then(steps, s, StoreStatement);
    steps, s := Then(steps, s, BeginRevise(0, 5, Price(200, true)));
    steps, s := Then(steps, s, Check);
    RevisionChangesOnlyItsTail(s.tariffs, 0, 5, Price(200, true), 1, 2, Network, 5, Price(100, true));
    steps, s := Then(steps, s, Commit(1));
  }

  // ── The transactions' code ────────────────────────────────────────────────

  lemma InSteps(s: State, a: Step, b: Step, c: Step)
    requires CanStep(s, a) && CanStep(Next(s, a), b) && CanStep(Next(Next(s, a), b), c)
    ensures Possible(s, [a, b, c]) && Run(s, [a, b, c]) == Next(Next(Next(s, a), b), c)
  {
    RunThen(s, [], a);
    RunThen(s, [a], b);
    assert [a] + [b] == [a, b];
    RunThen(s, [a, b], c);
    assert [a, b] + [c] == [a, b, c];
  }

  datatype Answer = Done | InvalidTariff | NoContract | OverlappingTariff | InvalidRevision | FinalizedPeriod

  // Each method is one transaction that nothing comes between: the run of its
  // own steps.
  class TariffStore {
    var contracts: set<ContractId>
    var tariffs: map<TariffId, Tariff>
    var statements: set<Statement>
    var finalizing: Option<Statement>

    ghost function Now(): State
      reads this
    {
      State(contracts, tariffs, statements, None, finalizing)
    }

    constructor ()
      ensures Now() == EMPTY
    {
      contracts, tariffs, statements, finalizing := {}, map[], {}, None;
    }

    method CreateTariff(newId: TariffId, contract: ContractId, component: Component, from: Instant, to: Instant, price: Price)
      returns (r: Answer)
      requires newId !in tariffs
      modifies this`tariffs
      ensures var t := Tariff(contract, component, from, to, price, 1);
        && r == (if to <= from then InvalidTariff
                 else if contract !in contracts then NoContract
                 else if Clashing(old(tariffs), t) != {} then OverlappingTariff else Done)
        && (r.OverlappingTariff? ==> exists id :: id in tariffs && Overlap(tariffs[id], t))
        && (r.Done? ==> forall id :: id in old(tariffs) ==> !Overlap(old(tariffs)[id], t))
        && (r.Done? ==>
              var steps := [BeginCreate(t), Check, Commit(newId)];
              Possible(old(Now()), steps) && Now() == Run(old(Now()), steps))
        && (r.Done? ==> tariffs == old(tariffs)[newId := t])
        && (!r.Done? ==> Now() == old(Now()))
    {
      if to <= from { return InvalidTariff; }
      if contract !in contracts { return NoContract; }
      var t := Tariff(contract, component, from, to, price, 1);
      var overlap := set id | id in tariffs && tariffs[id].contract == contract && tariffs[id].component == component
                              && tariffs[id].from < to && tariffs[id].to > from;
      assert overlap == Clashing(tariffs, t);
      assert forall id :: id in tariffs && Overlap(tariffs[id], t) ==> id in overlap;
      if overlap != {} {
        var id :| id in overlap;
        assert Overlap(tariffs[id], t);
        return OverlappingTariff;
      }
      InSteps(Now(), BeginCreate(t), Check, Commit(newId));
      tariffs := tariffs[newId := t];
      r := Done;
    }

    method ReviseTariff(newId: TariffId, contract: ContractId, id: TariffId, from: Instant, price: Price) returns (r: Answer)
      requires newId !in tariffs
      modifies this`tariffs
      ensures r == if id !in old(tariffs) || old(tariffs)[id].contract != contract || !StartsInside(old(tariffs)[id], from)
                   then InvalidRevision
                   else if Finalized(statements, old(tariffs)[id], from) then FinalizedPeriod else Done
      ensures r.InvalidRevision? <==>
                || id !in old(tariffs) || old(tariffs)[id].contract != contract
                || from <= old(tariffs)[id].from || old(tariffs)[id].to <= from
      ensures r.FinalizedPeriod? ==> exists st :: st in statements && Touches(st, old(tariffs)[id], from)
      ensures r.Done? ==> forall st :: st in statements ==> !Touches(st, old(tariffs)[id], from)
      ensures r.Done? ==>
                var steps := [BeginRevise(id, from, price), Check, Commit(newId)];
                Possible(old(Now()), steps) && Now() == Run(old(Now()), steps)
      ensures r.Done? ==>
                var t := old(tariffs)[id];
                tariffs == old(tariffs)[id := t.(to := from)]
                                       [newId := Tariff(contract, t.component, from, t.to, price, t.revision + 1)]
      ensures !r.Done? ==> Now() == old(Now())
    {
      if id !in tariffs || tariffs[id].contract != contract { return InvalidRevision; }
      var t := tariffs[id];
      if from <= t.from || from >= t.to { return InvalidRevision; }
      var finalized := set st | st in statements && st.contract == contract && st.end > from && st.start < t.to;
      assert forall st :: st in statements && Touches(st, t, from) ==> st in finalized;
      if finalized != {} {
        var st :| st in finalized;
        assert Touches(st, t, from);
        return FinalizedPeriod;
      }
      InSteps(Now(), BeginRevise(id, from, price), Check, Commit(newId));
      tariffs := tariffs[id := t.(to := from)];
      tariffs := tariffs[newId := Tariff(contract, t.component, from, t.to, price, t.revision + 1)];
      r := Done;
    }
  }
}
