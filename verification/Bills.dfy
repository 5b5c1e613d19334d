// The electricity bill ledger. Creating and revising hold an advisory lock over
// check and insert; payments and voids do not, and a payment reads the bill
// before it updates it.
module Bills {
  import opened Options

  type BillId = nat
  type Instant = int

  datatype BillKind = Advance | Settlement
  datatype Status = Due | PartiallyPaid | Paid | Voided

  // The invoice itself; a bill's values never change once it is inserted.
  datatype Values = Values(contract: nat, kind: BillKind, start: Instant, end: Instant, amount: nat)

  datatype Bill = Bill(values: Values, paid: Option<nat>, status: Status, previous: Option<BillId>)

  // The transaction holding the lock: a create, or a revise that also holds the
  // revised row; checked: no overlapping bill was found.
  datatype Holder =
    | Creating(values: Values, checked: bool)
    | Revising(id: BillId, values: Values, checked: bool)

  // A payment that has read the bill it is about to update.
  datatype Payment = Payment(id: BillId, amount: nat, seenStatus: Status, seenPaid: Option<nat>, due: nat)

  // recorded: every payment that was accepted, with its bill and amount
  datatype State = State(bills: map<BillId, Bill>, next: BillId, holder: Option<Holder>,
                         payments: map<nat, Payment>, recorded: set<(BillId, nat)>)

  datatype Step =
    | BeginCreate(values: Values)
    | BeginRevise(id: BillId, values: Values)
    | CheckOverlap
    | Commit(newId: BillId)
    | RollBack
    | ReadForPayment(p: nat, id: BillId, amount: nat)
    | RecordPayment(p: nat)
    | VoidBill(id: BillId)

  const EMPTY := State(map[], 0, None, map[], {})

  predicate Live(b: Bill) { !b.status.Voided? }

  // parseBillBody
  predicate Sane(v: Values) { v.start < v.end }

  predicate Overlap(a: Values, b: Values) {
    a.contract == b.contract && a.kind == b.kind && a.start < b.end && b.start < a.end
  }

  predicate During(v: Values, at: Instant) { v.start <= at < v.end }

  // Bills overlap exactly if they are of the same contract and kind and their
  // periods have an instant in common.
  lemma OverlapExactly(a: Values, b: Values)
    requires Sane(a) && Sane(b)
    ensures Overlap(a, b) <==>
      a.contract == b.contract && a.kind == b.kind && exists at :: During(a, at) && During(b, at)
  {
    var at := if a.start < b.start then b.start else a.start;
    assert Overlap(a, b) ==> During(a, at) && During(b, at);
  }

  function StatusFor(paid: Option<nat>, amount: nat): Status {
    if paid.None? then Due else if paid.value >= amount then Paid else PartiallyPaid
  }

  function PaidSoFar(b: Bill): nat { if b.paid.Some? then b.paid.value else 0 }

  function Clashing(bills: map<BillId, Bill>, v: Values, ignore: Option<BillId>): set<BillId> {
    set id | id in bills && Live(bills[id]) && Overlap(bills[id].values, v) && ignore != Some(id)
  }

  // The row a revise holds FOR UPDATE.
  predicate RowLocked(s: State, id: BillId) { s.holder.Some? && s.holder.value.Revising? && s.holder.value.id == id }

  predicate CanStep(s: State, step: Step) {
    match step
    case BeginCreate(values) => s.holder.None? && Sane(values)
    case BeginRevise(id, values) => s.holder.None? && Sane(values) && id in s.bills && Live(s.bills[id])
    case CheckOverlap => s.holder.Some? && !s.holder.value.checked
    case Commit(newId) => s.holder.Some? && s.holder.value.checked && newId >= s.next
    case RollBack => s.holder.Some?
    case ReadForPayment(p, id, amount) => p !in s.payments && amount > 0
    case RecordPayment(p) => p in s.payments && !RowLocked(s, s.payments[p].id)
    case VoidBill(id) => id in s.bills && Live(s.bills[id]) && !RowLocked(s, id)
  }

  function Checked(s: State): State
    requires s.holder.Some?
  {
    var h := s.holder.value;
    var clash := Clashing(s.bills, h.values, if h.Revising? then Some(h.id) else None);
    if clash != {} then s.(holder := None) else s.(holder := Some(h.(checked := true)))
  }

  // The corrected invoice carries the recorded payments over.
  function Revision(prior: Bill, id: BillId, values: Values): Bill {
    Bill(values, prior.paid, StatusFor(prior.paid, values.amount), Some(id))
  }

  function Committed(s: State, newId: BillId): State
    requires s.holder.Some?
  {
    match s.holder.value
    case Creating(values, _) =>
      s.(bills := s.bills[newId := Bill(values, None, Due, None)], next := newId + 1, holder := None)
    case Revising(id, values, _) =>
      if id !in s.bills then s.(holder := None)
      else
        var prior := s.bills[id];
        s.(bills := s.bills[id := prior.(status := Voided)][newId := Revision(prior, id, values)],
           next := newId + 1, holder := None)
  }

  // A payment may only raise the cumulative amount of a due bill.
  predicate Payable(s: State, id: BillId, amount: nat) {
    id in s.bills && s.bills[id].status in {Due, PartiallyPaid} && amount > PaidSoFar(s.bills[id])
  }

  // The bill still is what the payment read.
  predicate StillSeen(s: State, pay: Payment) {
    pay.id in s.bills && s.bills[pay.id].status == pay.seenStatus && s.bills[pay.id].paid == pay.seenPaid
  }

  function Recorded(s: State, p: nat): State
    requires p in s.payments
  {
    var pay := s.payments[p];
    var s' := s.(payments := s.payments - {p});
    if !StillSeen(s, pay) then s'
    else
      var b := s.bills[pay.id];
      s'.(bills := s.bills[pay.id := b.(paid := Some(pay.amount),
                                         status := if pay.amount >= pay.due then Paid else PartiallyPaid)],
          recorded := s.recorded + {(pay.id, pay.amount)})
  }

  function Next(s: State, step: Step): State
    requires CanStep(s, step)
  {
    match step
    case BeginCreate(values) => s.(holder := Some(Creating(values, false)))
    case BeginRevise(id, values) => s.(holder := Some(Revising(id, values, false)))
    case CheckOverlap => Checked(s)
    case Commit(newId) => Committed(s, newId)
    case RollBack => s.(holder := None)
    case ReadForPayment(p, id, amount) =>
      if !Payable(s, id, amount) then s
      else
        var b := s.bills[id];
        s.(payments := s.payments[p := Payment(id, amount, b.status, b.paid, b.values.amount)])
    case RecordPayment(p) => Recorded(s, p)
    case VoidBill(id) => s.(bills := s.bills[id := s.bills[id].(status := Voided)])
  }

  // ── Invariant ─────────────────────────────────────────────────────────────

  ghost predicate Disjoint(bills: map<BillId, Bill>) {
    forall a, b :: a in bills && b in bills && a != b && Live(bills[a]) && Live(bills[b])
      ==> !Overlap(bills[a].values, bills[b].values)
  }

  // A bill's status says exactly how much of it is paid.
  ghost predicate StatusesRight(bills: map<BillId, Bill>) {
    forall id :: id in bills && Live(bills[id]) ==> bills[id].status == StatusFor(bills[id].paid, bills[id].values.amount)
  }

  // Revisions point back to older, voided bills with no more paid on them, and
  // no bill is revised twice.
  ghost predicate Linked(bills: map<BillId, Bill>, next: BillId) {
    && (forall id :: id in bills ==> id < next)
    && (forall id :: id in bills && bills[id].previous.Some? ==>
          var prior := bills[id].previous.value;
          && prior < id && prior in bills && !Live(bills[prior])
          && (bills[prior].paid.Some? ==> bills[id].paid.Some? && bills[prior].paid.value <= bills[id].paid.value))
    && (forall a, b :: a in bills && b in bills && bills[a].previous.Some? && bills[a].previous == bills[b].previous ==> a == b)
  }

  ghost predicate PaymentsOk(s: State) {
    && (forall p :: p in s.payments ==>
          var pay := s.payments[p];
          && pay.id in s.bills && pay.due == s.bills[pay.id].values.amount
          && pay.seenStatus in {Due, PartiallyPaid}
          && pay.amount > (if pay.seenPaid.Some? then pay.seenPaid.value else 0))
    && (forall r :: r in s.recorded ==> r.0 in s.bills && r.1 <= PaidSoFar(s.bills[r.0]))
  }

  ghost predicate HolderOk(s: State) {
    s.holder.Some? ==>
      var h := s.holder.value;
      && Sane(h.values)
      && (h.Revising? ==> h.id in s.bills && Live(s.bills[h.id]))
      && (h.checked ==> Clashing(s.bills, h.values, if h.Revising? then Some(h.id) else None) == {})
  }

  ghost predicate Inv(s: State) {
    && Disjoint(s.bills) && StatusesRight(s.bills) && Linked(s.bills, s.next)
    && PaymentsOk(s) && HolderOk(s)
  }

  // A new bill that clashes with no live bill.
  lemma AddKeepsDisjoint(bills: map<BillId, Bill>, id: BillId, b: Bill)
    requires Disjoint(bills) && id !in bills && Clashing(bills, b.values, None) == {}
    ensures Disjoint(bills[id := b])
  {
    forall other | other in bills && Live(bills[other]) ensures !Overlap(bills[other].values, b.values) {
      assert other !in Clashing(bills, b.values, None);
    }
  }

  lemma AddKeepsLinked(bills: map<BillId, Bill>, next: BillId, id: BillId, b: Bill)
    requires Linked(bills, next) && id >= next
    requires b.previous.Some? ==>
      && b.previous.value in bills && !Live(bills[b.previous.value])
      && (bills[b.previous.value].paid.Some? ==> b.paid.Some? && bills[b.previous.value].paid.value <= b.paid.value)
      && (forall o :: o in bills ==> bills[o].previous != b.previous)
    ensures Linked(bills[id := b], id + 1)
  {
  }

  // Voiding, or paying more of, a bill that has not been revised.
  lemma ChangeKeepsLinked(bills: map<BillId, Bill>, next: BillId, id: BillId, b: Bill)
    requires Linked(bills, next) && id in bills && Live(bills[id])
    requires b.previous == bills[id].previous
    requires bills[id].paid.Some? ==> b.paid.Some? && bills[id].paid.value <= b.paid.value
    ensures Linked(bills[id := b], next)
  {
  }

  lemma ChangeKeepsDisjoint(bills: map<BillId, Bill>, id: BillId, b: Bill)
    requires Disjoint(bills) && id in bills && b.values == bills[id].values && (Live(b) ==> Live(bills[id]))
    ensures Disjoint(bills[id := b])
  {
  }

  // A revised bill leaves room for its revision.
  lemma VoidedDoesNotClash(bills: map<BillId, Bill>, id: BillId, v: Values)
    requires id in bills && Clashing(bills, v, Some(id)) == {}
    ensures Clashing(bills[id := bills[id].(status := Voided)], v, None) == {}
  {
    var bills' := bills[id := bills[id].(status := Voided)];
    forall o | o in bills' ensures o !in Clashing(bills', v, None) {
      if o != id { assert o !in Clashing(bills, v, Some(id)); }
    }
  }

  lemma CommitCreate(s: State, newId: BillId)
    requires Inv(s) && CanStep(s, Commit(newId)) && s.holder.value.Creating?
    ensures Inv(Next(s, Commit(newId)))
  {
    var b := Bill(s.holder.value.values, None, Due, None);
    AddKeepsDisjoint(s.bills, newId, b);
    AddKeepsLinked(s.bills, s.next, newId, b);
    assert PaymentsOk(Next(s, Commit(newId)));
  }

  lemma ReviseKeepsBills(bills: map<BillId, Bill>, next: BillId, id: BillId, v: Values, newId: BillId)
    requires Disjoint(bills) && Linked(bills, next) && newId >= next
    requires id in bills && Live(bills[id]) && Clashing(bills, v, Some(id)) == {}
    ensures var bills' := bills[id := bills[id].(status := Voided)][newId := Revision(bills[id], id, v)];
      Disjoint(bills') && Linked(bills', newId + 1)
  {
    var voided := bills[id].(status := Voided);
    VoidedDoesNotClash(bills, id, v);
    ChangeKeepsDisjoint(bills, id, voided);
    AddKeepsDisjoint(bills[id := voided], newId, Revision(bills[id], id, v));
    ChangeKeepsLinked(bills, next, id, voided);
    forall o | o in bills ensures bills[o].previous != Some(id) {
      var p := bills[o].previous;
      assert p.Some? ==> !Live(bills[p.value]);
    }
    AddKeepsLinked(bills[id := voided], next, newId, Revision(bills[id], id, v));
  }

  lemma CommitRevise(s: State, newId: BillId)
    requires Inv(s) && CanStep(s, Commit(newId)) && s.holder.value.Revising?
    ensures Inv(Next(s, Commit(newId)))
  {
    var Revising(id, v, _) := s.holder.value;
    ReviseKeepsBills(s.bills, s.next, id, v, newId);
    ReviseKeepsPayments(s, newId);
  }

  lemma ReviseKeepsPayments(s: State, newId: BillId)
    requires StatusesRight(s.bills) && Linked(s.bills, s.next) && PaymentsOk(s) && HolderOk(s)
    requires CanStep(s, Commit(newId)) && s.holder.value.Revising?
    ensures PaymentsOk(Next(s, Commit(newId))) && StatusesRight(Next(s, Commit(newId)).bills)
  {
    var s' := Next(s, Commit(newId));
    forall id | id in s.bills
      ensures id in s'.bills && s'.bills[id].values == s.bills[id].values && s'.bills[id].paid == s.bills[id].paid
    {
    }
  }

  lemma ChangeKeepsHolder(s: State, id: BillId, b: Bill)
    requires HolderOk(s) && id in s.bills && b.values == s.bills[id].values && (Live(b) ==> Live(s.bills[id]))
    requires RowLocked(s, id) ==> Live(b)
    ensures HolderOk(s.(bills := s.bills[id := b]))
  {
    if s.holder.Some? {
      var h := s.holder.value;
      var ignore := if h.Revising? then Some(h.id) else None;
      assert Clashing(s.bills[id := b], h.values, ignore) <= Clashing(s.bills, h.values, ignore);
    }
  }

  lemma RecordKeepsInv(s: State, p: nat)
    requires Inv(s) && CanStep(s, RecordPayment(p))
    ensures Inv(Next(s, RecordPayment(p)))
  {
    var pay := s.payments[p];
    if StillSeen(s, pay) {
      var b := s.bills[pay.id].(paid := Some(pay.amount), status := if pay.amount >= pay.due then Paid else PartiallyPaid);
      ChangeKeepsDisjoint(s.bills, pay.id, b);
      ChangeKeepsLinked(s.bills, s.next, pay.id, b);
      ChangeKeepsHolder(s, pay.id, b);
      RecordKeepsPayments(s, p);
    }
  }

  lemma RecordKeepsPayments(s: State, p: nat)
    requires StatusesRight(s.bills) && PaymentsOk(s) && CanStep(s, RecordPayment(p)) && StillSeen(s, s.payments[p])
    ensures PaymentsOk(Next(s, RecordPayment(p))) && StatusesRight(Next(s, RecordPayment(p)).bills)
  {
    var s' := Next(s, RecordPayment(p));
    forall id | id in s.bills
      ensures id in s'.bills && s'.bills[id].values == s.bills[id].values && PaidSoFar(s.bills[id]) <= PaidSoFar(s'.bills[id])
    {
    }
  }

  lemma VoidKeepsInv(s: State, id: BillId)
    requires Inv(s) && CanStep(s, VoidBill(id))
    ensures Inv(Next(s, VoidBill(id)))
  {
    var b := s.bills[id].(status := Voided);
    ChangeKeepsDisjoint(s.bills, id, b);
    ChangeKeepsLinked(s.bills, s.next, id, b);
    ChangeKeepsHolder(s, id, b);
  }

  lemma StepKeepsInv(s: State, step: Step)
    requires Inv(s) && CanStep(s, step)
    ensures Inv(Next(s, step))
  {
    match step
    case Commit(newId) => if s.holder.value.Creating? { CommitCreate(s, newId); } else { CommitRevise(s, newId); }
    case RecordPayment(p) => RecordKeepsInv(s, p);
    case VoidBill(id) => VoidKeepsInv(s, id);
    case _ =>
  }

  // ── Whole runs ────────────────────────────────────────────────────────────

  ghost predicate Possible(s: State, steps: seq<Step>)
    decreases |steps|
  {
    steps == [] || (CanStep(s, steps[0]) && Possible(Next(s, steps[0]), steps[1..]))
  }

  function Run(s: State, steps: seq<Step>): State
    requires Possible(s, steps)
    decreases |steps|
  {
    if steps == [] then s else Run(Next(s, steps[0]), steps[1..])
  }

  lemma {:induction false} RunKeepsInv(s: State, steps: seq<Step>)
    requires Inv(s) && Possible(s, steps)
    ensures Inv(Run(s, steps)) && s.recorded <= Run(s, steps).recorded
    decreases |steps|
  {
    if steps != [] {
      StepKeepsInv(s, steps[0]);
      RunKeepsInv(Next(s, steps[0]), steps[1..]);
    }
  }

  // In every reachable ledger live bills of one contract and kind have disjoint
  // periods, and a live bill's status follows from what is paid on it.
  lemma LedgerIsSound(steps: seq<Step>, a: BillId, b: BillId)
    requires Possible(EMPTY, steps)
    requires var bills := Run(EMPTY, steps).bills; a in bills && b in bills && Live(bills[a]) && Live(bills[b])
    ensures var bills := Run(EMPTY, steps).bills;
      && (a != b ==> !Overlap(bills[a].values, bills[b].values))
      && (bills[a].status.Due? <==> bills[a].paid.None?)
      && (bills[a].status.Paid? <==> bills[a].paid.Some? && bills[a].paid.value >= bills[a].values.amount)
      && (bills[a].status.PartiallyPaid? <==> bills[a].paid.Some? && bills[a].paid.value < bills[a].values.amount)
  {
    RunKeepsInv(EMPTY, steps);
  }

  // ── Revision chains ───────────────────────────────────────────────────────

  // a is b or an earlier revision of it.
  ghost predicate Ancestor(bills: map<BillId, Bill>, next: BillId, a: BillId, b: BillId)
    requires Linked(bills, next) && b in bills
    decreases b
  {
    a == b || (bills[b].previous.Some? && Ancestor(bills, next, a, bills[b].previous.value))
  }

  ghost function Root(bills: map<BillId, Bill>, next: BillId, b: BillId): (r: BillId)
    requires Linked(bills, next) && b in bills
    ensures r in bills && Ancestor(bills, next, r, b)
    decreases b
  {
    if bills[b].previous.None? then b else Root(bills, next, bills[b].previous.value)
  }

  // An earlier revision was revised on the way to the later one.
  lemma {:induction false} RevisedOnTheWay(bills: map<BillId, Bill>, next: BillId, a: BillId, b: BillId) returns (c: BillId)
    requires Linked(bills, next) && b in bills && Ancestor(bills, next, a, b) && a != b
    ensures c in bills && bills[c].previous == Some(a) && Ancestor(bills, next, c, b)
    decreases b
  {
    var p := bills[b].previous.value;
    if p == a { c := b; } else { c := RevisedOnTheWay(bills, next, a, p); }
  }

  // Two revisions of one bill: one of them comes from the other.
  lemma {:induction false} ChainIsLinear(bills: map<BillId, Bill>, next: BillId, a: BillId, b: BillId)
    requires Linked(bills, next) && a in bills && b in bills && Root(bills, next, a) == Root(bills, next, b)
    ensures Ancestor(bills, next, a, b) || Ancestor(bills, next, b, a)
    decreases a + b
  {
    if bills[a].previous.Some? && bills[b].previous.Some? {
      var pa, pb := bills[a].previous.value, bills[b].previous.value;
      ChainIsLinear(bills, next, pa, pb);
      if pa != pb {
        if Ancestor(bills, next, pa, pb) {
          var c := RevisedOnTheWay(bills, next, pa, pb);
        } else {
          var c := RevisedOnTheWay(bills, next, pb, pa);
        }
      }
    }
  }

  lemma {:induction false} PaidGrowsAlongChain(bills: map<BillId, Bill>, next: BillId, a: BillId, b: BillId)
    requires Linked(bills, next) && b in bills && Ancestor(bills, next, a, b)
    ensures a in bills && PaidSoFar(bills[a]) <= PaidSoFar(bills[b])
    decreases b
  {
    if a != b { PaidGrowsAlongChain(bills, next, a, bills[b].previous.value); }
  }

  // Of all revisions of a bill at most one is live, and it is the last one.
  lemma OneLiveRevision(steps: seq<Step>, a: BillId, b: BillId)
    requires Possible(EMPTY, steps)
    requires var s := Run(EMPTY, steps); a in s.bills && b in s.bills && Live(s.bills[a]) && Linked(s.bills, s.next)
    requires var s := Run(EMPTY, steps); Root(s.bills, s.next, a) == Root(s.bills, s.next, b)
    ensures var s := Run(EMPTY, steps); Ancestor(s.bills, s.next, b, a) && (Live(s.bills[b]) ==> a == b)
  {
    RunKeepsInv(EMPTY, steps);
    var s := Run(EMPTY, steps);
    ChainIsLinear(s.bills, s.next, a, b);
    if a != b {
      if Ancestor(s.bills, s.next, a, b) {
        var c := RevisedOnTheWay(s.bills, s.next, a, b);
      } else {
        var c := RevisedOnTheWay(s.bills, s.next, b, a);
      }
    }
  }

  // A payment once accepted is never lost: every later revision of the bill has
  // at least that much paid on it, however payments and revisions interleave.
  lemma PaymentsAreKept(early: seq<Step>, late: seq<Step>, id: BillId, amount: nat, b: BillId)
    requires Possible(EMPTY, early) && (id, amount) in Run(EMPTY, early).recorded
    requires Possible(Run(EMPTY, early), late)
    requires var s := Run(Run(EMPTY, early), late); b in s.bills && Linked(s.bills, s.next) && Ancestor(s.bills, s.next, id, b)
    ensures amount <= PaidSoFar(Run(Run(EMPTY, early), late).bills[b])
  {
    RunKeepsInv(EMPTY, early);
    RunKeepsInv(Run(EMPTY, early), late);
    var s := Run(Run(EMPTY, early), late);
    PaidGrowsAlongChain(s.bills, s.next, id, b);
  }

  // ── What is paid ──────────────────────────────────────────────────────────

  // Recorded payments are positive, and what is paid on a bill was recorded on
  // it or is what its previous revision had.
  ghost predicate PaidIsRecorded(s: State) {
    && (forall r :: r in s.recorded ==> r.1 > 0)
    && (forall id :: id in s.bills && s.bills[id].paid.Some? ==>
          || (id, s.bills[id].paid.value) in s.recorded
          || (s.bills[id].previous.Some? && s.bills[id].previous.value in s.bills
              && s.bills[s.bills[id].previous.value].paid == s.bills[id].paid))
  }

  lemma RecordKeepsPaid(s: State, p: nat)
    requires Inv(s) && PaidIsRecorded(s) && CanStep(s, RecordPayment(p))
    ensures PaidIsRecorded(Next(s, RecordPayment(p)))
  {
    var pay := s.payments[p];
    if StillSeen(s, pay) {
      assert Live(s.bills[pay.id]);
      assert forall o :: o in s.bills && s.bills[o].previous.Some? ==> s.bills[o].previous.value != pay.id;
    }
  }

  // One more bill, or a bill whose status changes.
  lemma AddKeepsPaid(s: State, id: BillId, b: Bill)
    requires PaidIsRecorded(s) && (id in s.bills ==> b == s.bills[id].(status := b.status))
    requires b.paid.Some? && id !in s.bills ==>
      b.previous.Some? && b.previous.value in s.bills && s.bills[b.previous.value].paid == b.paid
    ensures PaidIsRecorded(s.(bills := s.bills[id := b]))
  {
  }

  lemma CommitKeepsPaid(s: State, newId: BillId)
    requires Inv(s) && PaidIsRecorded(s) && CanStep(s, Commit(newId))
    ensures PaidIsRecorded(Next(s, Commit(newId)))
  {
    match s.holder.value
    case Creating(v, _) => AddKeepsPaid(s, newId, Bill(v, None, Due, None));
    case Revising(id, v, _) =>
      var voided := s.bills[id].(status := Voided);
      AddKeepsPaid(s, id, voided);
      AddKeepsPaid(s.(bills := s.bills[id := voided]), newId, Revision(s.bills[id], id, v));
  }

  lemma StepKeepsPaid(s: State, step: Step)
    requires Inv(s) && PaidIsRecorded(s) && CanStep(s, step)
    ensures PaidIsRecorded(Next(s, step))
  {
    match step
    case Commit(newId) => CommitKeepsPaid(s, newId);
    case RecordPayment(p) => RecordKeepsPaid(s, p);
    case VoidBill(id) => AddKeepsPaid(s, id, s.bills[id].(status := Voided));
    case _ =>
  }

  lemma {:induction false} RunKeepsPaid(s: State, steps: seq<Step>)
    requires Inv(s) && PaidIsRecorded(s) && Possible(s, steps)
    ensures PaidIsRecorded(Run(s, steps))
    decreases |steps|
  {
    if steps != [] {
      StepKeepsInv(s, steps[0]);
      StepKeepsPaid(s, steps[0]);
      RunKeepsPaid(Next(s, steps[0]), steps[1..]);
    }
  }

  lemma {:induction false} PaidComesFrom(s: State, b: BillId) returns (a: BillId)
    requires Linked(s.bills, s.next) && PaidIsRecorded(s) && b in s.bills && s.bills[b].paid.Some?
    ensures Ancestor(s.bills, s.next, a, b) && (a, s.bills[b].paid.value) in s.recorded
    decreases b
  {
    if (b, s.bills[b].paid.value) in s.recorded { a := b; } else { a := PaidComesFrom(s, s.bills[b].previous.value); }
  }

  // In every run a bill has a paid amount exactly if a payment was recorded on
  // it or on an earlier revision, and then it is the amount of one of these
  // payments and none of them is higher.
  lemma PaidIsTheHighestPayment(steps: seq<Step>, b: BillId)
    requires Possible(EMPTY, steps) && b in Run(EMPTY, steps).bills
    ensures var s := Run(EMPTY, steps);
      && Linked(s.bills, s.next)
      && (s.bills[b].paid.Some? ==>
            exists a: BillId :: Ancestor(s.bills, s.next, a, b) && (a, s.bills[b].paid.value) in s.recorded)
      && (forall a: BillId, amount: nat :: (a, amount) in s.recorded && Ancestor(s.bills, s.next, a, b) ==>
            s.bills[b].paid.Some? && amount <= s.bills[b].paid.value)
  {
    RunKeepsInv(EMPTY, steps);
    RunKeepsPaid(EMPTY, steps);
    var s := Run(EMPTY, steps);
    if s.bills[b].paid.Some? { var a := PaidComesFrom(s, b); }
    forall a: BillId, amount: nat | (a, amount) in s.recorded && Ancestor(s.bills, s.next, a, b)
      ensures s.bills[b].paid.Some? && amount <= s.bills[b].paid.value
    {
      PaidGrowsAlongChain(s.bills, s.next, a, b);
    }
  }

  lemma {:induction false} PaidOnlyGrows(s: State, steps: seq<Step>, id: BillId)
    requires Inv(s) && Possible(s, steps) && id in s.bills
    ensures id in Run(s, steps).bills && PaidSoFar(s.bills[id]) <= PaidSoFar(Run(s, steps).bills[id])
    decreases |steps|
  {
    if steps != [] {
      var s' := Next(s, steps[0]);
      StepKeepsInv(s, steps[0]);
      StepGrowsPaid(s, steps[0], id);
      PaidOnlyGrows(s', steps[1..], id);
    }
  }

  lemma StepGrowsPaid(s: State, step: Step, id: BillId)
    requires Inv(s) && CanStep(s, step) && id in s.bills
    ensures id in Next(s, step).bills && PaidSoFar(s.bills[id]) <= PaidSoFar(Next(s, step).bills[id])
  {
  }

  // Of two payments that read the same bill in the same state, at most one is
  // accepted: once the first is, the second stays refused for ever.
  lemma StalePaymentRefused(s: State, p: nat, q: nat, steps: seq<Step>)
    requires Inv(s) && CanStep(s, RecordPayment(p)) && StillSeen(s, s.payments[p]) && q in s.payments
    requires s.payments[q].id == s.payments[p].id && s.payments[q].seenPaid == s.payments[p].seenPaid
    requires Possible(Next(s, RecordPayment(p)), steps)
    ensures !StillSeen(Run(Next(s, RecordPayment(p)), steps), s.payments[q])
  {
    StepKeepsInv(s, RecordPayment(p));
    PaidOnlyGrows(Next(s, RecordPayment(p)), steps, s.payments[p].id);
  }

  // ── The handlers' code ────────────────────────────────────────────────────

  lemma {:induction false} RunThen(s: State, steps: seq<Step>, step: Step)
    requires Possible(s, steps) && CanStep(Run(s, steps), step)
    ensures Possible(s, steps + [step]) && Run(s, steps + [step]) == Next(Run(s, steps), step)
    decreases |steps|
  {
    if steps == [] {
      assert (steps + [step])[1..] == [];
    } else {
      assert (steps + [step])[1..] == steps[1..] + [step];
      RunThen(Next(s, steps[0]), steps[1..], step);
    }
  }

  lemma InSteps(s: State, a: Step, b: Step, c: Step)
    requires CanStep(s, a) && CanStep(Next(s, a), b) && CanStep(Next(Next(s, a), b), c)
    ensures Possible(s, [a, b, c]) && Run(s, [a, b, c]) == Next(Next(Next(s, a), b), c)
  {
    RunThen(s, [], a);
    RunThen(s, [a], b);
    assert [a] + [b] == [a, b];
    RunThen(s, [a, b], c);
    assert [a, b] + [c] == [a, b, c];
  }

  datatype Answer = Accepted | Overlapping | NotFound | Invalid | NotDue

  // Creating and revising are transactions that nothing comes between: the run
  // of their own steps. A payment is two steps.
  class BillLedger {
    var bills: map<BillId, Bill>
    var next: BillId
    var payments: map<nat, Payment>
    ghost var recorded: set<(BillId, nat)>

    ghost function Now(): State
      reads this
    {
      State(bills, next, None, payments, recorded)
    }

    constructor ()
      ensures Now() == EMPTY
    {
      bills, next, payments, recorded := map[], 0, map[], {};
    }

    // assertNoOverlappingBill
    method FindOverlap(v: Values, ignore: Option<BillId>) returns (found: bool)
      ensures found <==> Clashing(bills, v, ignore) != {}
      ensures found <==> exists id :: id in bills && Some(id) != ignore && !bills[id].status.Voided? && Overlap(bills[id].values, v)
    {
      var todo := bills.Keys;
      while todo != {}
        invariant todo <= bills.Keys
        invariant forall id :: id in bills && id !in todo ==> id !in Clashing(bills, v, ignore)
        invariant forall id :: id in bills && id !in todo ==> Some(id) == ignore || bills[id].status.Voided? || !Overlap(bills[id].values, v)
        decreases |todo|
      {
        var id :| id in todo;
        var b := bills[id];
        if b.values.contract == v.contract && b.values.kind == v.kind && !b.status.Voided?
           && b.values.start < v.end && b.values.end > v.start && Some(id) != ignore {
          assert id in Clashing(bills, v, ignore) && Overlap(b.values, v);
          return true;
        }
        todo := todo - {id};
      }
      found := false;
    }

    method CreateBill(v: Values) returns (r: Answer, id: BillId)
      modifies this`bills, this`next
      ensures r == if !Sane(v) then Invalid else if Clashing(old(bills), v, None) != {} then Overlapping else Accepted
      ensures r.Accepted? ==>
                var steps := [BeginCreate(v), CheckOverlap, Commit(id)];
                Possible(old(Now()), steps) && Now() == Run(old(Now()), steps)
      ensures bills == if r.Accepted? then old(bills)[id := Bill(v, None, Due, None)] else old(bills)
      ensures !r.Accepted? ==> Now() == old(Now())
    {
      id := next;
      if v.end <= v.start { return Invalid, id; }
      var clash := FindOverlap(v, None);
      if clash { return Overlapping, id; }
      InSteps(Now(), BeginCreate(v), CheckOverlap, Commit(id));
      bills := bills[id := Bill(v, None, Due, None)];
      next := next + 1;
      r := Accepted;
    }

    method ReviseBill(id: BillId, v: Values) returns (r: Answer, newId: BillId)
      modifies this`bills, this`next
      ensures r == if id !in old(bills) || !Live(old(bills)[id]) then NotFound
                   else if !Sane(v) then Invalid
                   else if Clashing(old(bills), v, Some(id)) != {} then Overlapping else Accepted
      ensures r.Accepted? ==>
                var steps := [BeginRevise(id, v), CheckOverlap, Commit(newId)];
                Possible(old(Now()), steps) && Now() == Run(old(Now()), steps)
      ensures r.Accepted? ==>
                && newId in bills && bills[newId].values == v && bills[newId].previous == Some(id)
                && bills[newId].paid == old(bills)[id].paid
                && (bills[newId].status.Due? <==> bills[newId].paid.None?)
                && (bills[newId].status.Paid? <==> bills[newId].paid.Some? && bills[newId].paid.value >= v.amount)
                && !bills[newId].status.Voided?
                && bills == old(bills)[id := old(bills)[id].(status := Voided)][newId := bills[newId]]
      ensures !r.Accepted? ==> Now() == old(Now())
    {
      newId := next;
      if id !in bills || bills[id].status.Voided? { return NotFound, newId; }
      if v.end <= v.start { return Invalid, newId; }
      var clash := FindOverlap(v, Some(id));
      if clash { return Overlapping, newId; }
      InSteps(Now(), BeginRevise(id, v), CheckOverlap, Commit(newId));
      var paid := bills[id].paid;
      bills := bills[id := bills[id].(status := Voided)];
      bills := bills[newId := Bill(v, paid, if paid.None? then Due else if paid.value >= v.amount then Paid else PartiallyPaid,
                                   Some(id))];
      next := next + 1;
      r := Accepted;
    }

    // The first half of a payment: it must be positive and exceed what is paid
    // on a due bill.
    method ReadDue(p: nat, id: BillId, amount: nat) returns (r: Answer)
      requires p !in payments
      modifies this`payments
      ensures r == if amount == 0 then Invalid
                   else if id !in bills || bills[id].status !in {Due, PartiallyPaid} then NotDue
                   else if amount <= PaidSoFar(bills[id]) then Invalid else Accepted
      ensures amount > 0 ==> Now() == Next(old(Now()), ReadForPayment(p, id, amount))
      ensures r.Accepted? ==>
                var b := old(bills)[id];
                payments == old(payments)[p := Payment(id, amount, b.status, b.paid, b.values.amount)]
      ensures !r.Accepted? ==> Now() == old(Now())
    {
      if amount == 0 { return Invalid; }
      if id !in bills || (!bills[id].status.Due? && !bills[id].status.PartiallyPaid?) { return NotDue; }
      var due := bills[id];
      if amount <= (if due.paid.Some? then due.paid.value else 0) { return Invalid; }
      payments := payments[p := Payment(id, amount, due.status, due.paid, due.values.amount)];
      r := Accepted;
    }

    // The second half, with anything in between.
    method PayDue(p: nat) returns (r: Answer)
      requires p in payments
      modifies this
      ensures r == if StillSeen(old(Now()), old(payments)[p]) then Accepted else NotDue
      ensures r.Accepted? <==>
                var pay := old(payments)[p];
                pay.id in old(bills) && old(bills)[pay.id].status == pay.seenStatus && old(bills)[pay.id].paid == pay.seenPaid
      ensures Now() == Next(old(Now()), RecordPayment(p))
      ensures payments == old(payments) - {p} && next == old(next)
      ensures r.Accepted? ==>
                var pay := old(payments)[p];
                && pay.id in bills && bills[pay.id].paid == Some(pay.amount)
                && bills[pay.id].status == (if pay.amount >= pay.due then Paid else PartiallyPaid)
                && bills == old(bills)[pay.id := old(bills)[pay.id].(paid := Some(pay.amount), status := bills[pay.id].status)]
                && recorded == old(recorded) + {(pay.id, pay.amount)}
      ensures !r.Accepted? ==> bills == old(bills) && recorded == old(recorded)
    {
      var pay := payments[p];
      payments := payments - {p};
      if pay.id !in bills || bills[pay.id].status != pay.seenStatus || bills[pay.id].paid != pay.seenPaid { return NotDue; }
      var status := if pay.amount >= pay.due then Paid else PartiallyPaid;
      bills := bills[pay.id := bills[pay.id].(paid := Some(pay.amount), status := status)];
      recorded := recorded + {(pay.id, pay.amount)};
      r := Accepted;
    }

    method VoidBill(id: BillId) returns (r: Answer)
      modifies this`bills
      ensures r == if CanStep(old(Now()), Step.VoidBill(id)) then Accepted else NotFound
      ensures r.Accepted? <==> id in old(bills) && !old(bills)[id].status.Voided?
      ensures bills == if r.Accepted? then old(bills)[id := old(bills)[id].(status := Voided)] else old(bills)
      ensures Now() == if r.Accepted? then Next(old(Now()), Step.VoidBill(id)) else old(Now())
    {
      if id !in bills || bills[id].status.Voided? { return NotFound; }
      bills := bills[id := bills[id].(status := Voided)];
      r := Accepted;
    }
  }
}
