// Handing out VM ids. A deploy looks at every host and at the rows of pending
// deploys, one request after the other, and then picks an id and reserves it in
// one go; by then what it saw may be out of date. Reservations expire.
module VmidAllocation {

  type Vmid = nat
  type Host = nat
  type DeployId = nat

  const VMID_MIN := 100
  const TTL := 5 * 60 * 1000

  // q: when the id was picked; c: when the VM came into being; open: the
  // provisioning row is still pending
  datatype Phase =
    | Looking
    | Holding(v: Vmid, q: nat, recorded: bool, sent: bool)
    | Created(v: Vmid, q: nat, c: nat, open: bool)
    | Ended

  // hasRow: the deploy keeps a provisioning row. used, seen, read, startedAt:
  // what the current attempt has learnt, and when it began to look.
  datatype Deploy = Deploy(host: Host, hasRow: bool, phase: Phase, attempt: nat,
                           used: set<Vmid>, seen: set<Host>, read: bool, startedAt: nat)

  datatype State = State(
    now: nat, hosts: set<Host>, vms: set<(Host, Vmid)>, rows: map<DeployId, Vmid>,
    reservations: map<Vmid, nat>, deploys: map<DeployId, Deploy>)

  // How a create or clone call can fail.
  datatype Failure = NotSent | Rejected | Taken(keepRow: bool)

  datatype Step =
    | Wait(d: nat)
    | Outside(vm: (Host, Vmid))
    | Begin(id: DeployId, host: Host, hasRow: bool)
    | SeeHost(id: DeployId, h: Host)
    | ReadPending(id: DeployId)
    | Abort(id: DeployId)
    | Pick(id: DeployId, startAt: int)
    | Record(id: DeployId)
    | RecordFails(id: DeployId)
    | Send(id: DeployId)
    | Create(id: DeployId)
    | Fail(id: DeployId, why: Failure)
    | GiveUp(id: DeployId)
    | CloseRow(id: DeployId)
    | Destroy(id: DeployId)

  // ── Picking ───────────────────────────────────────────────────────────────

  function Active(reservations: map<Vmid, nat>, now: nat): set<Vmid> {
    set v | v in reservations && reservations[v] > now
  }

  function From(startAt: int): nat { if startAt > VMID_MIN then startAt else VMID_MIN }

  // The lowest free id at or above the start.
  ghost predicate LowestFree(taken: set<Vmid>, from: nat, v: Vmid) {
    from <= v && v !in taken && forall w :: from <= w < v ==> w in taken
  }

  ghost function LowestFreeId(taken: set<Vmid>, from: nat): (v: Vmid)
    ensures LowestFree(taken, from, v)
    decreases |taken|
  {
    if from !in taken then from
    else
      var v := LowestFreeId(taken - {from}, from + 1);
      assert LowestFree(taken, from, v) by {
        forall w | from <= w < v ensures w in taken {
          if w != from { assert w in taken - {from}; }
        }
      }
      v
  }

  // ── Steps ─────────────────────────────────────────────────────────────────

  predicate Claims(d: Deploy) { d.phase.Holding? || d.phase.Created? }

  predicate CanStep(s: State, step: Step) {
    match step
    case Wait(_) => true
    case Outside(vm) => vm.0 in s.hosts
    case Begin(id, host, _) => id !in s.deploys && host in s.hosts && id !in s.rows
    case SeeHost(id, h) => id in s.deploys && s.deploys[id].phase.Looking? && !s.deploys[id].read && h in s.hosts
    case ReadPending(id) =>
      id in s.deploys && s.deploys[id].phase.Looking? && !s.deploys[id].read && s.deploys[id].seen == s.hosts
    case Abort(id) => id in s.deploys && s.deploys[id].phase.Looking?
    case Pick(id, _) => id in s.deploys && s.deploys[id].phase.Looking? && s.deploys[id].read
    case Record(id) => id in s.deploys && s.deploys[id].phase.Holding? && !s.deploys[id].phase.recorded
    case RecordFails(id) =>
      id in s.deploys && s.deploys[id].phase.Holding? && !s.deploys[id].phase.recorded && s.deploys[id].hasRow
    case Send(id) => id in s.deploys && s.deploys[id].phase.Holding? && s.deploys[id].phase.recorded
    case Create(id) =>
      && id in s.deploys && s.deploys[id].phase.Holding? && s.deploys[id].phase.sent
      && (s.deploys[id].host, s.deploys[id].phase.v) !in s.vms
    case Fail(id, why) =>
      && id in s.deploys && s.deploys[id].phase.Holding? && s.deploys[id].phase.recorded
      && (why.NotSent? <==> !s.deploys[id].phase.sent)
    case GiveUp(id) => id in s.deploys && s.deploys[id].phase.Holding? && s.deploys[id].phase.sent
    case CloseRow(id) => id in s.deploys && s.deploys[id].phase.Created? && s.deploys[id].phase.open
    case Destroy(id) => id in s.deploys && s.deploys[id].phase.Created?
  }

  function SeenOn(s: State, h: Host): set<Vmid> { set vm | vm in s.vms && vm.0 == h :: vm.1 }

  function Set(s: State, id: DeployId, d: Deploy): State { s.(deploys := s.deploys[id := d]) }

  function InPhase(s: State, id: DeployId, p: Phase): State
    requires id in s.deploys
  {
    Set(s, id, s.deploys[id].(phase := p))
  }

  function NoRow(s: State, id: DeployId): State { s.(rows := s.rows - {id}) }

  function Released(s: State, v: Vmid): State { s.(reservations := s.reservations - {v}) }

  // withFreshVmid after its call failed: hand the id back if the call cannot
  // have created anything, and try once more if the id was taken.
  function Failed(s: State, id: DeployId, why: Failure): State
    requires id in s.deploys && s.deploys[id].phase.Holding?
  {
    var d := s.deploys[id];
    match why
    case Taken(keepRow) =>
      if d.attempt == 0 then Set(s, id, d.(phase := Looking, attempt := 1, used := {}, seen := {}, read := false, startedAt := s.now))
      else InPhase(if keepRow then s else NoRow(s, id), id, Ended)
    case _ => InPhase(NoRow(Released(s, d.phase.v), id), id, Ended)
  }

  ghost function Next(s: State, step: Step): State
    requires CanStep(s, step)
  {
    match step
    case Wait(d) => s.(now := s.now + d)
    case Outside(vm) => s.(vms := s.vms + {vm})
    case Begin(id, host, hasRow) => Set(s, id, Deploy(host, hasRow, Looking, 0, {}, {}, false, s.now))
    case SeeHost(id, h) =>
      var d := s.deploys[id];
      Set(s, id, d.(used := d.used + SeenOn(s, h), seen := d.seen + {h}))
    case ReadPending(id) =>
      var d := s.deploys[id];
      Set(s, id, d.(used := d.used + s.rows.Values, read := true))
    case Abort(id) => InPhase(NoRow(s, id), id, Ended)
    case Pick(id, startAt) =>
      var v := LowestFreeId(s.deploys[id].used + Active(s.reservations, s.now), From(startAt));
      InPhase(s.(reservations := s.reservations[v := s.now + TTL]), id, Holding(v, s.now, false, false))
    case Record(id) =>
      var d := s.deploys[id];
      var s' := if d.hasRow then s.(rows := s.rows[id := d.phase.v]) else s;
      InPhase(s', id, d.phase.(recorded := true))
    case RecordFails(id) => InPhase(NoRow(Released(s, s.deploys[id].phase.v), id), id, Ended)
    case Send(id) => InPhase(s, id, s.deploys[id].phase.(sent := true))
    case Create(id) =>
      var d := s.deploys[id];
      InPhase(s.(vms := s.vms + {(d.host, d.phase.v)}), id, Created(d.phase.v, d.phase.q, s.now, d.hasRow))
    case Fail(id, why) => Failed(s, id, why)
    case GiveUp(id) => InPhase(NoRow(s, id), id, Ended)
    case CloseRow(id) => InPhase(NoRow(s, id), id, s.deploys[id].phase.(open := false))
    case Destroy(id) =>
      var d := s.deploys[id];
      InPhase(s.(vms := s.vms - {(d.host, d.phase.v)}), id, Ended)
  }

  // ── What each step changes ────────────────────────────────────────────────

  // An id is reserved by the pick that chose it, for one lifetime, and handed
  // back when its row cannot be written or the call was refused or never sent.
  lemma ReservationsExactly(s: State, step: Step, v: Vmid)
    requires CanStep(s, step)
    ensures var after := Next(s, step).reservations;
      var picked := step.Pick? && LowestFree(s.deploys[step.id].used + Active(s.reservations, s.now), From(step.startAt), v);
      var handedBack := (step.RecordFails? || (step.Fail? && !step.why.Taken?)) && s.deploys[step.id].phase.v == v;
      && (v in after <==> picked || (v in s.reservations && !handedBack))
      && (v in after ==> after[v] == if picked then s.now + TTL else s.reservations[v])
  {
  }

  // A deploy's row is written once its id is known and goes when the deploy
  // ends or its row is closed; the first "already taken" keeps it.
  lemma RowsExactly(s: State, step: Step, id: DeployId)
    requires CanStep(s, step)
    ensures var after := Next(s, step).rows;
      var written := step == Record(id) && s.deploys[id].hasRow;
      var closed := || step == Abort(id) || step == RecordFails(id) || step == GiveUp(id) || step == CloseRow(id)
                    || (step.Fail? && step.id == id && (step.why.Taken? ==> s.deploys[id].attempt > 0 && !step.why.keepRow));
      && (id in after <==> written || (id in s.rows && !closed))
      && (id in after ==> after[id] == if written then s.deploys[id].phase.v else s.rows[id])
  {
  }

  // A deploy looks again exactly after its first "taken", with nothing learnt
  // kept; any other failure ends it.
  lemma RetriesExactly(s: State, id: DeployId, why: Failure)
    requires CanStep(s, Fail(id, why))
    ensures var d, d' := s.deploys[id], Next(s, Fail(id, why)).deploys[id];
      if why.Taken? && d.attempt == 0
      then d' == Deploy(d.host, d.hasRow, Looking, 1, {}, {}, false, s.now)
      else d'.phase == Ended
  {
  }

  lemma VmsExactly(s: State, step: Step, vm: (Host, Vmid))
    requires CanStep(s, step)
    ensures var own := (step.Create? || step.Destroy?) && vm == (s.deploys[step.id].host, s.deploys[step.id].phase.v);
      vm in Next(s, step).vms <==> step == Outside(vm) || (step.Create? && own) || (vm in s.vms && !(step.Destroy? && own))
  {
  }

  // A look learns every id on the host it reads, and then every id of the rows.
  lemma LooksExactly(s: State, id: DeployId, h: Host, v: Vmid)
    ensures CanStep(s, SeeHost(id, h)) ==>
      var d := Next(s, SeeHost(id, h)).deploys[id];
      (v in d.used <==> v in s.deploys[id].used || (h, v) in s.vms) && d.seen == s.deploys[id].seen + {h} && !d.read
    ensures CanStep(s, ReadPending(id)) ==>
      var d := Next(s, ReadPending(id)).deploys[id];
      (v in d.used <==> v in s.deploys[id].used || exists other :: other in s.rows && s.rows[other] == v) && d.read
  {
  }

  // ── Timing ────────────────────────────────────────────────────────────────

  // Looking never takes longer than `age`, recording the row no longer than
  // `delay`, and a deploy without a row creates its VM while its reservation
  // outlives any look that is under way.
  datatype Limits = Limits(age: nat, delay: nat)

  predicate Sensible(l: Limits) { l.age + l.delay < TTL }

  predicate DeployInTime(now: nat, l: Limits, d: Deploy) {
    && (d.phase.Looking? ==> now <= d.startedAt + l.age)
    && (d.phase.Holding? && !d.phase.recorded ==> now <= d.phase.q + l.delay)
    && (d.phase.Holding? && !d.hasRow ==> now + l.age < d.phase.q + TTL)
  }

  ghost predicate InTime(s: State, l: Limits) {
    forall id :: id in s.deploys ==> DeployInTime(s.now, l, s.deploys[id])
  }

  // A row is closed long after a late creation, or the creation was not late.
  predicate ClosesInTime(s: State, step: Step, l: Limits)
    requires CanStep(s, step)
  {
    step.CloseRow? ==>
      var p := s.deploys[step.id].phase;
      p.c + l.age < p.q + TTL || p.c + l.age < s.now
  }

  // ── Invariant ─────────────────────────────────────────────────────────────

  ghost predicate DeployOk(s: State, id: DeployId)
    requires id in s.deploys
  {
    var d := s.deploys[id];
    && d.host in s.hosts && d.startedAt <= s.now
    && (d.phase.Looking? && d.read ==> d.seen == s.hosts)
    && (Claims(d) ==>
          && d.phase.q <= s.now
          && (s.now < d.phase.q + TTL ==> d.phase.v in s.reservations && s.reservations[d.phase.v] >= d.phase.q + TTL))
    && (d.phase.Holding? && d.phase.sent ==> d.phase.recorded)
    && (d.phase.Holding? && d.phase.recorded && d.hasRow ==> id in s.rows && s.rows[id] == d.phase.v)
    && (d.phase.Created? ==>
          && (d.host, d.phase.v) in s.vms && d.phase.q <= d.phase.c <= s.now
          && (d.phase.open ==> id in s.rows && s.rows[id] == d.phase.v))
  }

  // The claimed id cannot be the one f is going to pick: f knows it, or will
  // learn of it, or picks while the reservation lasts.
  ghost predicate Covered(s: State, l: Limits, f: Deploy, id: DeployId)
    requires id in s.deploys && Claims(s.deploys[id])
  {
    var d := s.deploys[id];
    || d.phase.v in f.used
    || f.startedAt + l.age < d.phase.q + TTL
    || (!f.read && id in s.rows && s.rows[id] == d.phase.v && (d.phase.Created? ==> d.phase.open) && (d.phase.Holding? ==> d.phase.recorded))
    || (d.phase.Created? && d.host !in f.seen)
  }

  // Who looked at the host without finding the VM looked before it came up.
  predicate LookedBefore(f: Deploy, d: Deploy) {
    d.phase.Created? && d.host in f.seen && d.phase.v !in f.used ==> f.startedAt <= d.phase.c
  }

  ghost predicate PairOk(s: State, l: Limits, f: DeployId, e: DeployId)
    requires f in s.deploys && e in s.deploys
  {
    var df, de := s.deploys[f], s.deploys[e];
    f != e && Claims(de) ==>
      && (Claims(df) ==> df.phase.v != de.phase.v)
      && (df.phase.Looking? ==> Covered(s, l, df, e) && LookedBefore(df, de))
  }

  ghost predicate Inv(s: State, l: Limits) {
    && (forall id :: id in s.deploys ==> DeployOk(s, id))
    && (forall f, e :: f in s.deploys && e in s.deploys ==> PairOk(s, l, f, e))
  }

  // ── Preservation, two deploys at a time ───────────────────────────────────

  ghost predicate Near(s: State, l: Limits, f: DeployId, e: DeployId) {
    && f in s.deploys && e in s.deploys
    && DeployOk(s, f) && DeployOk(s, e) && PairOk(s, l, f, e) && PairOk(s, l, e, f)
    && DeployInTime(s.now, l, s.deploys[f]) && DeployInTime(s.now, l, s.deploys[e])
  }

  // The deploy that takes the step.
  predicate Acts(step: Step, id: DeployId) {
    && !step.Wait? && !step.Outside? && !step.Begin? && !step.Pick?
    && step.id == id
  }

  lemma ActsOnItself(s: State, l: Limits, step: Step, id: DeployId)
    requires CanStep(s, step) && Acts(step, id) && id in s.deploys && DeployOk(s, id)
    ensures DeployOk(Next(s, step), id)
  {
  }

  lemma ActsOnOther(s: State, l: Limits, step: Step, id: DeployId, x: DeployId)
    requires CanStep(s, step) && Acts(step, id) && id != x && Near(s, l, id, x)
    ensures DeployOk(Next(s, step), x)
  {
  }

  // The actor as the one that looks.
  lemma LookerActs(s: State, l: Limits, step: Step, f: DeployId, e: DeployId)
    requires CanStep(s, step) && Acts(step, f) && f != e && Near(s, l, f, e) && Sensible(l)
    ensures PairOk(Next(s, step), l, f, e)
  {
  }

  // The actor as the one that claims.
  lemma ClaimantActs(s: State, l: Limits, step: Step, f: DeployId, e: DeployId)
    requires CanStep(s, step) && Acts(step, e) && f != e && Near(s, l, f, e) && Sensible(l)
    requires ClosesInTime(s, step, l)
    ensures PairOk(Next(s, step), l, f, e)
  {
  }

  lemma ThirdActs(s: State, l: Limits, step: Step, id: DeployId, f: DeployId, e: DeployId)
    requires CanStep(s, step) && Acts(step, id) && id != f && id != e && f != e && Near(s, l, f, e) && Near(s, l, id, e)
    ensures PairOk(Next(s, step), l, f, e)
  {
  }

  lemma ActKeepsInv(s: State, l: Limits, step: Step, id: DeployId)
    requires Inv(s, l) && InTime(s, l) && Sensible(l) && CanStep(s, step) && Acts(step, id) && ClosesInTime(s, step, l)
    ensures Inv(Next(s, step), l)
  {
    var s' := Next(s, step);
    assert id in s.deploys;
    forall x | x in s'.deploys ensures DeployOk(s', x) {
      if x == id { ActsOnItself(s, l, step, id); } else { ActsOnOther(s, l, step, id, x); }
    }
    forall f, e | f in s'.deploys && e in s'.deploys ensures PairOk(s', l, f, e) {
      if f != e {
        if f == id { LookerActs(s, l, step, f, e); }
        else if e == id { ClaimantActs(s, l, step, f, e); }
        else { ThirdActs(s, l, step, id, f, e); }
      }
    }
  }

  // ── The other steps ───────────────────────────────────────────────────────

  lemma WaitKeepsInv(s: State, l: Limits, d: nat)
    requires Inv(s, l)
    ensures Inv(Next(s, Wait(d)), l)
  {
  }

  lemma OutsideKeepsInv(s: State, l: Limits, vm: (Host, Vmid))
    requires Inv(s, l) && CanStep(s, Outside(vm))
    ensures Inv(Next(s, Outside(vm)), l)
  {
  }

  // A deploy that starts to look finds every claim in the rows, on its host, or
  // fresh enough to outlive the look.
  lemma BeginCovers(s: State, l: Limits, id: DeployId, host: Host, hasRow: bool, e: DeployId)
    requires CanStep(s, Begin(id, host, hasRow)) && Sensible(l)
    requires e in s.deploys && DeployOk(s, e) && DeployInTime(s.now, l, s.deploys[e])
    ensures PairOk(Next(s, Begin(id, host, hasRow)), l, id, e)
    ensures PairOk(Next(s, Begin(id, host, hasRow)), l, e, id)
  {
  }

  lemma BeginKeepsInv(s: State, l: Limits, id: DeployId, host: Host, hasRow: bool)
    requires Inv(s, l) && InTime(s, l) && Sensible(l) && CanStep(s, Begin(id, host, hasRow))
    ensures Inv(Next(s, Begin(id, host, hasRow)), l)
  {
    var s' := Next(s, Begin(id, host, hasRow));
    forall f, e | f in s'.deploys && e in s'.deploys ensures PairOk(s', l, f, e) {
      if f == id && e != id { BeginCovers(s, l, id, host, hasRow, e); }
      if e == id && f != id { BeginCovers(s, l, id, host, hasRow, f); }
      if f != id && e != id { assert PairOk(s, l, f, e); }
    }
    forall x | x in s'.deploys ensures DeployOk(s', x) {
      if x != id { assert DeployOk(s, x); }
    }
  }

  // The heart: no claimed id is free to pick.
  lemma PickAvoidsClaims(s: State, l: Limits, id: DeployId, startAt: int, e: DeployId)
    requires CanStep(s, Pick(id, startAt)) && e != id && Near(s, l, id, e)
    ensures Claims(s.deploys[e]) ==>
              s.deploys[e].phase.v in s.deploys[id].used + Active(s.reservations, s.now)
  {
  }

  lemma PickPairs(s: State, l: Limits, id: DeployId, startAt: int, f: DeployId, e: DeployId)
    requires CanStep(s, Pick(id, startAt)) && Sensible(l) && f != e && Near(s, l, f, e)
    requires f != id ==> Near(s, l, id, f)
    requires e != id ==> Near(s, l, id, e)
    ensures PairOk(Next(s, Pick(id, startAt)), l, f, e)
  {
    if e != id { PickAvoidsClaims(s, l, id, startAt, e); }
    if f != id { PickAvoidsClaims(s, l, id, startAt, f); }
  }

  lemma PickKeepsInv(s: State, l: Limits, id: DeployId, startAt: int)
    requires Inv(s, l) && InTime(s, l) && Sensible(l) && CanStep(s, Pick(id, startAt))
    ensures Inv(Next(s, Pick(id, startAt)), l)
  {
    var s' := Next(s, Pick(id, startAt));
    forall x | x in s'.deploys ensures DeployOk(s', x) {
      if x != id {
        PickAvoidsClaims(s, l, id, startAt, x);
        assert DeployOk(s, x);
      }
    }
    forall f, e | f in s'.deploys && e in s'.deploys ensures PairOk(s', l, f, e) {
      if f != e { PickPairs(s, l, id, startAt, f, e); }
    }
  }

  lemma StepKeepsInv(s: State, l: Limits, step: Step)
    requires Inv(s, l) && InTime(s, l) && Sensible(l) && CanStep(s, step) && ClosesInTime(s, step, l)
    ensures Inv(Next(s, step), l)
  {
    match step
    case Wait(d) => WaitKeepsInv(s, l, d);
    case Outside(vm) => OutsideKeepsInv(s, l, vm);
    case Begin(id, host, hasRow) => BeginKeepsInv(s, l, id, host, hasRow);
    case Pick(id, startAt) => PickKeepsInv(s, l, id, startAt);
    case _ => ActKeepsInv(s, l, step, step.id);
  }

  // ── Whole runs ────────────────────────────────────────────────────────────

  function Fresh(hosts: set<Host>, vms: set<(Host, Vmid)>): State { State(0, hosts, vms, map[], map[], map[]) }

  ghost predicate Possible(s: State, steps: seq<Step>)
    decreases |steps|
  {
    steps == [] || (CanStep(s, steps[0]) && Possible(Next(s, steps[0]), steps[1..]))
  }

  ghost function Run(s: State, steps: seq<Step>): State
    requires Possible(s, steps)
    decreases |steps|
  {
    if steps == [] then s else Run(Next(s, steps[0]), steps[1..])
  }

  // Every deploy meets the limits all along the run.
  ghost predicate Timely(s: State, steps: seq<Step>, l: Limits)
    requires Possible(s, steps)
    decreases |steps|
  {
    InTime(s, l) && (steps == [] || (ClosesInTime(s, steps[0], l) && Timely(Next(s, steps[0]), steps[1..], l)))
  }

  lemma {:induction false} RunKeepsInv(s: State, steps: seq<Step>, l: Limits)
    requires Inv(s, l) && Sensible(l) && Possible(s, steps) && Timely(s, steps, l)
    ensures Inv(Run(s, steps), l) && InTime(Run(s, steps), l)
    decreases |steps|
  {
    if steps != [] {
      StepKeepsInv(s, l, steps[0]);
      RunKeepsInv(Next(s, steps[0]), steps[1..], l);
    }
  }

  // ── Exactly when an id is handed out twice ────────────────────────────────

  // The id is not reserved any more.
  predicate RunOut(s: State, v: Vmid) { v in s.reservations ==> s.reservations[v] <= s.now }

  lemma PicksExactly(s: State, id: DeployId, startAt: int, v: Vmid)
    requires CanStep(s, Pick(id, startAt))
    ensures Next(s, Pick(id, startAt)).deploys[id].phase.v == v <==>
            && v >= From(startAt) && v !in s.deploys[id].used && RunOut(s, v)
            && (forall w :: From(startAt) <= w < v ==> w in s.deploys[id].used || !RunOut(s, w))
  {
    var used := s.deploys[id].used;
    var active := Active(s.reservations, s.now);
    var picked := LowestFreeId(used + active, From(startAt));
    assert LowestFree(used + active, From(startAt), picked);
    assert forall w :: w in active <==> !RunOut(s, w);
    assert forall w :: w in used + active <==> w in used || w in active;
    assert Next(s, Pick(id, startAt)).deploys[id].phase.v == picked;
  }

  // No two deploys have one id, whether they hold it or created a VM with it.
  ghost predicate Distinct(s: State) {
    forall a, b :: a in s.deploys && b in s.deploys && a != b && Claims(s.deploys[a]) && Claims(s.deploys[b])
      ==> s.deploys[a].phase.v != s.deploys[b].phase.v
  }

  // A pick for which another deploy has an id that the look did not see in use
  // and whose reservation has run out, while every lower id is used or reserved.
  ghost predicate Reuses(s: State, step: Step)
    requires CanStep(s, step)
  {
    step.Pick? && exists e :: e in s.deploys && e != step.id && Claims(s.deploys[e]) && Offers(s, step, s.deploys[e].phase.v)
  }

  ghost predicate Offers(s: State, step: Step, v: Vmid)
    requires CanStep(s, step) && step.Pick?
  {
    && v >= From(step.startAt) && v !in s.deploys[step.id].used && RunOut(s, v)
    && forall w :: From(step.startAt) <= w < v ==> w in s.deploys[step.id].used || !RunOut(s, w)
  }

  lemma PickKeepsDistinctExactly(s: State, id: DeployId, startAt: int)
    requires Distinct(s) && CanStep(s, Pick(id, startAt))
    ensures Distinct(Next(s, Pick(id, startAt))) <==> !Reuses(s, Pick(id, startAt))
  {
    var step := Pick(id, startAt);
    var s' := Next(s, step);
    var v := s'.deploys[id].phase.v;
    forall e | e in s.deploys && e != id && Claims(s.deploys[e]) ensures Offers(s, step, s.deploys[e].phase.v) <==> s.deploys[e].phase.v == v {
      PicksExactly(s, id, startAt, s.deploys[e].phase.v);
    }
    assert forall e :: e in s.deploys && e != id ==> s'.deploys[e] == s.deploys[e];
    if Reuses(s, step) {
      var e :| e in s.deploys && e != id && Claims(s.deploys[e]) && Offers(s, step, s.deploys[e].phase.v);
      assert Claims(s'.deploys[id]) && Claims(s'.deploys[e]) && s'.deploys[e].phase.v == v;
    }
  }

  lemma OtherStepKeepsDistinct(s: State, step: Step)
    requires Distinct(s) && CanStep(s, step) && !step.Pick?
    ensures Distinct(Next(s, step))
  {
    var s' := Next(s, step);
    forall e | e in s'.deploys && Claims(s'.deploys[e])
      ensures e in s.deploys && Claims(s.deploys[e]) && s.deploys[e].phase.v == s'.deploys[e].phase.v
    {
    }
  }

  lemma StepKeepsDistinctExactly(s: State, step: Step)
    requires Distinct(s) && CanStep(s, step)
    ensures Distinct(Next(s, step)) <==> !Reuses(s, step)
  {
    if step.Pick? { PickKeepsDistinctExactly(s, step.id, step.startAt); } else { OtherStepKeepsDistinct(s, step); }
  }

  ghost predicate AlwaysDistinct(s: State, steps: seq<Step>)
    requires Possible(s, steps)
    decreases |steps|
  {
    Distinct(s) && (steps == [] || AlwaysDistinct(Next(s, steps[0]), steps[1..]))
  }

  ghost predicate NoneReuses(s: State, steps: seq<Step>)
    requires Possible(s, steps)
    decreases |steps|
  {
    steps == [] || (!Reuses(s, steps[0]) && NoneReuses(Next(s, steps[0]), steps[1..]))
  }

  // Along every run ids are distinct exactly if no pick reuses one.
  lemma {:induction false} DistinctExactly(s: State, steps: seq<Step>)
    requires Distinct(s) && Possible(s, steps)
    ensures AlwaysDistinct(s, steps) <==> NoneReuses(s, steps)
    ensures NoneReuses(s, steps) ==> Distinct(Run(s, steps))
    decreases |steps|
  {
    if steps != [] {
      StepKeepsDistinctExactly(s, steps[0]);
      if !Reuses(s, steps[0]) { DistinctExactly(Next(s, steps[0]), steps[1..]); }
    }
  }

  lemma IdsAreDistinct(hosts: set<Host>, vms: set<(Host, Vmid)>, steps: seq<Step>, a: DeployId, b: DeployId)
    requires Possible(Fresh(hosts, vms), steps) && NoneReuses(Fresh(hosts, vms), steps)
    requires var s := Run(Fresh(hosts, vms), steps);
      a != b && a in s.deploys && b in s.deploys && Claims(s.deploys[a]) && Claims(s.deploys[b])
    ensures var s := Run(Fresh(hosts, vms), steps); s.deploys[a].phase.v != s.deploys[b].phase.v
  {
    DistinctExactly(Fresh(hosts, vms), steps);
  }

  // Within the time limits no pick meets the guard.
  lemma StepReusesNothing(s: State, l: Limits, step: Step)
    requires Inv(s, l) && InTime(s, l) && CanStep(s, step)
    ensures !Reuses(s, step)
  {
    if step.Pick? {
      forall e | e in s.deploys && e != step.id && Claims(s.deploys[e]) ensures !Offers(s, step, s.deploys[e].phase.v) {
        PickAvoidsClaims(s, l, step.id, step.startAt, e);
      }
    }
  }

  lemma {:induction false} TimelyRunReusesNothing(s: State, steps: seq<Step>, l: Limits)
    requires Inv(s, l) && Sensible(l) && Possible(s, steps) && Timely(s, steps, l)
    ensures NoneReuses(s, steps)
    decreases |steps|
  {
    if steps != [] {
      StepReusesNothing(s, l, steps[0]);
      StepKeepsInv(s, l, steps[0]);
      TimelyRunReusesNothing(Next(s, steps[0]), steps[1..], l);
    }
  }

  // An id handed out is at or above the start, free in what the deploy saw, and
  // neither held by another deploy nor that of a VM another deploy created,
  // however stale the look is within its limit.
  lemma PickedIdIsFree(hosts: set<Host>, vms: set<(Host, Vmid)>, steps: seq<Step>, l: Limits, id: DeployId, startAt: int)
    requires Sensible(l) && Possible(Fresh(hosts, vms), steps) && Timely(Fresh(hosts, vms), steps, l)
    requires CanStep(Run(Fresh(hosts, vms), steps), Pick(id, startAt))
    ensures var s := Run(Fresh(hosts, vms), steps);
      var v := Next(s, Pick(id, startAt)).deploys[id].phase.v;
      && v >= VMID_MIN && v >= startAt && v !in s.deploys[id].used
      && (forall e :: e in s.deploys && e != id && Claims(s.deploys[e]) ==> s.deploys[e].phase.v != v)
  {
    RunKeepsInv(Fresh(hosts, vms), steps, l);
    var s := Run(Fresh(hosts, vms), steps);
    forall e | e in s.deploys && e != id && Claims(s.deploys[e])
      ensures s.deploys[e].phase.v in s.deploys[id].used + Active(s.reservations, s.now)
    {
      PickAvoidsClaims(s, l, id, startAt, e);
    }
  }

  // ── Handing back ──────────────────────────────────────────────────────────

  lemma {:induction false} EndedForever(s: State, steps: seq<Step>, id: DeployId)
    requires Possible(s, steps) && id in s.deploys && s.deploys[id].phase.Ended?
    ensures id in Run(s, steps).deploys && Run(s, steps).deploys[id].phase.Ended?
    ensures Create(id) !in steps
    decreases |steps|
  {
    if steps != [] {
      assert id in Next(s, steps[0]).deploys && Next(s, steps[0]).deploys[id].phase.Ended?;
      EndedForever(Next(s, steps[0]), steps[1..], id);
      assert steps == [steps[0]] + steps[1..];
    }
  }

  // A reservation is only handed back by a deploy whose call was not sent or
  // was definitively refused: it had created nothing and never will.
  lemma HandedBackUnused(s: State, step: Step, v: Vmid, rest: seq<Step>) returns (id: DeployId)
    requires CanStep(s, step) && v in s.reservations && v !in Next(s, step).reservations
    requires Possible(Next(s, step), rest)
    ensures id in s.deploys && s.deploys[id].phase.Holding? && s.deploys[id].phase.v == v
    ensures step == RecordFails(id) || step == Fail(id, NotSent) || step == Fail(id, Rejected)
    ensures Next(s, step).vms == s.vms && Create(id) !in rest
  {
    id := step.id;
    EndedForever(Next(s, step), rest, id);
  }

  // ── The second attempt ────────────────────────────────────────────────────

  // After "taken", a deploy with a row still finds its first id in that row.
  ghost predicate KnowsFirst(s: State, id: DeployId, v: Vmid) {
    id in s.deploys && (s.deploys[id].phase.Looking? ==>
      if s.deploys[id].read then v in s.deploys[id].used else id in s.rows && s.rows[id] == v)
  }

  // Still on the second look, all along the run.
  ghost predicate Looks(s: State, steps: seq<Step>, id: DeployId)
    requires Possible(s, steps)
    decreases |steps|
  {
    id in s.deploys && s.deploys[id].phase.Looking? && (steps == [] || Looks(Next(s, steps[0]), steps[1..], id))
  }

  lemma {:induction false} FirstIsRemembered(s: State, steps: seq<Step>, id: DeployId, v: Vmid)
    requires Possible(s, steps) && Looks(s, steps, id) && KnowsFirst(s, id, v)
    ensures KnowsFirst(Run(s, steps), id, v) && id in Run(s, steps).deploys && Run(s, steps).deploys[id].phase.Looking?
    decreases |steps|
  {
    if steps != [] {
      var s' := Next(s, steps[0]);
      assert id in s'.deploys && s'.deploys[id].phase.Looking?;
      if !s'.deploys[id].read { assert !s.deploys[id].read; }
      FirstIsRemembered(s', steps[1..], id, v);
    }
  }

  // With a row, the retry gets another id however long it takes.
  lemma RetryWithRowDiffers(s: State, id: DeployId, keepRow: bool, look: seq<Step>, startAt: int)
    requires CanStep(s, Fail(id, Taken(keepRow))) && s.deploys[id].attempt == 0
    requires s.deploys[id].hasRow && DeployOk(s, id)
    requires Possible(Next(s, Fail(id, Taken(keepRow))), look) && Looks(Next(s, Fail(id, Taken(keepRow))), look, id)
    requires CanStep(Run(Next(s, Fail(id, Taken(keepRow))), look), Pick(id, startAt))
    ensures var s' := Run(Next(s, Fail(id, Taken(keepRow))), look);
      Next(s', Pick(id, startAt)).deploys[id].phase.v != s.deploys[id].phase.v
  {
    FirstIsRemembered(Next(s, Fail(id, Taken(keepRow))), look, id, s.deploys[id].phase.v);
  }

  // Without a row, the first reservation has to last: the retry picks the same
  // id exactly if that has run out, nothing the second look saw uses the id,
  // and every lower id from the start on is used or reserved.
  lemma RetryWithoutRow(s: State, id: DeployId, startAt: int, v: Vmid)
    requires CanStep(s, Pick(id, startAt))
    ensures Next(s, Pick(id, startAt)).deploys[id].phase.v == v <==>
            && v >= From(startAt) && v !in s.deploys[id].used && RunOut(s, v)
            && (forall w :: From(startAt) <= w < v ==> w in s.deploys[id].used || !RunOut(s, w))
  {
    PicksExactly(s, id, startAt, v);
  }

  // ── When the limits are not met ───────────────────────────────────────────

  lemma {:induction false} RunThen(s: State, steps: seq<Step>, step: Step)
    requires Possible(s, steps) && CanStep(Run(s, steps), step)
    ensures Possible(s, steps + [step]) && Run(s, steps + [step]) == Next(Run(s, steps), step)
    decreases |steps|
  {
    if steps == [] {
      assert (steps + [step])[1..] == [];
    } else {
      assert (steps + [step])[1..] == steps[1..] + [step];
      RunThen(Next(s, steps[0]), steps[1..], step);
    }
  }

  // One host without VMs.
  lemma Then(steps: seq<Step>, s: State, step: Step) returns (steps': seq<Step>, s': State)
    requires Possible(Fresh({0}, {}), steps) && Run(Fresh({0}, {}), steps) == s && CanStep(s, step)
    ensures Possible(Fresh({0}, {}), steps') && Run(Fresh({0}, {}), steps') == s' && s' == Next(s, step)
  {
    RunThen(Fresh({0}, {}), steps, step);
    steps', s' := steps + [step], Next(s, step);
  }

  const LOOKED := Deploy(0, true, Looking, 0, {}, {0}, true, 0)

  // Deploys 0 and 1 have both finished looking at time 0.
  lemma BothLooked() returns (steps: seq<Step>, s: State)
    ensures Possible(Fresh({0}, {}), steps) && Run(Fresh({0}, {}), steps) == s
    ensures s == State(0, {0}, {}, map[], map[], map[0 := LOOKED, 1 := LOOKED])
  {
    steps, s := [], Fresh({0}, {});
    steps, s := Then(steps, s, Begin(0, 0, true));
    steps, s := Then(steps, s, SeeHost(0, 0));
    steps, s := Then(steps, s, ReadPending(0));
    assert s.deploys[0] == LOOKED;
    steps, s := Then(steps, s, Begin(1, 0, true));
    steps, s := Then(steps, s, SeeHost(1, 0));
    steps, s := Then(steps, s, ReadPending(1));
    assert s.deploys[1] == LOOKED;
  }

  // A look that outlives the reservation hands out a held id again.
  lemma OldLookSharesId() returns (steps: seq<Step>)
    ensures Possible(Fresh({0}, {}), steps)
    ensures var s := Run(Fresh({0}, {}), steps);
      && 0 in s.deploys && 1 in s.deploys && s.deploys[0].phase.Holding? && s.deploys[1].phase.Holding?
      && s.deploys[0].phase.v == s.deploys[1].phase.v && s.deploys[0].phase.sent
  {
    var s;
    steps, s := BothLooked();
    assert s.deploys[0].used + Active(s.reservations, 0) == {};
    steps, s := Then(steps, s, Pick(0, 0));
    assert s.deploys[0].phase.v == VMID_MIN;
    steps, s := Then(steps, s, Record(0));
    steps, s := Then(steps, s, Send(0));
    steps, s := Then(steps, s, Wait(TTL));
    assert s.deploys[1] == LOOKED && LOOKED.used + Active(s.reservations, s.now) == {};
    steps, s := Then(steps, s, Pick(1, 0));
    assert s.deploys[1].phase.v == VMID_MIN;
  }
}
