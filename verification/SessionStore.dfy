// The session store: a session that was stored once is only ever updated, so a
// request that still holds it cannot bring a deleted row back. The marker that
// says so is set on the live object after its first save has come back.
module SessionStore {

  type Sid = nat
  type ObjectId = nat
  type OpId = nat
  type Instant = int

  // A session object in a request; persisted: its row has been stored.
  datatype Live = Live(sid: Sid, persisted: bool)

  // Statements on their way to the database, and a first save whose
  // acknowledgement is on its way back.
  datatype Op =
    | Insert(owner: ObjectId, expire: Instant)
    | Inserted(owner: ObjectId)
    | Update(sid: Sid, expire: Instant)      // a save of a stored session, or a touch
    | Delete(sid: Sid)

  // rows: the expiry of each stored session; known: ids ever generated;
  // gone: sessions whose stored row has been deleted
  datatype State = State(rows: map<Sid, Instant>, objects: map<ObjectId, Live>, ops: map<OpId, Op>,
                         known: set<Sid>, gone: set<Sid>)

  datatype Step =
    | Generate(o: ObjectId, sid: Sid)
    | Get(o: ObjectId, sid: Sid, now: Instant, op: OpId)
    | Save(o: ObjectId, expire: Instant, op: OpId)
    | Touch(o: ObjectId, expire: Instant, op: OpId)
    | Destroy(sid: Sid, op: OpId)
    | Run(op: OpId)
    | Fail(op: OpId)
    | Acknowledge(op: OpId)
    | Prune(now: Instant)
    | Restart

  const EMPTY := State(map[], map[], map[], {}, {})

  predicate CanStep(s: State, step: Step) {
    match step
    case Generate(o, sid) => o !in s.objects && sid !in s.known
    case Get(o, sid, _, op) => o !in s.objects && op !in s.ops
    case Save(o, _, op) => o in s.objects && op !in s.ops
    case Touch(o, _, op) => o in s.objects && op !in s.ops
    case Destroy(_, op) => op !in s.ops
    case Run(op) => op in s.ops && !s.ops[op].Inserted? && (s.ops[op].Insert? ==> s.ops[op].owner in s.objects)
    case Fail(op) => op in s.ops
    case Acknowledge(op) => op in s.ops && s.ops[op].Inserted? && s.ops[op].owner in s.objects
    case _ => true
  }

  function Queue(s: State, op: OpId, what: Op): State { s.(ops := s.ops[op := what]) }

  function Expired(rows: map<Sid, Instant>, now: Instant): set<Sid> { set sid | sid in rows && rows[sid] < now }

  function WithoutRows(s: State, dead: set<Sid>): State {
    s.(rows := s.rows - dead, gone := s.gone + (dead * s.rows.Keys))
  }

  // get: a live row gives a persisted object, an expired one is deleted lazily.
  function Got(s: State, o: ObjectId, sid: Sid, now: Instant, op: OpId): State {
    if sid !in s.rows then s
    else if s.rows[sid] <= now then Queue(s, op, Delete(sid))
    else s.(objects := s.objects[o := Live(sid, true)])
  }

  function Saved(s: State, o: ObjectId, expire: Instant, op: OpId): State
    requires o in s.objects
  {
    Queue(s, op, if s.objects[o].persisted then Update(s.objects[o].sid, expire) else Insert(o, expire))
  }

  function Ran(s: State, op: OpId): State
    requires CanStep(s, Run(op))
  {
    var done := s.(ops := s.ops - {op});
    match s.ops[op]
    case Insert(o, expire) =>
      Queue(s, op, Inserted(o)).(rows := s.rows[s.objects[o].sid := expire])
    case Update(sid, expire) => if sid in s.rows then done.(rows := s.rows[sid := expire]) else done
    case Delete(sid) => WithoutRows(done, {sid})
    case Inserted(_) => s
  }

  function Next(s: State, step: Step): State
    requires CanStep(s, step)
  {
    match step
    case Generate(o, sid) => s.(objects := s.objects[o := Live(sid, false)], known := s.known + {sid})
    case Get(o, sid, now, op) => Got(s, o, sid, now, op)
    case Save(o, expire, op) => Saved(s, o, expire, op)
    case Touch(o, expire, op) => Queue(s, op, Update(s.objects[o].sid, expire))
    case Destroy(sid, op) => Queue(s, op, Delete(sid))
    case Run(op) => Ran(s, op)
    case Fail(op) => s.(ops := s.ops - {op})
    case Acknowledge(op) =>
      var o := s.ops[op].owner;
      s.(objects := s.objects[o := s.objects[o].(persisted := true)], ops := s.ops - {op})
    case Prune(now) => WithoutRows(s, Expired(s.rows, now))
    case Restart => s.(objects := map[], ops := map[])
  }

  // A session object has at most one unfinished first save, and the answer to
  // one that was stored is not lost.
  predicate OneFirstSave(s: State, step: Step)
    requires CanStep(s, step)
  {
    match step
    case Save(o, _, _) => !s.objects[o].persisted ==> Unfinished(s, o) == {}
    case Fail(op) => !s.ops[op].Inserted?
    case _ => true
  }

  function Unfinished(s: State, o: ObjectId): set<OpId> {
    set op | op in s.ops && (s.ops[op].Insert? || s.ops[op].Inserted?) && s.ops[op].owner == o
  }

  // ── Invariant ─────────────────────────────────────────────────────────────

  predicate Stored(s: State, sid: Sid) { sid in s.rows || sid in s.gone }

  predicate FirstSave(op: Op) { op.Insert? || op.Inserted? }

  // Only the request that generated a session has it unmarked.
  ghost predicate ObjectsOk(s: State) {
    && (forall o :: o in s.objects ==> s.objects[o].sid in s.known)
    && (forall o, x :: (o in s.objects && x in s.objects && !s.objects[o].persisted && !s.objects[x].persisted
                        && s.objects[o].sid == s.objects[x].sid) ==> o == x)
  }

  // A first save on its way belongs to an unmarked object that nobody stored.
  ghost predicate SavesOk(s: State) {
    && (forall op :: op in s.ops && FirstSave(s.ops[op]) ==>
          s.ops[op].owner in s.objects && !s.objects[s.ops[op].owner].persisted)
    && (forall a, b :: (a in s.ops && b in s.ops && FirstSave(s.ops[a]) && FirstSave(s.ops[b])
                        && s.ops[a].owner == s.ops[b].owner) ==> a == b)
    && (forall op :: op in s.ops && s.ops[op].Insert? ==> !Stored(s, s.objects[s.ops[op].owner].sid))
  }

  // An unmarked object whose row was stored is waiting for the answer.
  ghost predicate AnswersDue(s: State) {
    forall o :: o in s.objects && !s.objects[o].persisted && Stored(s, s.objects[o].sid) ==> Unfinished(s, o) != {}
  }

  ghost predicate Inv(s: State) {
    && ObjectsOk(s) && SavesOk(s) && AnswersDue(s)
    && s.rows.Keys <= s.known && s.gone <= s.known
    && s.rows.Keys !! s.gone
  }

  lemma StillDue(s: State, s': State, except: set<OpId>, o: ObjectId)
    requires forall op :: op in s.ops && op !in except ==> op in s'.ops && s'.ops[op] == s.ops[op]
    requires Unfinished(s, o) - except != {}
    ensures Unfinished(s', o) != {}
  {
    var op :| op in Unfinished(s, o) - except;
    assert op in Unfinished(s', o);
  }

  lemma SaveKeepsInv(s: State, o: ObjectId, expire: Instant, op: OpId)
    requires Inv(s) && CanStep(s, Save(o, expire, op)) && OneFirstSave(s, Save(o, expire, op))
    ensures Inv(Next(s, Save(o, expire, op)))
  {
    var s' := Next(s, Save(o, expire, op));
    forall x | x in s.objects && Unfinished(s, x) != {} ensures Unfinished(s', x) != {} { StillDue(s, s', {}, x); }
    assert forall a :: a in s.ops && FirstSave(s.ops[a]) && s.ops[a].owner == o ==> a in Unfinished(s, o);
  }

  lemma InsertKeepsInv(s: State, op: OpId)
    requires Inv(s) && CanStep(s, Run(op)) && s.ops[op].Insert?
    ensures Inv(Next(s, Run(op)))
  {
    var s' := Next(s, Run(op));
    var o := s.ops[op].owner;
    assert op in Unfinished(s', o);
    forall x | x in s.objects && x != o && Unfinished(s, x) != {} ensures Unfinished(s', x) != {} {
      assert op !in Unfinished(s, x);
      StillDue(s, s', {op}, x);
    }
  }

  lemma EndKeepsInv(s: State, step: Step, op: OpId)
    requires Inv(s) && CanStep(s, step) && OneFirstSave(s, step) && (step == Fail(op) || step == Acknowledge(op))
    ensures Inv(Next(s, step))
  {
    var s' := Next(s, step);
    forall x | x in s.objects && Unfinished(s, x) != {} && op !in Unfinished(s, x) ensures Unfinished(s', x) != {} {
      StillDue(s, s', {op}, x);
    }
  }

  lemma OtherRunKeepsInv(s: State, op: OpId)
    requires Inv(s) && CanStep(s, Run(op)) && !s.ops[op].Insert?
    ensures Inv(Next(s, Run(op)))
  {
    var s' := Next(s, Run(op));
    forall x | x in s.objects && Unfinished(s, x) != {} ensures Unfinished(s', x) != {} {
      assert op !in Unfinished(s, x);
      StillDue(s, s', {op}, x);
    }
  }

  lemma GenerateKeepsInv(s: State, o: ObjectId, sid: Sid)
    requires Inv(s) && CanStep(s, Generate(o, sid))
    ensures Inv(Next(s, Generate(o, sid)))
  {
    var s' := Next(s, Generate(o, sid));
    forall x | x in s.objects && Unfinished(s, x) != {} ensures Unfinished(s', x) != {} { StillDue(s, s', {}, x); }
  }

  lemma GetKeepsInv(s: State, o: ObjectId, sid: Sid, now: Instant, op: OpId)
    requires Inv(s) && CanStep(s, Get(o, sid, now, op))
    ensures Inv(Next(s, Get(o, sid, now, op)))
  {
    var s' := Next(s, Get(o, sid, now, op));
    forall x | x in s.objects && Unfinished(s, x) != {} ensures Unfinished(s', x) != {} { StillDue(s, s', {}, x); }
  }

  lemma QuietKeepsInv(s: State, step: Step)
    requires Inv(s) && CanStep(s, step)
    requires step.Touch? || step.Destroy? || step.Prune? || step.Restart?
    ensures Inv(Next(s, step))
  {
    var s' := Next(s, step);
    forall x | x in s.objects && Unfinished(s, x) != {} && !step.Restart? ensures Unfinished(s', x) != {} {
      StillDue(s, s', {}, x);
    }
  }

  lemma StepKeepsInv(s: State, step: Step)
    requires Inv(s) && CanStep(s, step) && OneFirstSave(s, step)
    ensures Inv(Next(s, step))
  {
    match step
    case Save(o, expire, op) => SaveKeepsInv(s, o, expire, op);
    case Run(op) => if s.ops[op].Insert? { InsertKeepsInv(s, op); } else { OtherRunKeepsInv(s, op); }
    case Fail(op) => EndKeepsInv(s, step, op);
    case Acknowledge(op) => EndKeepsInv(s, step, op);
    case Generate(o, sid) => GenerateKeepsInv(s, o, sid);
    case Get(o, sid, now, op) => GetKeepsInv(s, o, sid, now, op);
    case _ => QuietKeepsInv(s, step);
  }

  // ── Whole runs ────────────────────────────────────────────────────────────

  ghost predicate Possible(s: State, steps: seq<Step>)
    decreases |steps|
  {
    steps == [] || (CanStep(s, steps[0]) && Possible(Next(s, steps[0]), steps[1..]))
  }

  function After(s: State, steps: seq<Step>): State
    requires Possible(s, steps)
    decreases |steps|
  {
    if steps == [] then s else After(Next(s, steps[0]), steps[1..])
  }

  ghost predicate OneFirstSaveEach(s: State, steps: seq<Step>)
    requires Possible(s, steps)
    decreases |steps|
  {
    steps == [] || (OneFirstSave(s, steps[0]) && OneFirstSaveEach(Next(s, steps[0]), steps[1..]))
  }

  lemma {:induction false} RunKeepsInv(s: State, steps: seq<Step>)
    requires Inv(s) && Possible(s, steps) && OneFirstSaveEach(s, steps)
    ensures Inv(After(s, steps)) && s.gone <= After(s, steps).gone
    decreases |steps|
  {
    if steps != [] {
      StepKeepsInv(s, steps[0]);
      RunKeepsInv(Next(s, steps[0]), steps[1..]);
    }
  }

  // A session whose row was deleted by revoke, expiry or prune never comes back,
  // whatever the requests that had loaded it still save or touch.
  lemma DeletedStaysDeleted(early: seq<Step>, late: seq<Step>, sid: Sid)
    requires Possible(EMPTY, early) && OneFirstSaveEach(EMPTY, early) && sid in After(EMPTY, early).gone
    requires Possible(After(EMPTY, early), late) && OneFirstSaveEach(After(EMPTY, early), late)
    ensures sid !in After(After(EMPTY, early), late).rows
  {
    RunKeepsInv(EMPTY, early);
    RunKeepsInv(After(EMPTY, early), late);
  }

  // ── When a deleted session can come back ──────────────────────────────────

  // A session without a row gets one exactly by a first save.
  lemma OnlyFirstSavesCreate(s: State, step: Step, sid: Sid)
    requires CanStep(s, step) && sid !in s.rows
    ensures sid in Next(s, step).rows <==>
            && step.Run? && s.ops[step.op].Insert? && s.objects[s.ops[step.op].owner].sid == sid
  {
  }

  // A first save of the session is on its way to the database.
  ghost predicate InsertDue(s: State, sid: Sid) {
    exists op :: op in s.ops && s.ops[op].Insert? && s.ops[op].owner in s.objects && s.objects[s.ops[op].owner].sid == sid
  }

  // A request holds the session and does not know that it was stored: its next
  // save takes the branch that inserts.
  ghost predicate Unmarked(s: State, sid: Sid) {
    exists o :: o in s.objects && s.objects[o].sid == sid && !s.objects[o].persisted
  }

  lemma StaysAway(s: State, step: Step, sid: Sid)
    requires CanStep(s, step) && sid in s.known && sid !in s.rows && !InsertDue(s, sid) && !Unmarked(s, sid)
    ensures sid in Next(s, step).known && sid !in Next(s, step).rows && !InsertDue(Next(s, step), sid) && !Unmarked(Next(s, step), sid)
  {
    var s' := Next(s, step);
    OnlyFirstSavesCreate(s, step, sid);
    forall o | o in s'.objects && s'.objects[o].sid == sid ensures s'.objects[o].persisted {
      if o in s.objects && s.objects[o].sid == sid { assert s.objects[o].persisted; }
    }
    forall op | op in s'.ops && s'.ops[op].Insert? && s'.ops[op].owner in s'.objects
      ensures s'.objects[s'.ops[op].owner].sid != sid
    {
      NoInsertAppears(s, step, sid, op);
    }
  }

  lemma NoInsertAppears(s: State, step: Step, sid: Sid, op: OpId)
    requires CanStep(s, step) && sid in s.known && sid !in s.rows && !InsertDue(s, sid) && !Unmarked(s, sid)
    requires var s' := Next(s, step); op in s'.ops && s'.ops[op].Insert? && s'.ops[op].owner in s'.objects
    ensures var s' := Next(s, step); s'.objects[s'.ops[op].owner].sid != sid
  {
    var s' := Next(s, step);
    if op in s.ops && s.ops[op] == s'.ops[op] && s.ops[op].owner in s.objects {
      assert s.objects[s.ops[op].owner].sid != sid;
    }
  }

  lemma {:induction false} StaysAwayForGood(s: State, steps: seq<Step>, sid: Sid)
    requires Possible(s, steps) && sid in s.known && sid !in s.rows && !InsertDue(s, sid) && !Unmarked(s, sid)
    ensures sid !in After(s, steps).rows
    decreases |steps|
  {
    if steps != [] {
      StaysAway(s, steps[0], sid);
      StaysAwayForGood(Next(s, steps[0]), steps[1..], sid);
    }
  }

  lemma FreshOp(ids: set<OpId>) returns (id: OpId)
    ensures id !in ids
  {
    id := 0;
    var below: set<OpId> := {};
    while id in ids
      invariant below <= ids && forall i :: i in below ==> i < id
      decreases ids - below
    {
      below := below + {id};
      id := id + 1;
    }
  }

  lemma ComesBack(s: State, sid: Sid) returns (steps: seq<Step>)
    requires InsertDue(s, sid) || Unmarked(s, sid)
    ensures Possible(s, steps) && sid in After(s, steps).rows
  {
    if InsertDue(s, sid) {
      var op :| op in s.ops && s.ops[op].Insert? && s.ops[op].owner in s.objects && s.objects[s.ops[op].owner].sid == sid;
      RunThen(s, [], Run(op));
      steps := [Run(op)];
      assert [] + steps == steps;
    } else {
      var o :| o in s.objects && s.objects[o].sid == sid && !s.objects[o].persisted;
      var op := FreshOp(s.ops.Keys);
      InSteps(s, Save(o, 0, op), Run(op));
      steps := [Save(o, 0, op), Run(op)];
    }
  }

  // Once a session has no row, none of its continuations gives it one back
  // exactly if no first save of it is on its way and no request holds it
  // unmarked.
  lemma GoneForGoodExactly(s: State, sid: Sid)
    requires sid in s.known && sid !in s.rows
    ensures (forall steps :: Possible(s, steps) ==> sid !in After(s, steps).rows) <==> !InsertDue(s, sid) && !Unmarked(s, sid)
  {
    if InsertDue(s, sid) || Unmarked(s, sid) {
      var steps := ComesBack(s, sid);
    } else {
      forall steps | Possible(s, steps) ensures sid !in After(s, steps).rows { StaysAwayForGood(s, steps, sid); }
    }
  }

  // ── Two unfinished first saves ────────────────────────────────────────────

  lemma {:induction false} RunThen(s: State, steps: seq<Step>, step: Step)
    requires Possible(s, steps) && CanStep(After(s, steps), step)
    ensures Possible(s, steps + [step]) && After(s, steps + [step]) == Next(After(s, steps), step)
    decreases |steps|
  {
    if steps == [] {
      assert (steps + [step])[1..] == [];
    } else {
      assert (steps + [step])[1..] == steps[1..] + [step];
      RunThen(Next(s, steps[0]), steps[1..], step);
    }
  }

  lemma Then(steps: seq<Step>, s: State, step: Step) returns (steps': seq<Step>, s': State)
    requires Possible(EMPTY, steps) && After(EMPTY, steps) == s && CanStep(s, step)
    ensures Possible(EMPTY, steps') && After(EMPTY, steps') == s' && s' == Next(s, step)
  {
    RunThen(EMPTY, steps, step);
    steps', s' := steps + [step], Next(s, step);
  }

  // A second save that was queued before the first one was acknowledged brings
  // back a session revoked in between.
  lemma TwoFirstSavesResurrect() returns (steps: seq<Step>)
    ensures Possible(EMPTY, steps) && 9 in After(EMPTY, steps).gone && 9 in After(EMPTY, steps).rows
  {
    var s;
    steps, s := [], EMPTY;
    steps, s := Then(steps, s, Generate(0, 9));
    steps, s := Then(steps, s, Save(0, 100, 1));
    steps, s := Then(steps, s, Save(0, 100, 2));
    steps, s := Then(steps, s, Run(1));
    steps, s := Then(steps, s, Destroy(9, 3));
    steps, s := Then(steps, s, Run(3));
    assert 9 in s.gone;
    steps, s := Then(steps, s, Run(2));
  }

  // ── The store's code ──────────────────────────────────────────────────────

  // So does the next save after the answer to the first one was lost.
  lemma LostAnswerResurrects() returns (steps: seq<Step>)
    ensures Possible(EMPTY, steps) && 9 in After(EMPTY, steps).gone && 9 in After(EMPTY, steps).rows
  {
    var s;
    steps, s := [], EMPTY;
    steps, s := Then(steps, s, Generate(0, 9));
    steps, s := Then(steps, s, Save(0, 100, 1));
    steps, s := Then(steps, s, Run(1));
    steps, s := Then(steps, s, Fail(1));
    steps, s := Then(steps, s, Destroy(9, 3));
    steps, s := Then(steps, s, Run(3));
    assert 9 in s.gone;
    steps, s := Then(steps, s, Save(0, 100, 4));
    steps, s := Then(steps, s, Run(4));
  }

  lemma InSteps(s: State, a: Step, b: Step)
    requires CanStep(s, a) && CanStep(Next(s, a), b)
    ensures Possible(s, [a, b]) && After(s, [a, b]) == Next(Next(s, a), b)
    ensures forall c :: CanStep(Next(Next(s, a), b), c) ==>
              Possible(s, [a, b, c]) && After(s, [a, b, c]) == Next(Next(Next(s, a), b), c)
  {
    RunThen(s, [], a);
    RunThen(s, [a], b);
    assert [a] + [b] == [a, b];
    forall c | CanStep(Next(Next(s, a), b), c)
      ensures Possible(s, [a, b, c]) && After(s, [a, b, c]) == Next(Next(Next(s, a), b), c)
    {
      RunThen(s, [a, b], c);
      assert [a, b] + [c] == [a, b, c];
    }
  }

  // The session object of a request.
  class LiveSession {
    const sid: Sid
    var persisted: bool

    constructor (sid: Sid, persisted: bool)
      ensures this.sid == sid && this.persisted == persisted
    {
      this.sid, this.persisted := sid, persisted;
    }
  }

  // A store call sends its statement, the database runs it some time later, and
  // its answer comes back some time after that. Send, Execute and Answer are
  // these stretches; the store's own methods are calls that nothing comes between.
  class DrizzleSessionStore {
    var rows: map<Sid, Instant>
    var objects: map<ObjectId, LiveSession>
    var ops: map<OpId, Op>
    ghost var known: set<Sid>
    ghost var gone: set<Sid>

    ghost predicate Valid()
      reads this
    {
      forall o, x :: o in objects && x in objects && o != x ==> objects[o] != objects[x]
    }

    ghost function Now(): State
      reads this, objects.Values
    {
      State(rows, map o | o in objects :: Live(objects[o].sid, objects[o].persisted), ops, known, gone)
    }

    constructor ()
      ensures Valid() && Now() == EMPTY
    {
      rows, objects, ops, known, gone := map[], map[], map[], {}, {};
    }

    method Generate(o: ObjectId, sid: Sid)
      requires Valid() && CanStep(Now(), Step.Generate(o, sid))
      modifies this
      ensures Valid() && Now() == Next(old(Now()), Step.Generate(o, sid))
      ensures objects.Keys == old(objects).Keys + {o} && objects[o].sid == sid && !objects[o].persisted
      ensures rows == old(rows) && ops == old(ops)
    {
      var session := new LiveSession(sid, false);
      objects := objects[o := session];
      known := known + {sid};
    }

    method Send(op: OpId, what: Op)
      requires Valid() && op !in ops
      modifies this`ops
      ensures Valid() && Now() == Queue(old(Now()), op, what)
    {
      ops := ops[op := what];
    }

    // The database runs a statement.
    method Execute(op: OpId)
      requires Valid() && CanStep(Now(), Run(op))
      modifies this
      ensures Valid() && objects == old(objects) && Now() == Next(old(Now()), Run(op))
      ensures var what := old(ops)[op];
        && (what.Insert? ==> rows == old(rows)[old(objects[what.owner].sid) := what.expire])
        && (what.Update? ==> rows == if what.sid in old(rows) then old(rows)[what.sid := what.expire] else old(rows))
        && (what.Delete? ==> rows == old(rows) - {what.sid})
        && ops == (if what.Insert? then old(ops)[op := Inserted(what.owner)] else old(ops) - {op})
    {
      match ops[op]
      case Insert(o, expire) =>
        rows := rows[objects[o].sid := expire];
        ops := ops[op := Inserted(o)];
      case Update(sid, expire) =>
        if sid in rows { rows := rows[sid := expire]; }
        ops := ops - {op};
      case Delete(sid) =>
        gone := gone + ({sid} * rows.Keys);
        rows := rows - {sid};
        ops := ops - {op};
    }

    // The answer to a first save marks the live object.
    method Answer(op: OpId)
      requires Valid() && CanStep(Now(), Acknowledge(op))
      modifies this`ops, objects.Values
      ensures Valid() && Now() == Next(old(Now()), Acknowledge(op))
      ensures forall o :: o in objects ==>
                (objects[o].persisted <==> old(objects[o].persisted) || o == old(ops)[op].owner)
      ensures ops == old(ops) - {op}
    {
      objects[ops[op].owner].persisted := true;
      ops := ops - {op};
    }

    // A miss sends the delete of an expired row; a hit is persisted by definition.
    method Get(o: ObjectId, sid: Sid, now: Instant, op: OpId) returns (hit: bool)
      requires Valid() && CanStep(Now(), Step.Get(o, sid, now, op))
      modifies this
      ensures Valid() && Now() == Next(old(Now()), Step.Get(o, sid, now, op))
      ensures hit <==> sid in old(rows) && now < old(rows)[sid]
      ensures hit <==> o in objects
      ensures hit ==> objects[o].sid == sid && objects[o].persisted
      ensures rows == old(rows)
      ensures ops == if sid in old(rows) && old(rows)[sid] <= now then old(ops)[op := Delete(sid)] else old(ops)
    {
      if sid !in rows { return false; }
      if rows[sid] <= now {
        Send(op, Delete(sid));
        return false;
      }
      var session := new LiveSession(sid, true);
      objects := objects[o := session];
      hit := true;
    }

    // A stored session is only ever updated: without a row it stays without one.
    // Only the first save creates a row, and its answer marks the object.
    method Set(o: ObjectId, expire: Instant, op: OpId)
      requires Valid() && o in objects && op !in ops
      modifies this, objects.Values
      ensures var steps := if old(objects[o].persisted) then [Save(o, expire, op), Run(op)]
                           else [Save(o, expire, op), Run(op), Acknowledge(op)];
              Possible(old(Now()), steps) && Now() == After(old(Now()), steps)
      ensures objects == old(objects) && objects[o].persisted
      ensures objects[o].sid in rows <==> old(objects[o].sid in rows || !objects[o].persisted)
      ensures objects[o].sid in rows ==> rows[objects[o].sid] == expire
      ensures forall sid :: sid != objects[o].sid ==>
                (sid in rows <==> sid in old(rows)) && (sid in rows ==> rows[sid] == old(rows)[sid])
    {
      InSteps(Now(), Save(o, expire, op), Run(op));
      var first := !objects[o].persisted;
      Send(op, if first then Insert(o, expire) else Update(objects[o].sid, expire));
      Execute(op);
      if first { Answer(op); }
    }

    // A touch moves the expiry of a stored session and creates no row.
    method Touch(o: ObjectId, expire: Instant, op: OpId)
      requires Valid() && o in objects && op !in ops
      modifies this
      ensures Valid() && objects == old(objects)
      ensures var steps := [Step.Touch(o, expire, op), Run(op)];
              Possible(old(Now()), steps) && Now() == After(old(Now()), steps)
      ensures rows.Keys == old(rows).Keys && gone == old(gone)
      ensures ops == old(ops)
      ensures forall sid :: sid in rows ==> rows[sid] == if sid == objects[o].sid then expire else old(rows)[sid]
    {
      InSteps(Now(), Step.Touch(o, expire, op), Run(op));
      Send(op, Update(objects[o].sid, expire));
      Execute(op);
    }

    // A revoked session that was stored is gone: see DeletedStaysDeleted.
    method Destroy(sid: Sid, op: OpId)
      requires Valid() && op !in ops
      modifies this
      ensures Valid() && objects == old(objects)
      ensures var steps := [Step.Destroy(sid, op), Run(op)];
              Possible(old(Now()), steps) && Now() == After(old(Now()), steps)
      ensures sid !in rows && (sid in old(rows) ==> sid in gone)
      ensures rows == old(rows) - {sid} && ops == old(ops)
    {
      InSteps(Now(), Step.Destroy(sid, op), Run(op));
      Send(op, Delete(sid));
      Execute(op);
    }

    method PruneExpired(now: Instant) returns (removed: nat)
      requires Valid()
      modifies this`rows, this`gone
      ensures Now() == Next(old(Now()), Prune(now))
      ensures forall sid :: sid in old(rows) ==> (sid in rows <==> old(rows)[sid] >= now)
      ensures forall sid :: sid in rows ==> sid in old(rows) && rows[sid] == old(rows)[sid]
      ensures removed == |old(rows)| - |rows|
    {
      ghost var before := Now();
      var dead := Expired(rows, now);
      removed := |dead|;
      RemovedSize(rows, dead);
      gone := gone + dead * rows.Keys;
      rows := rows - dead;
      assert Now().objects == before.objects;
      assert Now() == WithoutRows(before, dead);
    }

    static lemma RemovedSize(rows: map<Sid, Instant>, dead: set<Sid>)
      requires dead <= rows.Keys
      ensures |dead| == |rows| - |rows - dead|
    {
      assert rows.Keys == (rows - dead).Keys + dead;
      assert |rows| == |rows.Keys| && |rows - dead| == |(rows - dead).Keys|;
    }
  }
}
