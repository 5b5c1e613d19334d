// The revision numbers of a hardware's schedule and price policy: kept when the
// saved part has the same content, one higher otherwise. The handler reads the
// row, compares, and then writes if the row still has the client's version.
module PowerRevisions {
  import opened Options
  import opened JsonText
  import opened Json
  import opened JsonReading

  const VERSION: Text := [0x76, 0x65, 0x72, 0x73, 0x69, 0x6F, 0x6E]
  const ZERO := Number([0x30])

  // ── Comparing contents ────────────────────────────────────────────────────

  // {...members, key: value}
  function Put(members: Members, key: Text, value: Json): (r: Members)
    ensures Keys(r) == Keys(members) + {key}
  {
    match members
    case NoMembers => Member(key, value, NoMembers)
    case Member(k, v, rest) => if k == key then Member(k, value, rest) else Member(k, v, Put(rest, key, value))
  }

  function SameContent(a: Members, b: Members): bool {
    Canonical(Object(Put(a, VERSION, ZERO))) == Canonical(Object(Put(b, VERSION, ZERO)))
  }

  lemma {:induction false} PutLookup(members: Members, key: Text, value: Json, k: Text)
    ensures Lookup(Put(members, key, value), k) == if k == key then value else Lookup(members, k)
  {
    match members
    case NoMembers =>
    case Member(other, v, rest) => if other != key { PutLookup(rest, key, value, k); }
  }

  lemma {:induction false} PutMembers(members: Members, key: Text, value: Json)
    requires AreMembers(members) && IsJson(value)
    ensures AreMembers(Put(members, key, value))
  {
    match members
    case NoMembers =>
    case Member(other, v, rest) => if other != key { PutMembers(rest, key, value); }
  }

  lemma ZeroIsNumber()
    ensures IsJson(ZERO)
  {
    assert ZERO.token == [] + [0x30] + [] + [] && IntPart([0x30]) && FracPart([]) && ExpPart([]);
  }

  lemma SameMember(a: Members, b: Members, k: Text)
    ensures Same(Lookup(Put(a, VERSION, ZERO), k), Lookup(Put(b, VERSION, ZERO), k)) <==>
            k == VERSION || Same(Lookup(a, k), Lookup(b, k))
  {
    PutLookup(a, VERSION, ZERO, k);
    PutLookup(b, VERSION, ZERO, k);
  }

  lemma SameOnceVersioned(a: Members, b: Members)
    ensures Same(Object(Put(a, VERSION, ZERO)), Object(Put(b, VERSION, ZERO))) <==>
            forall k :: k != VERSION ==> Same(Lookup(a, k), Lookup(b, k))
  {
    var a', b' := Put(a, VERSION, ZERO), Put(b, VERSION, ZERO);
    if Same(Object(a'), Object(b')) {
      forall k | k != VERSION ensures Same(Lookup(a, k), Lookup(b, k)) {
        assert Same(Lookup(a', k), Lookup(b', k));
        SameMember(a, b, k);
      }
    } else {
      var k :| !Same(Lookup(a', k), Lookup(b', k));
      SameMember(a, b, k);
    }
  }

  // The comparison holds exactly when every member other than the version has
  // the same content, whatever the order of the keys.
  lemma SameContentExactly(a: Members, b: Members)
    requires AreMembers(a) && AreMembers(b)
    ensures SameContent(a, b) <==> forall k :: k != VERSION ==> Same(Lookup(a, k), Lookup(b, k))
  {
    ZeroIsNumber();
    PutMembers(a, VERSION, ZERO);
    PutMembers(b, VERSION, ZERO);
    CanonicalDecides(Object(Put(a, VERSION, ZERO)), Object(Put(b, VERSION, ZERO)));
    SameOnceVersioned(a, b);
  }

  // ── Revisions ─────────────────────────────────────────────────────────────

  // A stored part and its revision number.
  datatype Part = Part(content: Members, revision: nat)

  function Revise(existing: Option<Part>, input: Members): Part {
    if existing.Some? && SameContent(existing.value.content, input) then Part(input, existing.value.revision)
    else Part(input, (if existing.Some? then existing.value.revision else 0) + 1)
  }

  lemma RevisionKeptExactly(existing: Part, input: Members)
    requires AreMembers(existing.content) && AreMembers(input)
    ensures var next := Revise(Some(existing), input);
      && next.content == input
      && (next.revision == existing.revision || next.revision == existing.revision + 1)
      && (next.revision == existing.revision <==>
          forall k :: k != VERSION ==> Same(Lookup(existing.content, k), Lookup(input, k)))
  {
    SameContentExactly(existing.content, input);
  }

  // ── The handler, interleaved ──────────────────────────────────────────────

  // latched: the price latch is set; claimed: an action is in flight
  datatype Row = Row(schedule: Part, price: Part, version: nat, latched: bool, claimed: bool)

  datatype Progress = Opened | Compared(found: Option<Row>) | Answered(saved: bool)

  // A save with the version the client sent.
  datatype Save = Save(client: nat, schedule: Members, price: Members, at: Progress)

  datatype State = State(row: Option<Row>, saves: map<nat, Save>)

  // Claims, latches and the pause switch change the row, but neither part.
  datatype Step =
    | Open(id: nat, client: nat, schedule: Members, price: Members)
    | Compare(id: nat)
    | Write(id: nat)
    | Touch(bump: bool, latched: bool, claimed: bool)

  const NO_POLICY := State(None, map[])

  predicate CanStep(s: State, step: Step) {
    match step
    case Open(id, _, _, _) => id !in s.saves
    case Compare(id) => id in s.saves && s.saves[id].at.Opened?
    case Write(id) => id in s.saves && s.saves[id].at.Compared?
    case Touch(_, _, _) => s.row.Some?
  }

  function ScheduleOf(row: Option<Row>): Option<Part> { if row.Some? then Some(row.value.schedule) else None }

  function PriceOf(row: Option<Row>): Option<Part> { if row.Some? then Some(row.value.price) else None }

  // The write is accepted: an insert into no row, or an update of an unclaimed
  // row that has the client's version.
  predicate Accepts(row: Option<Row>, client: nat) {
    if client == 0 then row.None?
    else row.Some? && row.value.version == client && !row.value.claimed
  }

  function Written(row: Option<Row>, client: nat, schedule: Part, price: Part, samePrice: bool): Row {
    if row.None? then Row(schedule, price, 1, false, false)
    else Row(schedule, price, client + 1, row.value.latched && samePrice, row.value.claimed)
  }

  // What the write stores, given the row that was compared with.
  function Stored(row: Option<Row>, found: Option<Row>, save: Save): Row {
    Written(row, save.client, Revise(ScheduleOf(found), save.schedule), Revise(PriceOf(found), save.price),
            found.Some? && SameContent(found.value.price.content, save.price))
  }

  function Next(s: State, step: Step): State
    requires CanStep(s, step)
  {
    match step
    case Open(id, client, schedule, price) => s.(saves := s.saves[id := Save(client, schedule, price, Opened)])
    case Compare(id) => s.(saves := s.saves[id := s.saves[id].(at := Compared(s.row))])
    case Write(id) =>
      var save := s.saves[id];
      var accepted := Accepts(s.row, save.client);
      State(if accepted then Some(Stored(s.row, save.at.found, save)) else s.row,
            s.saves[id := save.(at := Answered(accepted))])
    case Touch(bump, latched, claimed) =>
      var row := s.row.value;
      s.(row := Some(row.(version := row.version + (if bump then 1 else 0), latched := latched, claimed := claimed)))
  }

  // The row a save compared with is outdated, or still the row's content.
  predicate Tracks(row: Option<Row>, found: Option<Row>) {
    found.Some? ==>
      && row.Some? && found.value.version <= row.value.version
      && (found.value.version == row.value.version ==>
            found.value.schedule == row.value.schedule && found.value.price == row.value.price)
  }

  predicate Tracked(s: State, id: nat) {
    id in s.saves && s.saves[id].at.Compared? ==> Tracks(s.row, s.saves[id].at.found)
  }

  // Whatever the others do, what a save compared with is outdated or current.
  lemma StepKeepsTracks(s: State, step: Step, id: nat)
    requires Tracked(s, id) && CanStep(s, step)
    ensures Tracked(Next(s, step), id)
  {
  }

  // The version the client names is one the compared row has had.
  predicate NamesKnown(client: nat, found: Option<Row>) {
    client == 0 || (found.Some? && client <= found.value.version)
  }

  // If this write is accepted, it stores what it would have stored had it
  // compared with the row it replaces: both revisions and the kept latch.
  predicate AgainstCurrentRow(s: State, id: nat) {
    id in s.saves && CanStep(s, Write(id)) && Accepts(s.row, s.saves[id].client) ==>
      Next(s, Write(id)).row == Some(Stored(s.row, s.row, s.saves[id]))
  }

  lemma SavedAgainstCurrentRow(s: State, id: nat)
    requires Tracked(s, id) && CanStep(s, Write(id)) && NamesKnown(s.saves[id].client, s.saves[id].at.found)
    ensures AgainstCurrentRow(s, id)
  {
  }

  ghost predicate Possible(s: State, steps: seq<Step>)
    decreases |steps|
  {
    steps == [] || (CanStep(s, steps[0]) && Possible(Next(s, steps[0]), steps[1..]))
  }

  function Run(s: State, steps: seq<Step>): State
    requires Possible(s, steps)
    decreases |steps|
  {
    if steps == [] then s else Run(Next(s, steps[0]), steps[1..])
  }

  lemma {:induction false} RunKeepsTracks(s: State, steps: seq<Step>, id: nat)
    requires Tracked(s, id) && Possible(s, steps)
    ensures Tracked(Run(s, steps), id)
    decreases |steps|
  {
    if steps != [] {
      StepKeepsTracks(s, steps[0], id);
      RunKeepsTracks(Next(s, steps[0]), steps[1..], id);
    }
  }

  // In every interleaving of saves: an accepted save by a client that names a
  // version of the compared row gives each part its revision back exactly for
  // unchanged content and the next one otherwise, and keeps the price latch
  // exactly while the price part is unchanged.
  lemma RevisionsFollowContent(steps: seq<Step>, id: nat)
    requires Possible(NO_POLICY, steps)
    requires var s := Run(NO_POLICY, steps);
      CanStep(s, Write(id)) && Accepts(s.row, s.saves[id].client) && s.row.Some?
      && NamesKnown(s.saves[id].client, s.saves[id].at.found)
    ensures var s := Run(NO_POLICY, steps);
      var before, after, save := s.row.value, Next(s, Write(id)).row, s.saves[id];
      && after.Some? && after.value.version == before.version + 1
      && after.value.schedule.content == save.schedule && after.value.price.content == save.price
      && Follows(before.schedule, after.value.schedule) && Follows(before.price, after.value.price)
      && (after.value.latched <==> before.latched && SameContent(before.price.content, save.price))
  {
    RunKeepsTracks(NO_POLICY, steps, id);
    var s := Run(NO_POLICY, steps);
    SavedAgainstCurrentRow(s, id);
    ReviseFollows(s.row.value.schedule, s.saves[id].schedule);
    ReviseFollows(s.row.value.price, s.saves[id].price);
  }

  // The next part's revision, given its content.
  ghost predicate Follows(before: Part, after: Part) {
    AreMembers(before.content) && AreMembers(after.content) ==>
      && (before.revision == after.revision || before.revision + 1 == after.revision)
      && (before.revision == after.revision <==>
          forall k :: k != VERSION ==> Same(Lookup(before.content, k), Lookup(after.content, k)))
  }

  lemma ReviseFollows(before: Part, input: Members)
    ensures Follows(before, Revise(Some(before), input))
  {
    if AreMembers(before.content) && AreMembers(input) { RevisionKeptExactly(before, input); }
  }

  // ── A client that guesses ─────────────────────────────────────────────────

  lemma {:induction false} RunThen(s: State, steps: seq<Step>, step: Step)
    requires Possible(s, steps) && CanStep(Run(s, steps), step)
    ensures Possible(s, steps + [step]) && Run(s, steps + [step]) == Next(Run(s, steps), step)
    decreases |steps|
  {
    if steps == [] {
      assert (steps + [step])[1..] == [];
    } else {
      assert (steps + [step])[1..] == steps[1..] + [step];
      RunThen(Next(s, steps[0]), steps[1..], step);
    }
  }

  lemma Then(s0: State, steps: seq<Step>, s: State, step: Step) returns (steps': seq<Step>, s': State)
    requires Possible(s0, steps) && Run(s0, steps) == s && CanStep(s, step)
    ensures Possible(s0, steps') && Run(s0, steps') == s' && s' == Next(s, step)
  {
    RunThen(s0, steps, step);
    steps', s' := steps + [step], Next(s, step);
  }

  const A: Text := [0x61]

  lemma {:induction false} SaveStays(s: State, steps: seq<Step>, id: nat)
    requires Possible(s, steps) && id in s.saves && !s.saves[id].at.Opened?
    ensures id in Run(s, steps).saves && (Run(s, steps).saves[id] == s.saves[id] || Run(s, steps).saves[id].at.Answered?)
    decreases |steps|
  {
    if steps != [] { SaveStays(Next(s, steps[0]), steps[1..], id); }
  }

  lemma FreshId(ids: set<nat>) returns (id: nat)
    ensures id !in ids
  {
    id := 0;
    var below: set<nat> := {};
    while id in ids
      invariant below <= ids && forall i :: i in below ==> i < id
      decreases ids - below
    {
      below := below + {id};
      id := id + 1;
    }
  }

  lemma DiffersAt(a: Members, b: Members, k: Text)
    requires AreMembers(a) && AreMembers(b) && k != VERSION && !Same(Lookup(a, k), Lookup(b, k))
    ensures !SameContent(a, b)
  {
    SameContentExactly(a, b);
  }

  lemma DifferentContents(x: Json, y: Json)
    requires IsJson(x) && IsJson(y) && !Same(x, y)
    ensures !SameContent(Member(A, x, NoMembers), Member(A, y, NoMembers))
  {
    assert |A| != |VERSION|;
    DiffersAt(Member(A, x, NoMembers), Member(A, y, NoMembers), A);
  }

  // Some content differs from two given ones.
  lemma ThirdContent(a: Members, b: Members) returns (c: Members)
    ensures !SameContent(a, c) && !SameContent(b, c)
  {
    var x, y, z := Member(A, Bool(true), NoMembers), Member(A, Bool(false), NoMembers), Member(A, Null, NoMembers);
    DifferentContents(Bool(true), Bool(false));
    DifferentContents(Bool(true), Null);
    DifferentContents(Bool(false), Null);
    c := if !SameContent(a, x) && !SameContent(b, x) then x
         else if !SameContent(a, y) && !SameContent(b, y) then y else z;
  }

  lemma {:induction false} Bumps(s0: State, steps: seq<Step>, s: State, n: nat) returns (steps': seq<Step>, s': State)
    requires Possible(s0, steps) && Run(s0, steps) == s && s.row.Some? && !s.row.value.claimed
    ensures Possible(s0, steps') && Run(s0, steps') == s' && s'.saves == s.saves && s'.row.Some?
    ensures s'.row.value == s.row.value.(version := s.row.value.version + n)
    decreases n
  {
    steps', s' := steps, s;
    if n > 0 {
      steps', s' := Then(s0, steps, s, Touch(true, s.row.value.latched, false));
      steps', s' := Bumps(s0, steps', s', n - 1);
    }
  }

  // Someone else saves content y, and the row comes to have the version that
  // this save named.
  lemma Overtake(s0: State, id: nat, y: Members) returns (steps: seq<Step>)
    requires id in s0.saves && s0.saves[id].at.Compared? && s0.saves[id].client > 0
    requires s0.row.Some? ==> 0 < s0.row.value.version < s0.saves[id].client
    ensures Possible(s0, steps)
    ensures var s := Run(s0, steps);
      && id in s.saves && s.saves[id] == s0.saves[id] && Accepts(s.row, s0.saves[id].client) && s.row.Some?
      && s.row.value.schedule == Revise(ScheduleOf(s0.row), y)
  {
    var s := s0;
    steps := [];
    var other := FreshId(s.saves.Keys);
    var version := if s.row.Some? then s.row.value.version else 0;
    if s.row.Some? { steps, s := Then(s0, steps, s, Touch(false, false, false)); }
    steps, s := Then(s0, steps, s, Open(other, version, y, y));
    steps, s := Then(s0, steps, s, Compare(other));
    steps, s := Then(s0, steps, s, Write(other));
    steps, s := Bumps(s0, steps, s, s0.saves[id].client - s.row.value.version);
  }

  lemma {:induction false} VersionsArePositive(s: State, steps: seq<Step>)
    requires Possible(s, steps) && (s.row.Some? ==> s.row.value.version > 0)
    ensures Run(s, steps).row.Some? ==> Run(s, steps).row.value.version > 0
    decreases |steps|
  {
    if steps != [] { VersionsArePositive(Next(s, steps[0]), steps[1..]); }
  }

  // All accepted continuations of a compare are numbered against the row they
  // replace exactly if the client names no version yet to come.
  lemma CompareSufficesExactly(before: seq<Step>, s: State, id: nat)
    requires Possible(NO_POLICY, before) && Run(NO_POLICY, before) == s && CanStep(s, Compare(id))
    ensures (forall steps :: Possible(Next(s, Compare(id)), steps) ==> AgainstCurrentRow(Run(Next(s, Compare(id)), steps), id))
            <==> NamesKnown(s.saves[id].client, s.row)
  {
    var s1 := Next(s, Compare(id));
    var save := s1.saves[id];
    if NamesKnown(save.client, s.row) {
      forall steps | Possible(s1, steps) ensures AgainstCurrentRow(Run(s1, steps), id) {
        SaveStays(s1, steps, id);
        RunKeepsTracks(s1, steps, id);
        if CanStep(Run(s1, steps), Write(id)) { SavedAgainstCurrentRow(Run(s1, steps), id); }
      }
    } else {
      VersionsArePositive(NO_POLICY, before);
      var y := ThirdContent(if s.row.Some? then s.row.value.schedule.content else save.schedule, save.schedule);
      var steps := Overtake(s1, id, y);
      Misnumbered(Run(s1, steps), id, y);
    }
  }

  // The row now holds content y, which is neither the compared nor the saved one.
  lemma Misnumbered(s: State, id: nat, y: Members)
    requires CanStep(s, Write(id)) && Accepts(s.row, s.saves[id].client) && s.row.Some?
    requires !SameContent(s.saves[id].schedule, y)
    requires s.saves[id].at.found.Some? ==> !SameContent(s.saves[id].at.found.value.schedule.content, y)
    requires s.row.value.schedule == Revise(ScheduleOf(s.saves[id].at.found), y)
    ensures !AgainstCurrentRow(s, id)
  {
    assert !SameContent(y, s.saves[id].schedule);
    var found := ScheduleOf(s.saves[id].at.found);
    assert Revise(found, s.saves[id].schedule).revision < Revise(ScheduleOf(s.row), s.saves[id].schedule).revision;
  }

  lemma FirstSaved(x: Members) returns (steps: seq<Step>, s: State)
    ensures Possible(NO_POLICY, steps) && Run(NO_POLICY, steps) == s
    ensures s.row == Some(Row(Part(x, 1), Part(x, 1), 1, false, false)) && s.saves.Keys == {0}
  {
    steps, s := [], NO_POLICY;
    steps, s := Then(NO_POLICY, steps, s, Open(0, 0, x, x));
    steps, s := Then(NO_POLICY, steps, s, Compare(0));
    steps, s := Then(NO_POLICY, steps, s, Write(0));
  }

  // A save that names the next version, and compares before the save that
  // creates that version commits, is accepted with the outdated comparison: the
  // content changes and the revision goes back.
  lemma GuessedVersionMisnumbers() returns (steps: seq<Step>, id: nat)
    ensures Possible(NO_POLICY, steps)
    ensures var s := Run(NO_POLICY, steps);
      && CanStep(s, Write(id)) && s.row.Some? && Accepts(s.row, s.saves[id].client)
      && !SameContent(s.row.value.schedule.content, s.saves[id].schedule)
      && Next(s, Write(id)).row.value.schedule.revision < s.row.value.schedule.revision
  {
    var x, y := Member(A, Bool(true), NoMembers), Member(A, Bool(false), NoMembers);
    DifferentContents(Bool(true), Bool(false));
    var s;
    steps, s := FirstSaved(x);
    steps, s := Then(NO_POLICY, steps, s, Open(1, 2, x, x));
    steps, s := Then(NO_POLICY, steps, s, Compare(1));
    id := 1;
    var more := Overtake(s, id, y);
    assert Run(s, more).row.value.schedule == Part(y, 2);
    RunOn(NO_POLICY, steps, more);
    steps := steps + more;
  }

  lemma {:induction false} RunOn(s: State, steps: seq<Step>, more: seq<Step>)
    requires Possible(s, steps) && Possible(Run(s, steps), more)
    ensures Possible(s, steps + more) && Run(s, steps + more) == Run(Run(s, steps), more)
    decreases |steps|
  {
    if steps == [] {
      assert steps + more == more;
    } else {
      assert (steps + more)[1..] == steps[1..] + more;
      RunOn(Next(s, steps[0]), steps[1..], more);
    }
  }

  // ── The handler's code ────────────────────────────────────────────────────

  class PolicyRow {
    var row: Option<Row>
    ghost var saves: map<nat, Save>

    ghost function Now(): State
      reads this
    {
      State(row, saves)
    }

    constructor ()
      ensures Now() == NO_POLICY
    {
      row, saves := None, map[];
    }

    // The saving transaction's read.
    method ReadExisting(ghost id: nat) returns (found: Option<Row>)
      requires CanStep(Now(), Compare(id))
      modifies this`saves
      ensures Now() == Next(old(Now()), Compare(id)) && saves[id].at == Compared(found)
    {
      found := row;
      saves := saves[id := saves[id].(at := Compared(found))];
    }

    // The next revision of one part; same: its content is unchanged.
    static method NextPart(existing: Option<Part>, input: Members) returns (same: bool, next: Part)
      ensures same == (existing.Some? && SameContent(existing.value.content, input))
      ensures next == Revise(existing, input) && next.content == input
      ensures next.revision == if existing.None? then 1
                               else if same then existing.value.revision else existing.value.revision + 1
    {
      same := existing.Some? && SameContent(existing.value.content, input);
      next := Part(input, if same then existing.value.revision else (if existing.Some? then existing.value.revision else 0) + 1);
    }

    // INSERT … ON CONFLICT DO NOTHING, or UPDATE … WHERE the row is as the client knew it
    method WriteRow(client: nat, schedule: Part, price: Part, samePrice: bool) returns (saved: bool)
      modifies this`row
      ensures saved <==> if client == 0 then old(row).None?
                         else old(row).Some? && old(row).value.version == client && !old(row).value.claimed
      ensures row == if saved then Some(Written(old(row), client, schedule, price, samePrice)) else old(row)
      ensures saved ==> row == Some(Row(schedule, price, client + 1, old(row).Some? && old(row).value.latched && samePrice, false))
    {
      saved := if client == 0 then row.None? else row.Some? && row.value.version == client && !row.value.claimed;
      if saved {
        row := Some(if row.None? then Row(schedule, price, 1, false, false)
                    else Row(schedule, price, client + 1, row.value.latched && samePrice, row.value.claimed));
      }
    }

    // Its body after that read.
    method SavePolicy(ghost id: nat, found: Option<Row>, client: nat, schedule: Members, price: Members)
      returns (saved: bool, scheduleRevision: nat, priceRevision: nat)
      requires id in saves && saves[id] == Save(client, schedule, price, Compared(found))
      modifies this
      ensures Now() == Next(old(Now()), Write(id))
      ensures saved <==> if client == 0 then old(row).None?
                         else old(row).Some? && old(row).value.version == client && !old(row).value.claimed
      ensures row == if !saved then old(row) else
                Some(Row(Part(schedule, scheduleRevision), Part(price, priceRevision), client + 1,
                         && old(row).Some? && old(row).value.latched
                         && found.Some? && SameContent(found.value.price.content, price), false))
      ensures scheduleRevision ==
              if found.None? then 1
              else found.value.schedule.revision + if SameContent(found.value.schedule.content, schedule) then 0 else 1
      ensures priceRevision ==
              if found.None? then 1
              else found.value.price.revision + if SameContent(found.value.price.content, price) then 0 else 1
    {
      var sameSchedule, newSchedule := NextPart(ScheduleOf(found), schedule);
      var samePrice, newPrice := NextPart(PriceOf(found), price);
      scheduleRevision, priceRevision := newSchedule.revision, newPrice.revision;
      saved := WriteRow(client, newSchedule, newPrice, samePrice);
      saves := saves[id := saves[id].(at := Answered(saved))];
    }
  }
}
