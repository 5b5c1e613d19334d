// The tracking rows of VLAN syncs and port forwards, and the database
// transactions that race on them. Every transaction advances one statement at
// a time; the row locks it holds follow from the statement it has reached, and
// a statement waits until its locks agree with everyone else's.
module VlanTracking {

  type FirewallId = nat
  type VlanId = nat
  type RowId = nat
  type TxId = nat

  datatype SyncRow = SyncRow(firewall: FirewallId, vlan: VlanId, iface: string)
  datatype Forward = Forward(firewall: FirewallId, name: string, iface: string)

  // Committed rows.
  datatype Db = Db(firewalls: set<FirewallId>, vlans: set<VlanId>,
                   syncs: map<RowId, SyncRow>, forwards: map<RowId, Forward>)

  // How far a create run got with tracking the objects it made on the firewall.
  datatype At =
    | Provisioned
    | FirewallLocked
    | TargetLocked(rows: set<RowId>)
    | Inserted(rows: set<RowId>)
    | Tracked
    | Refused                   // the firewall, VLAN or sync is gone
    | TornDown(clean: bool)     // objects removed again; !clean: some removal failed
    | Duplicate                 // the row exists already: the insert failed for another reason

  datatype Phase = Start | Locked | SyncsClear | AllClear | Committed | Blocked

  datatype Tx =
    | CreateForward(firewall: FirewallId, name: string, iface: string, at: At)
    | CreateSync(firewall: FirewallId, vlan: VlanId, iface: string, at: At)
    // iface is the interface name the handler read before it started
    | Unsync(firewall: FirewallId, vlan: VlanId, iface: string, rows: set<RowId>, phase: Phase)
    | DeleteVlan(vlan: VlanId, phase: Phase)
    | DeleteFirewall(firewall: FirewallId, phase: Phase)

  // `live`: create runs whose firewall objects exist; `cascaded`: tracking rows
  // dropped by a foreign-key cascade.
  datatype State = State(db: Db, txs: map<TxId, Tx>, live: set<TxId>, cascaded: set<RowId>)

  datatype Row = FirewallRow(f: FirewallId) | VlanRow(v: VlanId) | SyncsRow(r: RowId)

  // ── Locks ─────────────────────────────────────────────────────────────────

  function Exclusive(tx: Tx): set<Row> {
    match tx
    case Unsync(_, _, _, rows, phase) =>
      if phase in {Locked, AllClear} then set r | r in rows :: SyncsRow(r) else {}
    case DeleteVlan(v, phase) => if phase in {Locked, SyncsClear} then {VlanRow(v)} else {}
    case DeleteFirewall(f, phase) => if phase in {Locked, SyncsClear, AllClear} then {FirewallRow(f)} else {}
    case _ => {}
  }

  function Shared(tx: Tx): set<Row> {
    match tx
    case CreateForward(f, _, _, at) =>
      (match at
       case FirewallLocked => {FirewallRow(f)}
       case TargetLocked(rows) => {FirewallRow(f)} + set r | r in rows :: SyncsRow(r)
       case Inserted(rows) => {FirewallRow(f)} + set r | r in rows :: SyncsRow(r)
       case _ => {})
    case CreateSync(f, v, _, at) =>
      (match at
       case FirewallLocked => {FirewallRow(f)}
       case TargetLocked(_) => {FirewallRow(f), VlanRow(v)}
       case Inserted(_) => {FirewallRow(f), VlanRow(v)}
       case _ => {})
    case _ => {}
  }

  ghost predicate Compatible(a: Tx, b: Tx) {
    && Exclusive(a) !! Exclusive(b)
    && Exclusive(a) !! Shared(b)
    && Shared(a) !! Exclusive(b)
  }

  // ── Statements ────────────────────────────────────────────────────────────

  datatype Statement =
    | LockFirewall      // SELECT firewall FOR SHARE, or FOR UPDATE for the delete
    | LockTarget        // SELECT sync or VLAN row FOR SHARE, or VLAN FOR UPDATE
    | DeleteSyncs       // DELETE the sync row, not yet committed
    | CheckSyncs
    | CheckForwards
    | Insert
    | Commit(row: RowId)      // row: the id the inserted row gets
    | TearDown(clean: bool)

  datatype Step =
    | Begin(t: TxId, tx: Tx)
    | Do(t: TxId, stmt: Statement)
    | AddFirewall(newFirewall: FirewallId)
    | AddVlan(newVlan: VlanId)
    | RemoveForward(removed: RowId)

  function MatchingSyncs(db: Db, f: FirewallId, iface: string): set<RowId> {
    set r | r in db.syncs && db.syncs[r].firewall == f && db.syncs[r].iface == iface
  }

  function SyncsOf(db: Db, f: FirewallId, v: VlanId): set<RowId> {
    set r | r in db.syncs && db.syncs[r].firewall == f && db.syncs[r].vlan == v
  }

  function SyncsOfFirewall(db: Db, f: FirewallId): set<RowId> {
    set r | r in db.syncs && db.syncs[r].firewall == f
  }

  function SyncsOfVlan(db: Db, v: VlanId): set<RowId> {
    set r | r in db.syncs && db.syncs[r].vlan == v
  }

  function ForwardsOf(db: Db, f: FirewallId): set<RowId> {
    set p | p in db.forwards && db.forwards[p].firewall == f
  }

  function ForwardsInto(db: Db, f: FirewallId, iface: string): set<RowId> {
    set p | p in db.forwards && db.forwards[p].firewall == f && db.forwards[p].iface == iface
  }

  function ForwardsNamed(db: Db, f: FirewallId, name: string): set<RowId> {
    set p | p in db.forwards && db.forwards[p].firewall == f && db.forwards[p].name == name
  }

  predicate Fresh(tx: Tx) {
    match tx
    case CreateForward(_, _, _, at) => at.Provisioned?
    case CreateSync(_, _, _, at) => at.Provisioned?
    case Unsync(_, _, _, rows, phase) => rows == {} && phase.Start?
    case DeleteVlan(_, phase) => phase.Start?
    case DeleteFirewall(_, phase) => phase.Start?
  }

  // Inserting the port forward's row while holding the firewall and sync rows.
  function AdvanceForward(db: Db, f: FirewallId, name: string, iface: string, at: At, stmt: Statement): At {
    match (stmt, at)
    case (LockFirewall, Provisioned) => if f in db.firewalls then FirewallLocked else Refused
    case (LockTarget, FirewallLocked) =>
      if iface == "" then TargetLocked({})
      else if MatchingSyncs(db, f, iface) == {} then Refused
      else TargetLocked(MatchingSyncs(db, f, iface))
    case (Insert, TargetLocked(rows)) => if ForwardsNamed(db, f, name) != {} then Duplicate else Inserted(rows)
    case (Commit(_), Inserted(_)) => Tracked
    case (TearDown(clean), Refused) => TornDown(clean)
    case _ => at
  }

  // Inserting the sync row while holding the firewall and VLAN rows.
  function AdvanceSync(db: Db, f: FirewallId, v: VlanId, at: At, stmt: Statement): At {
    match (stmt, at)
    case (LockFirewall, Provisioned) => if f in db.firewalls then FirewallLocked else Refused
    case (LockTarget, FirewallLocked) => if v in db.vlans then TargetLocked({}) else Refused
    case (Insert, TargetLocked(rows)) => if SyncsOf(db, f, v) != {} then Duplicate else Inserted(rows)
    case (Commit(_), Inserted(_)) => Tracked
    case (TearDown(clean), Refused) => TornDown(clean)
    case _ => at
  }

  // The transaction after its statement, given the committed rows. A statement
  // the transaction is not at leaves it alone.
  function Advance(db: Db, tx: Tx, stmt: Statement): Tx {
    match tx
    case CreateForward(f, name, iface, at) => CreateForward(f, name, iface, AdvanceForward(db, f, name, iface, at, stmt))
    case CreateSync(f, v, iface, at) => CreateSync(f, v, iface, AdvanceSync(db, f, v, at, stmt))
    case Unsync(f, v, iface, rows, phase) =>
      if stmt.DeleteSyncs? && phase.Start? then Unsync(f, v, iface, SyncsOf(db, f, v), Locked)
      else if stmt.CheckForwards? && phase.Locked? then
        Unsync(f, v, iface, rows, if ForwardsInto(db, f, iface) != {} then Blocked else AllClear)
      else if stmt.Commit? && phase.AllClear? then Unsync(f, v, iface, rows, Committed)
      else tx
    case DeleteVlan(v, phase) =>
      if stmt.LockTarget? && phase.Start? then DeleteVlan(v, Locked)
      else if stmt.CheckSyncs? && phase.Locked? then DeleteVlan(v, if SyncsOfVlan(db, v) != {} then Blocked else SyncsClear)
      else if stmt.Commit? && phase.SyncsClear? then DeleteVlan(v, Committed)
      else tx
    case DeleteFirewall(f, phase) =>
      if stmt.LockFirewall? && phase.Start? then DeleteFirewall(f, Locked)
      else if stmt.CheckSyncs? && phase.Locked? then
        DeleteFirewall(f, if SyncsOfFirewall(db, f) != {} then Blocked else SyncsClear)
      else if stmt.CheckForwards? && phase.SyncsClear? then
        DeleteFirewall(f, if ForwardsOf(db, f) != {} then Blocked else AllClear)
      else if stmt.Commit? && phase.AllClear? then DeleteFirewall(f, Committed)
      else tx
  }

  // The committed rows after tx commits; row is the id of an inserted row.
  function Committing(db: Db, tx: Tx, row: RowId): Db {
    match tx
    case CreateForward(f, name, iface, Inserted(_)) => db.(forwards := db.forwards[row := Forward(f, name, iface)])
    case CreateSync(f, v, iface, Inserted(_)) => db.(syncs := db.syncs[row := SyncRow(f, v, iface)])
    case Unsync(_, _, _, rows, AllClear) => db.(syncs := db.syncs - rows)
    case DeleteVlan(v, SyncsClear) =>
      db.(vlans := db.vlans - {v}, syncs := map r | r in db.syncs && db.syncs[r].vlan != v :: db.syncs[r])
    case DeleteFirewall(f, AllClear) =>
      db.(firewalls := db.firewalls - {f},
          syncs := map r | r in db.syncs && db.syncs[r].firewall != f :: db.syncs[r],
          forwards := map p | p in db.forwards && db.forwards[p].firewall != f :: db.forwards[p])
    case _ => db
  }

  // Rows a delete would drop through a foreign key.
  function Cascade(db: Db, tx: Tx): set<RowId> {
    match tx
    case DeleteVlan(v, SyncsClear) => SyncsOfVlan(db, v)
    case DeleteFirewall(f, AllClear) => SyncsOfFirewall(db, f) + ForwardsOf(db, f)
    case _ => {}
  }

  ghost predicate Enabled(s: State, step: Step) {
    match step
    case Begin(t, tx) => t !in s.txs && Fresh(tx)
    case Do(t, stmt) =>
      && t in s.txs && Advance(s.db, s.txs[t], stmt) != s.txs[t]
      && (stmt.Commit? ==> stmt.row !in s.db.syncs && stmt.row !in s.db.forwards)
      && (forall u :: u in s.txs && u != t ==> Compatible(Advance(s.db, s.txs[t], stmt), s.txs[u]))
    case AddFirewall(_) => true
    case AddVlan(_) => true
    case RemoveForward(_) => true
  }

  predicate IsCreate(tx: Tx) { tx.CreateForward? || tx.CreateSync? }

  function AtOf(tx: Tx): At {
    match tx
    case CreateForward(_, _, _, at) => at
    case CreateSync(_, _, _, at) => at
    case _ => Tracked
  }

  function Apply(s: State, step: Step): State {
    match step
    case Begin(t, tx) => s.(txs := s.txs[t := tx], live := if IsCreate(tx) then s.live + {t} else s.live)
    case Do(t, stmt) =>
      if t !in s.txs then s else
      var tx := s.txs[t];
      State(if stmt.Commit? then Committing(s.db, tx, stmt.row) else s.db,
            s.txs[t := Advance(s.db, tx, stmt)],
            if AtOf(Advance(s.db, tx, stmt)) == TornDown(true) then s.live - {t} else s.live,
            if stmt.Commit? then s.cascaded + Cascade(s.db, tx) else s.cascaded)
    case AddFirewall(f) => s.(db := s.db.(firewalls := s.db.firewalls + {f}))
    case AddVlan(v) => s.(db := s.db.(vlans := s.db.vlans + {v}))
    case RemoveForward(row) => s.(db := s.db.(forwards := s.db.forwards - {row}))
  }

  // ── What a commit changes ─────────────────────────────────────────────────

  // A sync row goes exactly with the unsync that holds it or with its VLAN or
  // firewall, and comes with the create run that inserted it.
  lemma CommitsSyncsExactly(db: Db, tx: Tx, row: RowId, r: RowId)
    requires row !in db.syncs
    ensures var after := Committing(db, tx, row);
      var gone := r in db.syncs && (|| (tx.Unsync? && tx.phase.AllClear? && r in tx.rows)
                                    || tx == DeleteVlan(db.syncs[r].vlan, SyncsClear)
                                    || tx == DeleteFirewall(db.syncs[r].firewall, AllClear));
      var added := r == row && tx.CreateSync? && tx.at.Inserted?;
      && (r in after.syncs <==> added || (r in db.syncs && !gone))
      && (r in after.syncs ==> after.syncs[r] == if added then SyncRow(tx.firewall, tx.vlan, tx.iface) else db.syncs[r])
  {
  }

  lemma CommitsForwardsExactly(db: Db, tx: Tx, row: RowId, p: RowId)
    requires row !in db.forwards
    ensures var after := Committing(db, tx, row);
      var gone := p in db.forwards && tx == DeleteFirewall(db.forwards[p].firewall, AllClear);
      var added := p == row && tx.CreateForward? && tx.at.Inserted?;
      && (p in after.forwards <==> added || (p in db.forwards && !gone))
      && (p in after.forwards ==> after.forwards[p] == if added then Forward(tx.firewall, tx.name, tx.iface) else db.forwards[p])
  {
  }

  lemma CommitsParentsExactly(db: Db, tx: Tx, row: RowId, f: FirewallId, v: VlanId)
    ensures f in Committing(db, tx, row).firewalls <==> f in db.firewalls && tx != DeleteFirewall(f, AllClear)
    ensures v in Committing(db, tx, row).vlans <==> v in db.vlans && tx != DeleteVlan(v, SyncsClear)
  {
  }

  // A row counts as cascaded exactly if it disappears with a commit that is not
  // that of an unsync.
  lemma CascadesExactly(db: Db, tx: Tx, row: RowId, r: RowId)
    requires row !in db.syncs && row !in db.forwards && !tx.Unsync?
    ensures var after := Committing(db, tx, row);
      r in Cascade(db, tx) <==> (r in db.syncs && r !in after.syncs) || (r in db.forwards && r !in after.forwards)
  {
  }

  // A create run's objects are live from its beginning until a refused run has
  // torn them down without a failure.
  lemma LiveExactly(s: State, step: Step, t: TxId)
    requires Enabled(s, step)
    ensures var cleaned := step == Do(t, TearDown(true)) && AtOf(s.txs[t]).Refused?;
      t in Apply(s, step).live <==> (t in s.live || (step.Begin? && step.t == t && IsCreate(step.tx))) && !cleaned
  {
  }

  // ── What every transaction knows while it holds its locks ─────────────────

  ghost predicate Knows(db: Db, tx: Tx) {
    match tx
    case CreateForward(f, _, iface, at) =>
      && (at.FirewallLocked? || at.TargetLocked? || at.Inserted? ==> f in db.firewalls)
      && (at.TargetLocked? || at.Inserted? ==>
            && (iface != "" ==> at.rows != {})
            && (forall r :: r in at.rows ==> r in db.syncs && db.syncs[r].firewall == f && db.syncs[r].iface == iface))
    case CreateSync(f, v, _, at) =>
      && (at.FirewallLocked? || at.TargetLocked? || at.Inserted? ==> f in db.firewalls)
      && (at.TargetLocked? || at.Inserted? ==> v in db.vlans)
    case Unsync(f, v, _, rows, phase) =>
      phase.Locked? || phase.AllClear? ==>
        forall r :: r in rows ==> r in db.syncs && db.syncs[r].firewall == f && db.syncs[r].vlan == v
    case DeleteVlan(v, phase) => phase.SyncsClear? ==> forall r :: r in db.syncs ==> db.syncs[r].vlan != v
    case DeleteFirewall(f, phase) =>
      && (phase.SyncsClear? || phase.AllClear? ==> forall r :: r in db.syncs ==> db.syncs[r].firewall != f)
      && (phase.AllClear? ==> forall p :: p in db.forwards ==> db.forwards[p].firewall != f)
  }

  ghost predicate References(db: Db) {
    && (forall r :: r in db.syncs ==> db.syncs[r].firewall in db.firewalls && db.syncs[r].vlan in db.vlans)
    && (forall p :: p in db.forwards ==> db.forwards[p].firewall in db.firewalls)
  }

  ghost predicate Inv(s: State) {
    && References(s.db)
    && (forall t :: t in s.txs ==> Knows(s.db, s.txs[t]))
    && Locks(s)
    && s.cascaded == {}
    && ObjectsKnown(s)
  }

  ghost predicate Locks(s: State) {
    forall t, u :: t in s.txs && u in s.txs && t != u ==> Compatible(s.txs[t], s.txs[u])
  }

  // A create run's firewall objects exist until they are torn down.
  ghost predicate ObjectsKnown(s: State) {
    forall t :: t in s.txs && IsCreate(s.txs[t]) ==> (t in s.live <==> AtOf(s.txs[t]) != TornDown(true))
  }

  // A transaction knows what its own statement just read.
  lemma AdvanceKnows(db: Db, tx: Tx, stmt: Statement)
    requires Knows(db, tx) && !stmt.Commit?
    ensures Knows(db, Advance(db, tx, stmt))
  {
    assert forall r :: r in db.syncs ==> r in SyncsOfVlan(db, db.syncs[r].vlan) && r in SyncsOfFirewall(db, db.syncs[r].firewall);
    assert forall p :: p in db.forwards ==> p in ForwardsOf(db, db.forwards[p].firewall);
  }

  // Another transaction's commit never takes away what a compatible one knows.
  lemma CommitKeepsKnowledge(db: Db, tx: Tx, row: RowId, other: Tx)
    requires Knows(db, tx) && Knows(db, other) && Compatible(tx, other)
    requires row !in db.syncs && row !in db.forwards
    ensures Knows(Committing(db, tx, row), other)
  {
    match tx
    case CreateForward(f, _, _, Inserted(_)) => assert FirewallRow(f) in Shared(tx);
    case CreateSync(f, v, _, Inserted(_)) => assert FirewallRow(f) in Shared(tx) && VlanRow(v) in Shared(tx);
    case Unsync(_, _, _, rows, AllClear) =>
      assert forall r :: r in rows ==> SyncsRow(r) in Exclusive(tx);
      UnsyncSparesOthers(db, tx, other);
    case DeleteVlan(v, SyncsClear) => assert VlanRow(v) in Exclusive(tx);
    case DeleteFirewall(f, AllClear) => assert FirewallRow(f) in Exclusive(tx);
    case _ =>
  }

  lemma UnsyncSparesOthers(db: Db, tx: Tx, other: Tx)
    requires tx.Unsync? && tx.phase.AllClear? && Knows(db, other) && Compatible(tx, other)
    ensures Knows(db.(syncs := db.syncs - tx.rows), other)
  {
    assert forall r :: r in tx.rows ==> SyncsRow(r) in Exclusive(tx);
    match other
    case CreateForward(_, _, _, at) =>
      if at.TargetLocked? || at.Inserted? {
        assert forall r :: r in at.rows ==> SyncsRow(r) in Shared(other);
      }
    case Unsync(_, _, _, rows, phase) =>
      if phase.Locked? || phase.AllClear? {
        assert forall r :: r in rows ==> SyncsRow(r) in Exclusive(other);
      }
    case _ =>
  }

  lemma CommitKeepsReferences(db: Db, tx: Tx, row: RowId)
    requires References(db) && Knows(db, tx)
    ensures References(Committing(db, tx, row)) && Cascade(db, tx) == {}
    ensures Knows(Committing(db, tx, row), Advance(db, tx, Commit(row)))
  {}

  lemma DoKeepsKnowledge(s: State, t: TxId, stmt: Statement)
    requires Inv(s) && Enabled(s, Do(t, stmt))
    ensures var s' := Apply(s, Do(t, stmt));
            References(s'.db) && s'.cascaded == {} && forall u :: u in s'.txs ==> Knows(s'.db, s'.txs[u])
  {
    var s', tx := Apply(s, Do(t, stmt)), s.txs[t];
    if stmt.Commit? {
      CommitKeepsReferences(s.db, tx, stmt.row);
      forall u | u in s'.txs ensures Knows(s'.db, s'.txs[u]) {
        if u != t { CommitKeepsKnowledge(s.db, tx, stmt.row, s.txs[u]); }
      }
    } else {
      AdvanceKnows(s.db, tx, stmt);
    }
  }

  lemma EnvironmentKeepsKnowledge(db: Db, db': Db, tx: Tx)
    requires Knows(db, tx)
    requires db.firewalls <= db'.firewalls && db.vlans <= db'.vlans && db.syncs == db'.syncs
    requires forall p :: p in db'.forwards ==> p in db.forwards && db'.forwards[p] == db.forwards[p]
    ensures Knows(db', tx)
  {}

  lemma DoKeepsLocks(s: State, t: TxId, stmt: Statement)
    requires Inv(s) && Enabled(s, Do(t, stmt))
    ensures Locks(Apply(s, Do(t, stmt)))
  {
    var tx' := Advance(s.db, s.txs[t], stmt);
    forall u | u in s.txs && u != t ensures Compatible(tx', s.txs[u]) && Compatible(s.txs[u], tx') {}
  }

  lemma DoKeepsObjects(s: State, t: TxId, stmt: Statement)
    requires Inv(s) && Enabled(s, Do(t, stmt))
    ensures ObjectsKnown(Apply(s, Do(t, stmt)))
  {
    var tx' := Advance(s.db, s.txs[t], stmt);
    assert IsCreate(tx') == IsCreate(s.txs[t]);
    assert !AtOf(s.txs[t]).TornDown?;
  }

  lemma BeginKeepsInv(s: State, t: TxId, tx: Tx)
    requires Inv(s) && t !in s.txs && Fresh(tx)
    ensures Inv(Apply(s, Begin(t, tx)))
  {
    assert Exclusive(tx) == {} && Shared(tx) == {};
  }

  lemma EnvironmentKeepsInv(s: State, db': Db)
    requires Inv(s) && References(db')
    requires s.db.firewalls <= db'.firewalls && s.db.vlans <= db'.vlans && s.db.syncs == db'.syncs
    requires forall p :: p in db'.forwards ==> p in s.db.forwards && db'.forwards[p] == s.db.forwards[p]
    ensures Inv(s.(db := db'))
  {
    forall u | u in s.txs ensures Knows(db', s.txs[u]) { EnvironmentKeepsKnowledge(s.db, db', s.txs[u]); }
  }

  // Every statement of every transaction keeps the invariant.
  lemma StepKeepsInv(s: State, step: Step)
    requires Inv(s) && Enabled(s, step)
    ensures Inv(Apply(s, step))
  {
    match step
    case Begin(t, tx) => BeginKeepsInv(s, t, tx);
    case Do(t, stmt) =>
      DoKeepsKnowledge(s, t, stmt);
      DoKeepsLocks(s, t, stmt);
      DoKeepsObjects(s, t, stmt);
    case AddFirewall(_) => EnvironmentKeepsInv(s, Apply(s, step).db);
    case AddVlan(_) => EnvironmentKeepsInv(s, Apply(s, step).db);
    case RemoveForward(_) => EnvironmentKeepsInv(s, Apply(s, step).db);
  }

  // ── Every forward keeps a sync row ────────────────────────────────────────

  // Row r is about to be deleted: its unsync found no forward and will commit.
  ghost predicate Doomed(txs: map<TxId, Tx>, r: RowId) {
    exists t :: t in txs && txs[t].Unsync? && txs[t].phase.AllClear? && r in txs[t].rows
  }

  ghost predicate Carries(s: State, r: RowId, p: Forward) {
    r in s.db.syncs && s.db.syncs[r].firewall == p.firewall && s.db.syncs[r].iface == p.iface && !Doomed(s.txs, r)
  }

  ghost predicate Covered(s: State) {
    forall p :: p in s.db.forwards && s.db.forwards[p].iface != "" ==> exists r :: Carries(s, r, s.db.forwards[p])
  }

  lemma DoomedIsHeld(s: State, t: TxId, r: RowId)
    requires Inv(s) && t in s.txs && s.txs[t].Unsync? && s.txs[t].phase.AllClear? && r in s.txs[t].rows
    ensures r in s.db.syncs && SyncsRow(r) in Exclusive(s.txs[t])
    ensures forall u :: u in s.txs && u != t ==> SyncsRow(r) !in Shared(s.txs[u])
  {
    forall u | u in s.txs && u != t ensures SyncsRow(r) !in Shared(s.txs[u]) {
      assert Compatible(s.txs[t], s.txs[u]);
    }
  }

  // A statement other than the unsync's check makes no row doomed.
  lemma DoomsNothing(s: State, t: TxId, tx': Tx, r: RowId)
    requires t in s.txs && Doomed(s.txs[t := tx'], r)
    requires tx'.Unsync? && tx'.phase.AllClear? ==> s.txs[t] == tx'
    ensures Doomed(s.txs, r)
  {
    var u :| u in s.txs[t := tx'] && s.txs[t := tx'][u].Unsync? && s.txs[t := tx'][u].phase.AllClear? && r in s.txs[t := tx'][u].rows;
    assert u in s.txs && s.txs[u].Unsync?;
  }

  // The unsync's check passes although a row it holds names another interface
  // than the one it looked for, and a forward into that interface has no other
  // row that stays.
  ghost predicate Uncovers(s: State, step: Step) {
    && step.Do? && step.stmt.CheckForwards? && step.t in s.txs
    && var tx := s.txs[step.t];
    && tx.Unsync? && tx.phase.Locked? && ForwardsInto(s.db, tx.firewall, tx.iface) == {}
    && exists r, p :: r in tx.rows && r in s.db.syncs && p in s.db.forwards && LosesRow(s, tx, s.db.syncs[r], s.db.forwards[p])
  }

  ghost predicate LosesRow(s: State, tx: Tx, row: SyncRow, p: Forward)
    requires tx.Unsync?
  {
    && row.iface == p.iface && p.iface != tx.iface && p.iface != "" && p.firewall == tx.firewall
    && forall q :: q in MatchingSyncs(s.db, p.firewall, p.iface) && q !in tx.rows ==> Doomed(s.txs, q)
  }

  // The check is the only step that can leave a forward with none but doomed rows.
  lemma CheckLosesCoverExactly(s: State, t: TxId)
    requires Inv(s) && Covered(s)
    requires Enabled(s, Do(t, CheckForwards)) && s.txs[t].Unsync? && s.txs[t].phase.Locked?
    ensures Covered(Apply(s, Do(t, CheckForwards))) <==> !Uncovers(s, Do(t, CheckForwards))
  {
    var step := Do(t, CheckForwards);
    var s', tx := Apply(s, step), s.txs[t];
    assert Knows(s.db, tx);
    if Uncovers(s, step) {
      var r, p :| r in tx.rows && r in s.db.syncs && p in s.db.forwards && LosesRow(s, tx, s.db.syncs[r], s.db.forwards[p]);
      forall q | q in s.db.syncs ensures !Carries(s', q, s.db.forwards[p]) {
        if q in MatchingSyncs(s.db, s.db.forwards[p].firewall, s.db.forwards[p].iface) { DoomedByCheck(s, t, q); }
      }
    } else {
      forall p | p in s'.db.forwards && s'.db.forwards[p].iface != "" ensures exists r :: Carries(s', r, s'.db.forwards[p]) {
        CheckSpares(s, t, p);
      }
    }
  }

  // After a passing check all rows it holds are doomed, and every row that was.
  lemma DoomedByCheck(s: State, t: TxId, q: RowId)
    requires t in s.txs && s.txs[t].Unsync? && s.txs[t].phase.Locked?
    requires ForwardsInto(s.db, s.txs[t].firewall, s.txs[t].iface) == {}
    requires q in s.txs[t].rows || Doomed(s.txs, q)
    ensures Doomed(Apply(s, Do(t, CheckForwards)).txs, q)
  {
    var txs' := Apply(s, Do(t, CheckForwards)).txs;
    if q in s.txs[t].rows {
      assert txs'[t].Unsync? && txs'[t].phase.AllClear?;
    } else {
      var u :| u in s.txs && s.txs[u].Unsync? && s.txs[u].phase.AllClear? && q in s.txs[u].rows;
      assert txs'[u] == s.txs[u];
    }
  }

  lemma CheckSpares(s: State, t: TxId, p: RowId)
    requires Inv(s) && Covered(s)
    requires Enabled(s, Do(t, CheckForwards)) && s.txs[t].Unsync? && s.txs[t].phase.Locked?
    requires !Uncovers(s, Do(t, CheckForwards)) && p in s.db.forwards && s.db.forwards[p].iface != ""
    ensures exists r :: Carries(Apply(s, Do(t, CheckForwards)), r, s.db.forwards[p])
  {
    var s', tx := Apply(s, Do(t, CheckForwards)), s.txs[t];
    var fwd := s.db.forwards[p];
    var r :| Carries(s, r, fwd);
    if r !in tx.rows || s'.txs[t].phase.Blocked? {
      if Doomed(s'.txs, r) { StaysUndoomed(s, t, r); }
      assert Carries(s', r, fwd);
    } else {
      assert Knows(s.db, tx);
      assert p in ForwardsInto(s.db, fwd.firewall, fwd.iface);
      assert !LosesRow(s, tx, s.db.syncs[r], fwd);
      var q :| q in MatchingSyncs(s.db, fwd.firewall, fwd.iface) && q !in tx.rows && !Doomed(s.txs, q);
      if Doomed(s'.txs, q) { StaysUndoomed(s, t, q); }
      assert Carries(s', q, fwd);
    }
  }

  lemma StaysUndoomed(s: State, t: TxId, q: RowId)
    requires t in s.txs && s.txs[t].Unsync? && s.txs[t].phase.Locked?
    requires q !in s.txs[t].rows || Apply(s, Do(t, CheckForwards)).txs[t].phase.Blocked?
    requires Doomed(Apply(s, Do(t, CheckForwards)).txs, q)
    ensures Doomed(s.txs, q)
  {
    var txs' := Apply(s, Do(t, CheckForwards)).txs;
    var u :| u in txs' && txs'[u].Unsync? && txs'[u].phase.AllClear? && q in txs'[u].rows;
    assert u != t && s.txs[u] == txs'[u];
  }

  // A new forward's row is held until its commit, so no unsync is deleting it.
  lemma NewForwardIsCarried(s: State, t: TxId, row: RowId, r: RowId)
    requires Inv(s) && Enabled(s, Do(t, Commit(row))) && s.txs[t].CreateForward? && s.txs[t].at.Inserted? && r in s.txs[t].at.rows
    ensures var s' := Apply(s, Do(t, Commit(row))); Carries(s', r, s'.db.forwards[row])
  {
    var s', tx := Apply(s, Do(t, Commit(row))), s.txs[t];
    assert Knows(s.db, tx) && SyncsRow(r) in Shared(tx);
    if Doomed(s'.txs, r) {
      DoomsNothing(s, t, s'.txs[t], r);
      var u :| u in s.txs && s.txs[u].Unsync? && s.txs[u].phase.AllClear? && r in s.txs[u].rows;
      DoomedIsHeld(s, u, r);
      assert false;
    }
  }

  lemma CarriedThroughCommit(s: State, t: TxId, row: RowId, r: RowId, p: Forward)
    requires Inv(s) && Enabled(s, Do(t, Commit(row))) && Carries(s, r, p)
    ensures Carries(Apply(s, Do(t, Commit(row))), r, p)
  {
    var s', tx := Apply(s, Do(t, Commit(row))), s.txs[t];
    assert Knows(s.db, tx);
    if Doomed(s'.txs, r) { DoomsNothing(s, t, s'.txs[t], r); }
    assert tx.Unsync? && tx.phase.AllClear? && r in tx.rows ==> Doomed(s.txs, r);
  }

  lemma CommitKeepsCover(s: State, t: TxId, row: RowId)
    requires Inv(s) && Covered(s) && Enabled(s, Do(t, Commit(row)))
    ensures Covered(Apply(s, Do(t, Commit(row))))
  {
    var s', tx := Apply(s, Do(t, Commit(row))), s.txs[t];
    assert Knows(s.db, tx);
    forall p | p in s'.db.forwards && s'.db.forwards[p].iface != "" ensures exists r :: Carries(s', r, s'.db.forwards[p]) {
      if tx.CreateForward? && p == row {
        var r :| r in tx.at.rows;
        NewForwardIsCarried(s, t, row, r);
      } else {
        var r :| Carries(s, r, s.db.forwards[p]);
        CarriedThroughCommit(s, t, row, r, s.db.forwards[p]);
      }
    }
  }

  // From a covered state a step loses cover exactly if it is such a check.
  lemma StepKeepsCoverExactly(s: State, step: Step)
    requires Inv(s) && Covered(s) && Enabled(s, step)
    ensures Covered(Apply(s, step)) <==> !Uncovers(s, step)
  {
    match step
    case Begin(t, tx) => QuietStepKeepsCover(s, step);
    case Do(t, stmt) =>
      if stmt.Commit? {
        CommitKeepsCover(s, t, stmt.row);
      } else if stmt.CheckForwards? && s.txs[t].Unsync? && s.txs[t].phase.Locked? {
        CheckLosesCoverExactly(s, t);
      } else {
        QuietStepKeepsCover(s, step);
      }
    case _ => QuietStepKeepsCover(s, step);
  }

  lemma QuietStepKeepsCover(s: State, step: Step)
    requires Inv(s) && Covered(s) && Enabled(s, step)
    requires step.Do? ==> !step.stmt.Commit? && !(step.stmt.CheckForwards? && s.txs[step.t].Unsync? && s.txs[step.t].phase.Locked?)
    ensures Covered(Apply(s, step))
  {
    var s' := Apply(s, step);
    forall p | p in s'.db.forwards && s'.db.forwards[p].iface != "" ensures exists r :: Carries(s', r, s'.db.forwards[p]) {
      var r :| Carries(s, r, s.db.forwards[p]);
      if Doomed(s'.txs, r) {
        match step
        case Begin(t, tx) => DoomsNothingNew(s, t, tx, r);
        case Do(t, _) => DoomsNothing(s, t, s'.txs[t], r);
        case _ =>
      }
      assert Carries(s', r, s'.db.forwards[p]);
    }
  }

  lemma DoomsNothingNew(s: State, t: TxId, tx: Tx, r: RowId)
    requires t !in s.txs && Fresh(tx) && Doomed(s.txs[t := tx], r)
    ensures Doomed(s.txs, r)
  {
    var u :| u in s.txs[t := tx] && s.txs[t := tx][u].Unsync? && s.txs[t := tx][u].phase.AllClear? && r in s.txs[t := tx][u].rows;
    assert u in s.txs && s.txs[u].Unsync?;
  }

  // ── Whole runs ────────────────────────────────────────────────────────────

  function Run(s: State, steps: seq<Step>): State
    decreases |steps|
  {
    if steps == [] then s else Run(Apply(s, steps[0]), steps[1..])
  }

  ghost predicate Possible(s: State, steps: seq<Step>)
    decreases |steps|
  {
    steps == [] || (Enabled(s, steps[0]) && Possible(Apply(s, steps[0]), steps[1..]))
  }

  const Empty := State(Db({}, {}, map[], map[]), map[], {}, {})

  lemma {:induction false} RunKeepsInv(s: State, steps: seq<Step>)
    requires Inv(s) && Possible(s, steps)
    ensures Inv(Run(s, steps))
    decreases |steps|
  {
    if steps != [] {
      StepKeepsInv(s, steps[0]);
      RunKeepsInv(Apply(s, steps[0]), steps[1..]);
    }
  }

  // In no run does a firewall or VLAN delete cascade a tracking row away, and
  // every tracking row refers to a live firewall and VLAN.
  lemma NoDeleteCascades(steps: seq<Step>)
    requires Possible(Empty, steps)
    ensures Run(Empty, steps).cascaded == {} && References(Run(Empty, steps).db)
  {
    RunKeepsInv(Empty, steps);
  }

  ghost predicate AlwaysCovered(s: State, steps: seq<Step>)
    decreases |steps|
  {
    Covered(s) && (steps == [] || AlwaysCovered(Apply(s, steps[0]), steps[1..]))
  }

  ghost predicate NoneUncovers(s: State, steps: seq<Step>)
    decreases |steps|
  {
    steps == [] || (!Uncovers(s, steps[0]) && NoneUncovers(Apply(s, steps[0]), steps[1..]))
  }

  lemma {:induction false} CoveredAlongExactly(s: State, steps: seq<Step>)
    requires Inv(s) && Covered(s) && Possible(s, steps)
    ensures AlwaysCovered(s, steps) <==> NoneUncovers(s, steps)
    ensures AlwaysCovered(s, steps) ==> Covered(Run(s, steps))
    decreases |steps|
  {
    if steps != [] {
      StepKeepsInv(s, steps[0]);
      StepKeepsCoverExactly(s, steps[0]);
      if Covered(Apply(s, steps[0])) { CoveredAlongExactly(Apply(s, steps[0]), steps[1..]); }
    }
  }

  ghost predicate AllForwardsSynced(db: Db) {
    forall p :: p in db.forwards && db.forwards[p].iface != "" ==>
                  MatchingSyncs(db, db.forwards[p].firewall, db.forwards[p].iface) != {}
  }

  lemma CoveredIsSynced(s: State)
    requires Covered(s)
    ensures AllForwardsSynced(s.db)
  {
    forall p | p in s.db.forwards && s.db.forwards[p].iface != ""
      ensures MatchingSyncs(s.db, s.db.forwards[p].firewall, s.db.forwards[p].iface) != {}
    {
      var r :| Carries(s, r, s.db.forwards[p]);
      assert r in MatchingSyncs(s.db, s.db.forwards[p].firewall, s.db.forwards[p].iface);
    }
  }

  // Every committed forward into a VLAN interface keeps a sync row that no
  // unsync is about to delete, all along a run, exactly if no unsync of the run
  // passes its check with such a renamed row; then every forward has a
  // committed sync row for its interface on its firewall.
  lemma ForwardsKeepTheirSync(steps: seq<Step>)
    requires Possible(Empty, steps)
    ensures AlwaysCovered(Empty, steps) <==> NoneUncovers(Empty, steps)
    ensures NoneUncovers(Empty, steps) ==> AllForwardsSynced(Run(Empty, steps).db)
  {
    CoveredAlongExactly(Empty, steps);
    if NoneUncovers(Empty, steps) { CoveredIsSynced(Run(Empty, steps)); }
  }

  // ── What a lost cover leads to ────────────────────────────────────────────

  // Nothing but unsyncs that passed their check commit.
  ghost predicate OnlyUnsyncsCommit(s: State, steps: seq<Step>)
    decreases |steps|
  {
    steps == []
    || (&& steps[0].Do? && steps[0].stmt.Commit? && steps[0].t in s.txs
        && s.txs[steps[0].t].Unsync? && s.txs[steps[0].t].phase.AllClear?
        && OnlyUnsyncsCommit(Apply(s, steps[0]), steps[1..]))
  }

  lemma {:induction false} UnsyncsKeepCover(s: State, steps: seq<Step>)
    requires Inv(s) && Covered(s) && Possible(s, steps) && OnlyUnsyncsCommit(s, steps)
    ensures Covered(Run(s, steps))
    decreases |steps|
  {
    if steps != [] {
      StepKeepsInv(s, steps[0]);
      CommitKeepsCover(s, steps[0].t, steps[0].stmt.row);
      UnsyncsKeepCover(Apply(s, steps[0]), steps[1..]);
    }
  }

  lemma FreshId(ids: set<RowId>) returns (id: RowId)
    ensures id !in ids
  {
    id := 0;
    var below: set<RowId> := {};
    while id in ids
      invariant below <= ids && forall i :: i in below ==> i < id
      decreases ids - below
    {
      below := below + {id};
      id := id + 1;
    }
  }

  // A forward whose rows are all doomed.
  ghost predicate Stranded(s: State, p: RowId) {
    && p in s.db.forwards && s.db.forwards[p].iface != ""
    && forall q :: q in MatchingSyncs(s.db, s.db.forwards[p].firewall, s.db.forwards[p].iface) ==> Doomed(s.txs, q)
  }

  lemma CommitStrands(s: State, t: TxId, row: RowId, p: RowId)
    requires Stranded(s, p) && t in s.txs && s.txs[t].Unsync? && s.txs[t].phase.AllClear?
    ensures var s' := Apply(s, Do(t, Commit(row)));
      Stranded(s', p) && s'.db.forwards == s.db.forwards && s'.db.syncs == s.db.syncs - s.txs[t].rows
  {
    var s' := Apply(s, Do(t, Commit(row)));
    var fwd := s.db.forwards[p];
    forall q | q in MatchingSyncs(s'.db, fwd.firewall, fwd.iface) ensures Doomed(s'.txs, q) {
      assert q in MatchingSyncs(s.db, fwd.firewall, fwd.iface);
      var u :| u in s.txs && s.txs[u].Unsync? && s.txs[u].phase.AllClear? && q in s.txs[u].rows;
      assert u != t && s'.txs[u] == s.txs[u];
    }
  }

  lemma {:induction false} StrandedForwardLosesAll(s: State, p: RowId) returns (steps: seq<Step>)
    requires Stranded(s, p)
    ensures Possible(s, steps) && OnlyUnsyncsCommit(s, steps) && !AllForwardsSynced(Run(s, steps).db)
    decreases |MatchingSyncs(s.db, s.db.forwards[p].firewall, s.db.forwards[p].iface)|
  {
    var fwd := s.db.forwards[p];
    var rows := MatchingSyncs(s.db, fwd.firewall, fwd.iface);
    if rows == {} {
      steps := [];
    } else {
      var q :| q in rows;
      var t :| t in s.txs && s.txs[t].Unsync? && s.txs[t].phase.AllClear? && q in s.txs[t].rows;
      var row := FreshId(s.db.syncs.Keys + s.db.forwards.Keys);
      CommitStrands(s, t, row, p);
      var s' := Apply(s, Do(t, Commit(row)));
      assert MatchingSyncs(s'.db, fwd.firewall, fwd.iface) < rows;
      SmallerSet(MatchingSyncs(s'.db, fwd.firewall, fwd.iface), rows);
      var more := StrandedForwardLosesAll(s', p);
      steps := [Do(t, Commit(row))] + more;
      assert steps[1..] == more;
    }
  }

  lemma SmallerSet(a: set<RowId>, b: set<RowId>)
    requires a < b
    ensures |a| < |b|
  {
    assert b == a + (b - a) && b - a != {};
  }

  // Cover is what it takes: every forward keeps a row through the commits of
  // all unsyncs that have passed their check exactly if the state is covered.
  lemma CoverIsNeeded(s: State)
    requires Inv(s)
    ensures Covered(s) <==>
            forall steps :: Possible(s, steps) && OnlyUnsyncsCommit(s, steps) ==> AllForwardsSynced(Run(s, steps).db)
  {
    if Covered(s) {
      forall steps | Possible(s, steps) && OnlyUnsyncsCommit(s, steps) ensures AllForwardsSynced(Run(s, steps).db) {
        UnsyncsKeepCover(s, steps);
        CoveredIsSynced(Run(s, steps));
      }
    } else {
      var p :| p in s.db.forwards && s.db.forwards[p].iface != "" && forall r :: !Carries(s, r, s.db.forwards[p]);
      assert Stranded(s, p) by {
        forall q | q in MatchingSyncs(s.db, s.db.forwards[p].firewall, s.db.forwards[p].iface) ensures Doomed(s.txs, q) {
          assert !Carries(s, q, s.db.forwards[p]);
        }
      }
      var steps := StrandedForwardLosesAll(s, p);
    }
  }

  ghost predicate Reachable(s: State) {
    exists steps :: Possible(Empty, steps) && Run(Empty, steps) == s
  }

  lemma {:induction false} RunAppend(s: State, steps: seq<Step>, last: Step)
    requires Possible(s, steps) && Enabled(Run(s, steps), last)
    ensures Possible(s, steps + [last]) && Run(s, steps + [last]) == Apply(Run(s, steps), last)
    decreases |steps|
  {
    if steps == [] {
      assert [last][1..] == [];
      assert steps + [last] == [last];
    } else {
      assert (steps + [last])[1..] == steps[1..] + [last];
      RunAppend(Apply(s, steps[0]), steps[1..], last);
    }
  }

  // One more statement of a run that nothing comes between.
  lemma {:induction false} Extends(s0: State, steps: seq<Step>, s: State, step: Step, all: seq<Step>)
    requires Run(s0, steps) == s && all == steps + [step]
    ensures Run(s0, all) == Apply(s, step)
    ensures Possible(s0, steps) && Enabled(s, step) ==> Possible(s0, all)
    decreases |steps|
  {
    if steps == [] {
      assert all[1..] == [];
    } else {
      assert all[1..] == steps[1..] + [step];
      Extends(Apply(s0, steps[0]), steps[1..], s, step, all[1..]);
    }
  }

  lemma AloneProceeds(s: State, t: TxId, stmt: Statement)
    requires Alone(s, t) && t in s.txs && Advance(s.db, s.txs[t], stmt) != s.txs[t]
    requires stmt.Commit? ==> stmt.row !in s.db.syncs && stmt.row !in s.db.forwards
    ensures Enabled(s, Do(t, stmt)) && Alone(Apply(s, Do(t, stmt)), t)
  {
    forall u | u in s.txs && u != t ensures Compatible(Advance(s.db, s.txs[t], stmt), s.txs[u]) {
    }
  }

  lemma Reach(s: State, step: Step, s': State)
    requires Reachable(s) && Enabled(s, step) && s' == Apply(s, step)
    ensures Reachable(s')
  {
    var steps :| Possible(Empty, steps) && Run(Empty, steps) == s;
    RunAppend(Empty, steps, step);
  }

  // No transaction but t holds a lock.
  ghost predicate Alone(s: State, t: TxId) {
    forall u :: u in s.txs && u != t ==> Exclusive(s.txs[u]) == {} && Shared(s.txs[u]) == {}
  }

  lemma ReachAlone(s: State, t: TxId, stmt: Statement, tx: Tx, tx': Tx, db': Db)
    requires Reachable(s) && Alone(s, t) && t in s.txs && s.txs[t] == tx
    requires Advance(s.db, tx, stmt) == tx' != tx && AtOf(tx') != TornDown(true)
    requires stmt.Commit? ==> stmt.row !in s.db.syncs && stmt.row !in s.db.forwards && Cascade(s.db, tx) == {}
    requires db' == if stmt.Commit? then Committing(s.db, tx, stmt.row) else s.db
    ensures Reachable(s.(db := db', txs := s.txs[t := tx'])) && Alone(s.(db := db', txs := s.txs[t := tx']), t)
  {
    assert s.cascaded + {} == s.cascaded;
    Reach(s, Do(t, stmt), s.(db := db', txs := s.txs[t := tx']));
  }

  lemma ReachLocked(s: State, t: TxId, tx0: Tx, tx1: Tx, tx2: Tx, tx3: Tx) returns (s': State)
    requires Reachable(s) && Alone(s, t) && t !in s.txs && IsCreate(tx0) && Fresh(tx0) && tx0 != tx1 && tx1 != tx2 && tx2 != tx3
    requires Advance(s.db, tx0, LockFirewall) == tx1 && Advance(s.db, tx1, LockTarget) == tx2 && Advance(s.db, tx2, Insert) == tx3
    requires AtOf(tx1) != TornDown(true) && AtOf(tx2) != TornDown(true) && AtOf(tx3) != TornDown(true)
    ensures s' == s.(txs := s.txs[t := tx3], live := s.live + {t}) && Reachable(s') && Alone(s', t)
  {
    s' := s.(txs := s.txs[t := tx0], live := s.live + {t});
    Reach(s, Begin(t, tx0), s');
    ReachAlone(s', t, LockFirewall, tx0, tx1, s.db);
    s' := s'.(txs := s'.txs[t := tx1]);
    ReachAlone(s', t, LockTarget, tx1, tx2, s.db);
    s' := s'.(txs := s'.txs[t := tx2]);
    ReachAlone(s', t, Insert, tx2, tx3, s.db);
    s' := s'.(txs := s'.txs[t := tx3]);
    assert s'.txs == s.txs[t := tx3];
  }

  lemma ReachTracked(s: State, t: TxId, row: RowId, tx: Tx, tx': Tx, db': Db) returns (s': State)
    requires Reachable(s) && Alone(s, t) && t in s.txs && s.txs[t] == tx && IsCreate(tx) && AtOf(tx).Inserted?
    requires row !in s.db.syncs && row !in s.db.forwards
    requires tx' == Advance(s.db, tx, Commit(row)) && db' == Committing(s.db, tx, row)
    ensures s' == s.(db := db', txs := s.txs[t := tx']) && Reachable(s')
  {
    ReachAlone(s, t, Commit(row), tx, tx', db');
    s' := s.(db := db', txs := s.txs[t := tx']);
  }

  // An undisturbed sync, port-forward creation and unsync.
  lemma ReachSync(s: State, t: TxId, f: FirewallId, v: VlanId, iface: string, row: RowId) returns (s': State)
    requires Reachable(s) && Alone(s, t) && t !in s.txs && f in s.db.firewalls && v in s.db.vlans && SyncsOf(s.db, f, v) == {}
    requires row !in s.db.syncs && row !in s.db.forwards
    ensures s' == State(s.db.(syncs := s.db.syncs[row := SyncRow(f, v, iface)]),
                        s.txs[t := CreateSync(f, v, iface, Tracked)], s.live + {t}, s.cascaded)
    ensures Reachable(s')
  {
    var tx3, tx4 := CreateSync(f, v, iface, Inserted({})), CreateSync(f, v, iface, Tracked);
    s' := ReachLocked(s, t, CreateSync(f, v, iface, Provisioned), CreateSync(f, v, iface, FirewallLocked),
                      CreateSync(f, v, iface, TargetLocked({})), tx3);
    s' := ReachTracked(s', t, row, tx3, tx4, s.db.(syncs := s.db.syncs[row := SyncRow(f, v, iface)]));
    assert s.txs[t := tx3][t := tx4] == s.txs[t := tx4];
  }

  lemma ReachForward(s: State, t: TxId, f: FirewallId, name: string, iface: string, row: RowId) returns (s': State)
    requires Reachable(s) && Alone(s, t) && t !in s.txs && f in s.db.firewalls && iface != ""
    requires MatchingSyncs(s.db, f, iface) != {} && ForwardsNamed(s.db, f, name) == {}
    requires row !in s.db.syncs && row !in s.db.forwards
    ensures s' == State(s.db.(forwards := s.db.forwards[row := Forward(f, name, iface)]),
                        s.txs[t := CreateForward(f, name, iface, Tracked)], s.live + {t}, s.cascaded)
    ensures Reachable(s')
  {
    var rows := MatchingSyncs(s.db, f, iface);
    var tx3, tx4 := CreateForward(f, name, iface, Inserted(rows)), CreateForward(f, name, iface, Tracked);
    s' := ReachLocked(s, t, CreateForward(f, name, iface, Provisioned), CreateForward(f, name, iface, FirewallLocked),
                      CreateForward(f, name, iface, TargetLocked(rows)), tx3);
    s' := ReachTracked(s', t, row, tx3, tx4, s.db.(forwards := s.db.forwards[row := Forward(f, name, iface)]));
    assert s.txs[t := tx3][t := tx4] == s.txs[t := tx4];
  }

  lemma ReachUnsync(s: State, t: TxId, f: FirewallId, v: VlanId, iface: string, row: RowId) returns (s': State)
    requires Reachable(s) && Alone(s, t) && t in s.txs && s.txs[t] == Unsync(f, v, iface, {}, Start)
    requires ForwardsInto(s.db, f, iface) == {} && row !in s.db.syncs && row !in s.db.forwards
    ensures s' == s.(db := s.db.(syncs := s.db.syncs - SyncsOf(s.db, f, v)),
                     txs := s.txs[t := Unsync(f, v, iface, SyncsOf(s.db, f, v), Committed)])
    ensures Reachable(s')
  {
    var rows := SyncsOf(s.db, f, v);
    ReachAlone(s, t, DeleteSyncs, s.txs[t], Unsync(f, v, iface, rows, Locked), s.db);
    s' := s.(txs := s.txs[t := Unsync(f, v, iface, rows, Locked)]);
    ReachAlone(s', t, CheckForwards, s'.txs[t], Unsync(f, v, iface, rows, AllClear), s.db);
    s' := s'.(txs := s'.txs[t := Unsync(f, v, iface, rows, AllClear)]);
    ReachAlone(s', t, Commit(row), s'.txs[t], Unsync(f, v, iface, rows, Committed), s.db.(syncs := s.db.syncs - rows));
    s' := s'.(db := s.db.(syncs := s.db.syncs - rows), txs := s'.txs[t := Unsync(f, v, iface, rows, Committed)]);
    assert s'.txs == s.txs[t := Unsync(f, v, iface, rows, Committed)];
  }

  const ReadA := Unsync(1, 1, "a", {}, Start)

  lemma TwoUnsyncsReadA() returns (s: State)
    ensures Reachable(s) && s.db == Db({1}, {1}, map[10 := SyncRow(1, 1, "a")], map[])
    ensures s.txs == map[1 := CreateSync(1, 1, "a", Tracked), 2 := ReadA, 3 := ReadA]
  {
    assert Possible(Empty, []) && Run(Empty, []) == Empty;
    assert {} + {1} == {1};
    s := Empty.(db := Db({1}, {}, map[], map[]));
    Reach(Empty, AddFirewall(1), s);
    var s1 := s.(db := Db({1}, {1}, map[], map[]));
    Reach(s, AddVlan(1), s1);
    s := ReachSync(s1, 1, 1, 1, "a", 10);
    assert s.db.syncs == map[10 := SyncRow(1, 1, "a")];
    var s2 := s.(txs := s.txs[2 := ReadA]);
    Reach(s, Begin(2, ReadA), s2);
    var s3 := s2.(txs := s2.txs[3 := ReadA]);
    Reach(s2, Begin(3, ReadA), s3);
    s := s3;
  }

  lemma SyncedAgainAsB() returns (s: State)
    ensures Reachable(s) && s.db == Db({1}, {1}, map[12 := SyncRow(1, 1, "b")], map[])
    ensures s.txs == map[1 := CreateSync(1, 1, "a", Tracked), 2 := Unsync(1, 1, "a", {10}, Committed), 3 := ReadA,
                         4 := CreateSync(1, 1, "b", Tracked)]
  {
    s := TwoUnsyncsReadA();
    assert SyncsOf(s.db, 1, 1) == {10};
    s := ReachUnsync(s, 2, 1, 1, "a", 11);
    assert s.db.syncs == map[];
    s := ReachSync(s, 4, 1, 1, "b", 12);
    assert s.db.syncs == map[12 := SyncRow(1, 1, "b")];
  }

  // Two unsyncs read the interface name "a"; one commits; the VLAN is synced
  // again as "b" and gets a forward; the other unsync deletes the new row but
  // looks for forwards into "a". The forward is left without a sync row.
  lemma RenamedInterfaceLosesSync()
    ensures exists s :: Reachable(s) && 13 in s.db.forwards && s.db.forwards[13] == Forward(1, "web", "b") && s.db.syncs == map[]
  {
    var s := SyncedAgainAsB();
    assert 12 in MatchingSyncs(s.db, 1, "b");
    s := ReachForward(s, 5, 1, "web", "b", 13);
    assert SyncsOf(s.db, 1, 1) == {12};
    s := ReachUnsync(s, 3, 1, 1, "a", 14);
    assert s.db.syncs == map[];
  }

  // ── Refused create runs ───────────────────────────────────────────────────

  // A refused run can only tear its objects down; nothing ever brings it back.
  lemma RefusedOnlyTearsDown(s: State, t: TxId, step: Step)
    requires Inv(s) && t in s.txs && IsCreate(s.txs[t]) && Enabled(s, step)
    requires AtOf(s.txs[t]).Refused? || AtOf(s.txs[t]).TornDown?
    ensures var s' := Apply(s, step);
            && t in s'.txs && IsCreate(s'.txs[t])
            && (s'.txs[t] == s.txs[t] || (AtOf(s.txs[t]).Refused? && step.Do? && step.t == t && step.stmt.TearDown?))
            && (AtOf(s'.txs[t]).Refused? || AtOf(s'.txs[t]).TornDown?)
            && (AtOf(s'.txs[t]) == TornDown(true) <==> t !in s'.live)
  {
    StepKeepsInv(s, step);
    if step.Do? && step.t == t { RefusedAdvance(s.db, s.txs[t], step.stmt); }
  }

  lemma RefusedAdvance(db: Db, tx: Tx, stmt: Statement)
    requires IsCreate(tx) && (AtOf(tx).Refused? || AtOf(tx).TornDown?)
    ensures var tx' := Advance(db, tx, stmt);
            && IsCreate(tx') && (AtOf(tx').Refused? || AtOf(tx').TornDown?)
            && (tx' == tx || (AtOf(tx).Refused? && stmt.TearDown?))
  {
  }

  // When a create run has no statement left it is tracked, was torn down, or
  // lost to an existing row.
  lemma CreateRunEnds(s: State, t: TxId)
    requires Inv(s) && t in s.txs && IsCreate(s.txs[t])
    requires forall stmt :: Advance(s.db, s.txs[t], stmt) == s.txs[t]
    ensures AtOf(s.txs[t]).Tracked? || AtOf(s.txs[t]).TornDown? || AtOf(s.txs[t]).Duplicate?
  {
    var tx := s.txs[t];
    assert Advance(s.db, tx, LockFirewall) == tx && Advance(s.db, tx, LockTarget) == tx && Advance(s.db, tx, Insert) == tx;
    assert Advance(s.db, tx, Commit(0)) == tx && Advance(s.db, tx, TearDown(true)) == tx;
  }
}
