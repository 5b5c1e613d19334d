// The tracking functions on live tables. The small methods are one database
// statement (or commit) of one transaction and perform exactly the step of the
// protocol proved safe in VlanTracking; the handlers at the end are whole runs
// of their statements that no other transaction comes between.
module VlanTrackingDb {
  import opened VlanTracking

  // ── What a create run meets ───────────────────────────────────────────────

  datatype Tracking = Recorded | Exists | FirewallGone | TargetGone

  // The VLAN's sync row or the VLAN itself is gone.
  predicate NoTarget(db: Db, tx: Tx)
    requires IsCreate(tx)
  {
    if tx.CreateForward? then tx.iface != "" && MatchingSyncs(db, tx.firewall, tx.iface) == {} else tx.vlan !in db.vlans
  }

  // The unique index of the tracking table has the row already.
  predicate Taken(db: Db, tx: Tx)
    requires IsCreate(tx)
  {
    if tx.CreateForward? then ForwardsNamed(db, tx.firewall, tx.name) != {} else SyncsOf(db, tx.firewall, tx.vlan) != {}
  }

  function WithoutAt(tx: Tx): Tx
    requires IsCreate(tx)
  {
    if tx.CreateForward? then CreateForward(tx.firewall, tx.name, tx.iface, Provisioned)
    else CreateSync(tx.firewall, tx.vlan, tx.iface, Provisioned)
  }

  function WithRow(db: Db, tx: Tx, row: RowId): Db
    requires IsCreate(tx)
  {
    if tx.CreateForward? then db.(forwards := db.forwards[row := Forward(tx.firewall, tx.name, tx.iface)])
    else db.(syncs := db.syncs[row := SyncRow(tx.firewall, tx.vlan, tx.iface)])
  }

  function Locking(t: TxId, tx: Tx): seq<Step> { [Begin(t, tx), Do(t, LockFirewall), Do(t, LockTarget)] }

  function CreateRun(t: TxId, tx: Tx, r: Tracking, row: RowId, clean: bool): seq<Step> {
    match r
    case FirewallGone => [Begin(t, tx), Do(t, LockFirewall), Do(t, TearDown(clean))]
    case TargetGone => [Begin(t, tx), Do(t, LockFirewall), Do(t, LockTarget), Do(t, TearDown(clean))]
    case Exists => [Begin(t, tx), Do(t, LockFirewall), Do(t, LockTarget), Do(t, Insert)]
    case Recorded => [Begin(t, tx), Do(t, LockFirewall), Do(t, LockTarget), Do(t, Insert), Do(t, Commit(row))]
  }

  // The steps lead from s to s', and if no other transaction holds a lock they
  // can be taken.
  ghost predicate Undisturbed(s: State, t: TxId, steps: seq<Step>, s': State) {
    Run(s, steps) == s' && (Alone(s, t) ==> Possible(s, steps) && Alone(s', t))
  }

  lemma Begins(s: State, t: TxId, tx: Tx)
    requires t !in s.txs && Fresh(tx)
    ensures Undisturbed(s, t, [Begin(t, tx)], Apply(s, Begin(t, tx)))
  {
    assert Run(s, []) == s && Possible(s, []);
    Extends(s, [], s, Begin(t, tx), [Begin(t, tx)]);
  }

  lemma Proceeds(s0: State, t: TxId, steps: seq<Step>, s: State, stmt: Statement, all: seq<Step>)
    requires Undisturbed(s0, t, steps, s) && t in s.txs && Advance(s.db, s.txs[t], stmt) != s.txs[t]
    requires stmt.Commit? ==> stmt.row !in s.db.syncs && stmt.row !in s.db.forwards
    requires all == steps + [Do(t, stmt)]
    ensures Undisturbed(s0, t, all, Apply(s, Do(t, stmt)))
  {
    Extends(s0, steps, s, Do(t, stmt), all);
    if Alone(s, t) { AloneProceeds(s, t, stmt); }
  }

  lemma SetsInWords(db: Db, tx: Tx)
    requires IsCreate(tx)
    ensures tx.CreateForward? ==>
      && (NoTarget(db, tx) <==>
            tx.iface != "" && forall q :: q in db.syncs ==> db.syncs[q].firewall != tx.firewall || db.syncs[q].iface != tx.iface)
      && (Taken(db, tx) <==> exists p :: p in db.forwards && db.forwards[p].firewall == tx.firewall && db.forwards[p].name == tx.name)
    ensures tx.CreateSync? ==>
      && (Taken(db, tx) <==> exists q :: q in db.syncs && db.syncs[q].firewall == tx.firewall && db.syncs[q].vlan == tx.vlan)
  {
    if tx.CreateForward? {
      assert forall q :: q in db.syncs && db.syncs[q].firewall == tx.firewall && db.syncs[q].iface == tx.iface ==>
               q in MatchingSyncs(db, tx.firewall, tx.iface);
      assert forall p :: p in db.forwards && db.forwards[p].firewall == tx.firewall && db.forwards[p].name == tx.name ==>
               p in ForwardsNamed(db, tx.firewall, tx.name);
      NonEmpty(MatchingSyncs(db, tx.firewall, tx.iface));
      NonEmpty(ForwardsNamed(db, tx.firewall, tx.name));
    } else {
      assert forall q :: q in db.syncs && db.syncs[q].firewall == tx.firewall && db.syncs[q].vlan == tx.vlan ==>
               q in SyncsOf(db, tx.firewall, tx.vlan);
      NonEmpty(SyncsOf(db, tx.firewall, tx.vlan));
    }
  }

  lemma NonEmpty(rows: set<RowId>)
    ensures rows != {} ==> exists r :: r in rows
  {
    if rows != {} { var r :| r in rows; }
  }

  class TrackingDb {
    var firewalls: set<FirewallId>
    var vlans: set<VlanId>
    var syncs: map<RowId, SyncRow>
    var forwards: map<RowId, Forward>
    var txs: map<TxId, Tx>
    var live: set<TxId>
    var cascaded: set<RowId>

    ghost function Now(): State
      reads this
    {
      State(Db(firewalls, vlans, syncs, forwards), txs, live, cascaded)
    }

    constructor ()
      ensures Now() == Empty
    {
      firewalls, vlans, syncs, forwards, txs, live, cascaded := {}, {}, map[], map[], map[], {}, {};
    }

    method StartRun(t: TxId, tx: Tx)
      requires t !in txs && Fresh(tx)
      modifies this
      ensures Now() == Apply(old(Now()), Begin(t, tx))
    {
      txs := txs[t := tx];
      if tx.CreateForward? || tx.CreateSync? { live := live + {t}; }
    }

    // lockFirewallForTracking, shared by both create runs
    method LockFirewallForTracking(t: TxId)
      requires t in txs && IsCreate(txs[t]) && AtOf(txs[t]).Provisioned?
      modifies this
      ensures Now() == Apply(old(Now()), Do(t, LockFirewall))
    {
      match txs[t]
      case CreateForward(f, name, iface, _) =>
        txs := txs[t := CreateForward(f, name, iface, if f in firewalls then FirewallLocked else Refused)];
      case CreateSync(f, v, iface, _) =>
        txs := txs[t := CreateSync(f, v, iface, if f in firewalls then FirewallLocked else Refused)];
    }

    // insertForwardIfVlanSynced: the sync row FOR SHARE, only for a VLAN target
    method LockSyncForForward(t: TxId)
      requires t in txs && txs[t].CreateForward? && txs[t].at.FirewallLocked?
      modifies this
      ensures Now() == Apply(old(Now()), Do(t, LockTarget))
    {
      var CreateForward(f, name, iface, _) := txs[t];
      var at := TargetLocked({});
      if iface != "" {
        var held := set r | r in syncs && syncs[r].firewall == f && syncs[r].iface == iface;
        at := if held == {} then Refused else TargetLocked(held);
      }
      txs := txs[t := CreateForward(f, name, iface, at)];
    }

    method LockVlanForSync(t: TxId)
      requires t in txs && txs[t].CreateSync? && txs[t].at.FirewallLocked?
      modifies this
      ensures Now() == Apply(old(Now()), Do(t, LockTarget))
    {
      var CreateSync(f, v, iface, _) := txs[t];
      txs := txs[t := CreateSync(f, v, iface, if v in vlans then TargetLocked({}) else Refused)];
    }

    method InsertTrackingRow(t: TxId)
      requires t in txs && IsCreate(txs[t]) && AtOf(txs[t]).TargetLocked?
      modifies this
      ensures Now() == Apply(old(Now()), Do(t, Insert))
    {
      match txs[t]
      case CreateForward(f, name, iface, TargetLocked(rows)) =>
        var taken := set p | p in forwards && forwards[p].firewall == f && forwards[p].name == name;
        txs := txs[t := CreateForward(f, name, iface, if taken != {} then Duplicate else Inserted(rows))];
      case CreateSync(f, v, iface, TargetLocked(rows)) =>
        var taken := set r | r in syncs && syncs[r].firewall == f && syncs[r].vlan == v;
        txs := txs[t := CreateSync(f, v, iface, if taken != {} then Duplicate else Inserted(rows))];
    }

    method CommitTrackingRow(t: TxId, row: RowId)
      requires t in txs && IsCreate(txs[t]) && AtOf(txs[t]).Inserted?
      modifies this
      ensures Now() == Apply(old(Now()), Do(t, Commit(row)))
    {
      match txs[t]
      case CreateForward(f, name, iface, _) =>
        forwards := forwards[row := Forward(f, name, iface)];
        txs := txs[t := CreateForward(f, name, iface, Tracked)];
      case CreateSync(f, v, iface, _) =>
        syncs := syncs[row := SyncRow(f, v, iface)];
        txs := txs[t := CreateSync(f, v, iface, Tracked)];
    }

    // trackProvisioned: the refused run removes what it created
    method TearDownForGoneTarget(t: TxId, clean: bool)
      requires t in txs && IsCreate(txs[t]) && AtOf(txs[t]).Refused?
      modifies this
      ensures Now() == Apply(old(Now()), Do(t, TearDown(clean)))
    {
      if clean { live := live - {t}; }
      match txs[t]
      case CreateForward(f, name, iface, _) => txs := txs[t := CreateForward(f, name, iface, TornDown(clean))];
      case CreateSync(f, v, iface, _) => txs := txs[t := CreateSync(f, v, iface, TornDown(clean))];
    }

    // deleteSyncUnlessForwarded: delete by firewall and VLAN, then look for
    // forwards into the interface the handler read, then commit or roll back
    method DeleteSyncRow(t: TxId)
      requires t in txs && txs[t].Unsync? && txs[t].phase.Start?
      modifies this
      ensures Now() == Apply(old(Now()), Do(t, DeleteSyncs))
    {
      var Unsync(f, v, iface, _, _) := txs[t];
      var rows := set r | r in syncs && syncs[r].firewall == f && syncs[r].vlan == v;
      txs := txs[t := Unsync(f, v, iface, rows, Locked)];
    }

    method RecheckForwards(t: TxId) returns (forwarded: bool)
      requires t in txs && txs[t].Unsync? && txs[t].phase.Locked?
      modifies this
      ensures Now() == Apply(old(Now()), Do(t, CheckForwards))
      ensures forwarded <==> ForwardsInto(old(Now()).db, old(txs[t]).firewall, old(txs[t]).iface) != {}
    {
      var Unsync(f, v, iface, rows, _) := txs[t];
      var into := set p | p in forwards && forwards[p].firewall == f && forwards[p].iface == iface;
      forwarded := into != {};
      txs := txs[t := Unsync(f, v, iface, rows, if forwarded then Blocked else AllClear)];
    }

    method CommitUnsync(t: TxId, row: RowId)
      requires t in txs && txs[t].Unsync? && txs[t].phase.AllClear?
      modifies this
      ensures Now() == Apply(old(Now()), Do(t, Commit(row)))
    {
      var Unsync(f, v, iface, rows, _) := txs[t];
      syncs := syncs - rows;
      txs := txs[t := Unsync(f, v, iface, rows, Committed)];
    }

    // DELETE /vlans/:id: lock, refuse on a late sync, delete
    method LockVlanForDelete(t: TxId)
      requires t in txs && txs[t].DeleteVlan? && txs[t].phase.Start?
      modifies this
      ensures Now() == Apply(old(Now()), Do(t, LockTarget))
    {
      txs := txs[t := DeleteVlan(txs[t].vlan, Locked)];
    }

    method CheckLateSync(t: TxId)
      requires t in txs && txs[t].DeleteVlan? && txs[t].phase.Locked?
      modifies this
      ensures Now() == Apply(old(Now()), Do(t, CheckSyncs))
    {
      var v := txs[t].vlan;
      var late := set r | r in syncs && syncs[r].vlan == v;
      txs := txs[t := DeleteVlan(v, if late != {} then Blocked else SyncsClear)];
    }

    method DeleteVlanRow(t: TxId, row: RowId)
      requires t in txs && txs[t].DeleteVlan? && txs[t].phase.SyncsClear?
      modifies this
      ensures Now() == Apply(old(Now()), Do(t, Commit(row)))
    {
      var v := txs[t].vlan;
      vlans := vlans - {v};
      cascaded := cascaded + set r | r in syncs && syncs[r].vlan == v;
      syncs := map r | r in syncs && syncs[r].vlan != v :: syncs[r];
      txs := txs[t := DeleteVlan(v, Committed)];
    }

    // DELETE /firewalls/:id: lock, refuse while anything depends on it, delete
    method LockFirewallForDelete(t: TxId)
      requires t in txs && txs[t].DeleteFirewall? && txs[t].phase.Start?
      modifies this
      ensures Now() == Apply(old(Now()), Do(t, LockFirewall))
    {
      txs := txs[t := DeleteFirewall(txs[t].firewall, Locked)];
    }

    method CheckDependentSyncs(t: TxId)
      requires t in txs && txs[t].DeleteFirewall? && txs[t].phase.Locked?
      modifies this
      ensures Now() == Apply(old(Now()), Do(t, CheckSyncs))
    {
      var f := txs[t].firewall;
      var found := set r | r in syncs && syncs[r].firewall == f;
      txs := txs[t := DeleteFirewall(f, if found != {} then Blocked else SyncsClear)];
    }

    method CheckDependentForwards(t: TxId)
      requires t in txs && txs[t].DeleteFirewall? && txs[t].phase.SyncsClear?
      modifies this
      ensures Now() == Apply(old(Now()), Do(t, CheckForwards))
    {
      var f := txs[t].firewall;
      var found := set p | p in forwards && forwards[p].firewall == f;
      txs := txs[t := DeleteFirewall(f, if found != {} then Blocked else AllClear)];
    }

    method DeleteFirewallRow(t: TxId, row: RowId)
      requires t in txs && txs[t].DeleteFirewall? && txs[t].phase.AllClear?
      modifies this
      ensures Now() == Apply(old(Now()), Do(t, Commit(row)))
    {
      var f := txs[t].firewall;
      firewalls := firewalls - {f};
      cascaded := cascaded + ((set r | r in syncs && syncs[r].firewall == f) + set p | p in forwards && forwards[p].firewall == f);
      syncs := map r | r in syncs && syncs[r].firewall != f :: syncs[r];
      forwards := map p | p in forwards && forwards[p].firewall != f :: forwards[p];
      txs := txs[t := DeleteFirewall(f, Committed)];
    }

    method DeleteForwardRow(row: RowId)
      modifies this
      ensures Now() == Apply(old(Now()), RemoveForward(row))
    {
      forwards := forwards - {row};
    }

    // ── Whole handlers ──────────────────────────────────────────────────────

    // trackProvisioned with either insert: the row is recorded exactly if
    // firewall and target are still there and no such row exists; if one is
    // gone, what the run created is removed again.
    method TrackProvisioned(t: TxId, tx: Tx, row: RowId, clean: bool) returns (r: Tracking)
      requires t !in txs && Fresh(tx) && IsCreate(tx) && row !in syncs && row !in forwards
      modifies this
      ensures r == (if tx.firewall !in old(firewalls) then FirewallGone
                    else if NoTarget(old(Now().db), tx) then TargetGone
                    else if Taken(old(Now().db), tx) then Exists
                    else Recorded)
      ensures Now().db == if r.Recorded? then WithRow(old(Now().db), tx, row) else old(Now().db)
      ensures cascaded == old(cascaded)
      ensures live == if (r.FirewallGone? || r.TargetGone?) && clean then old(live) - {t} else old(live) + {t}
      ensures r.TargetGone? ==> if tx.CreateSync? then tx.vlan !in vlans else
                tx.iface != "" && forall q :: q in old(syncs) ==> old(syncs)[q].firewall != tx.firewall || old(syncs)[q].iface != tx.iface
      ensures r.Exists? || r.Recorded? ==> if tx.CreateSync? then tx.vlan in vlans else
                tx.iface == "" || exists q :: q in old(syncs) && old(syncs)[q].firewall == tx.firewall && old(syncs)[q].iface == tx.iface
      ensures r.Exists? && tx.CreateSync? ==>
                exists q :: q in old(syncs) && old(syncs)[q].firewall == tx.firewall && old(syncs)[q].vlan == tx.vlan
      ensures r.Exists? && tx.CreateForward? ==>
                exists p :: p in old(forwards) && old(forwards)[p].firewall == tx.firewall && old(forwards)[p].name == tx.name
      ensures r.Recorded? && tx.CreateSync? ==>
                && (forall q :: q in old(syncs) ==> old(syncs)[q].firewall != tx.firewall || old(syncs)[q].vlan != tx.vlan)
                && syncs == old(syncs)[row := SyncRow(tx.firewall, tx.vlan, tx.iface)] && forwards == old(forwards)
      ensures r.Recorded? && tx.CreateForward? ==>
                && (forall p :: p in old(forwards) ==> old(forwards)[p].firewall != tx.firewall || old(forwards)[p].name != tx.name)
                && forwards == old(forwards)[row := Forward(tx.firewall, tx.name, tx.iface)] && syncs == old(syncs)
      ensures Undisturbed(old(Now()), t, CreateRun(t, tx, r, row, clean), Now())
    {
      ghost var db := Now().db;
      SetsInWords(db, tx);
      r := LockTargets(t, tx, clean);
      if r.Recorded? { r := InsertLocked(old(Now()), t, tx, row); }
    }

    // Both locks, or the tear-down; Recorded stands for a run that may insert.
    method LockTargets(t: TxId, tx: Tx, clean: bool) returns (r: Tracking)
      requires t !in txs && Fresh(tx) && IsCreate(tx)
      modifies this
      ensures r == (if tx.firewall !in old(firewalls) then FirewallGone
                    else if NoTarget(old(Now().db), tx) then TargetGone
                    else Recorded)
      ensures Now().db == old(Now().db) && cascaded == old(cascaded)
      ensures live == if !r.Recorded? && clean then old(live) - {t} else old(live) + {t}
      ensures r.Recorded? ==> t in txs && IsCreate(txs[t]) && WithoutAt(txs[t]) == tx && AtOf(txs[t]).TargetLocked?
      ensures Undisturbed(old(Now()), t, if r.Recorded? then Locking(t, tx) else CreateRun(t, tx, r, 0, clean), Now())
    {
      ghost var s0 := Now();
      var there := LockFirewallOf(t, tx);
      if !there {
        Proceeds(s0, t, [Begin(t, tx), Do(t, LockFirewall)], Now(), TearDown(clean), CreateRun(t, tx, FirewallGone, 0, clean));
        TearDownForGoneTarget(t, clean);
        return FirewallGone;
      }
      there := LockTargetOf(s0, t, tx);
      if there { return Recorded; }
      Proceeds(s0, t, Locking(t, tx), Now(), TearDown(clean), CreateRun(t, tx, TargetGone, 0, clean));
      TearDownForGoneTarget(t, clean);
      return TargetGone;
    }

    method LockFirewallOf(t: TxId, tx: Tx) returns (there: bool)
      requires t !in txs && Fresh(tx) && IsCreate(tx)
      modifies this
      ensures there == (tx.firewall in firewalls)
      ensures t in txs && IsCreate(txs[t]) && WithoutAt(txs[t]) == tx && AtOf(txs[t]) == if there then FirewallLocked else Refused
      ensures Now().db == old(Now().db) && cascaded == old(cascaded) && live == old(live) + {t}
      ensures Undisturbed(old(Now()), t, [Begin(t, tx), Do(t, LockFirewall)], Now())
    {
      ghost var s0 := Now();
      StartRun(t, tx);
      Begins(s0, t, tx);
      Proceeds(s0, t, [Begin(t, tx)], Now(), LockFirewall, [Begin(t, tx), Do(t, LockFirewall)]);
      LockFirewallForTracking(t);
      there := AtOf(txs[t]).FirewallLocked?;
    }

    method LockTargetOf(ghost s0: State, t: TxId, tx: Tx) returns (there: bool)
      requires Undisturbed(s0, t, [Begin(t, tx), Do(t, LockFirewall)], Now())
      requires t in txs && IsCreate(tx) && IsCreate(txs[t]) && WithoutAt(txs[t]) == tx && AtOf(txs[t]).FirewallLocked?
      modifies this
      ensures there == !NoTarget(old(Now().db), tx)
      ensures t in txs && IsCreate(txs[t]) && WithoutAt(txs[t]) == tx
      ensures if there then AtOf(txs[t]).TargetLocked? else AtOf(txs[t]).Refused?
      ensures Now().db == old(Now().db) && cascaded == old(cascaded) && live == old(live)
      ensures Undisturbed(s0, t, Locking(t, tx), Now())
    {
      Proceeds(s0, t, [Begin(t, tx), Do(t, LockFirewall)], Now(), LockTarget, Locking(t, tx));
      if tx.CreateForward? { LockSyncForForward(t); } else { LockVlanForSync(t); }
      there := AtOf(txs[t]).TargetLocked?;
    }

    method InsertLocked(ghost s0: State, t: TxId, tx: Tx, row: RowId) returns (r: Tracking)
      requires Undisturbed(s0, t, Locking(t, tx), Now())
      requires t in txs && IsCreate(tx) && IsCreate(txs[t]) && WithoutAt(txs[t]) == tx && AtOf(txs[t]).TargetLocked?
      requires row !in syncs && row !in forwards
      modifies this
      ensures r == if Taken(old(Now().db), tx) then Exists else Recorded
      ensures Now().db == if r.Recorded? then WithRow(old(Now().db), tx, row) else old(Now().db)
      ensures live == old(live) && cascaded == old(cascaded)
      ensures Undisturbed(s0, t, CreateRun(t, tx, r, row, false), Now())
    {
      Proceeds(s0, t, Locking(t, tx), Now(), Insert, CreateRun(t, tx, Exists, row, false));
      InsertTrackingRow(t);
      if AtOf(txs[t]).Duplicate? { return Exists; }
      Proceeds(s0, t, CreateRun(t, tx, Exists, row, false), Now(), Commit(row), CreateRun(t, tx, Recorded, row, false));
      CommitTrackingRow(t, row);
      return Recorded;
    }

    // deleteSyncUnlessForwarded with the interface name read before: all sync
    // rows of the firewall and VLAN go, or none.
    method DeleteSyncUnlessForwarded(t: TxId, f: FirewallId, v: VlanId, iface: string, row: RowId) returns (done: bool)
      requires t !in txs && row !in syncs && row !in forwards
      modifies this
      ensures done <==> ForwardsInto(old(Now().db), f, iface) == {}
      ensures syncs == if done then old(syncs) - SyncsOf(old(Now().db), f, v) else old(syncs)
      ensures done ==> forall p :: p in forwards ==> forwards[p].firewall != f || forwards[p].iface != iface
      ensures !done ==> exists p :: p in forwards && forwards[p].firewall == f && forwards[p].iface == iface
      ensures forall q :: q in old(syncs) ==>
                (q in syncs <==> !done || old(syncs)[q].firewall != f || old(syncs)[q].vlan != v)
      ensures forall q :: q in syncs ==> q in old(syncs) && syncs[q] == old(syncs)[q]
      ensures firewalls == old(firewalls) && vlans == old(vlans) && forwards == old(forwards)
      ensures live == old(live) && cascaded == old(cascaded)
      ensures var steps := [Begin(t, Unsync(f, v, iface, {}, Start)), Do(t, DeleteSyncs), Do(t, CheckForwards)];
              Undisturbed(old(Now()), t, if done then steps + [Do(t, Commit(row))] else steps, Now())
    {
      ghost var s0 := Now();
      var tx := Unsync(f, v, iface, {}, Start);
      StartRun(t, tx);
      Begins(s0, t, tx);
      Proceeds(s0, t, [Begin(t, tx)], Now(), DeleteSyncs, [Begin(t, tx), Do(t, DeleteSyncs)]);
      DeleteSyncRow(t);
      ghost var steps := [Begin(t, tx), Do(t, DeleteSyncs), Do(t, CheckForwards)];
      Proceeds(s0, t, [Begin(t, tx), Do(t, DeleteSyncs)], Now(), CheckForwards, steps);
      assert forall p :: p in forwards && forwards[p].firewall == f && forwards[p].iface == iface ==> p in ForwardsInto(s0.db, f, iface);
      NonEmpty(ForwardsInto(s0.db, f, iface));
      var forwarded := RecheckForwards(t);
      if forwarded { return false; }
      Proceeds(s0, t, steps, Now(), Commit(row), steps + [Do(t, Commit(row))]);
      CommitUnsync(t, row);
      return true;
    }

    // The VLAN goes exactly if it has no sync row left, and takes none along.
    method DeleteVlanUnlessSynced(t: TxId, v: VlanId, row: RowId) returns (done: bool)
      requires t !in txs && row !in syncs && row !in forwards
      modifies this
      ensures done <==> SyncsOfVlan(old(Now().db), v) == {}
      ensures done <==> forall q :: q in old(syncs) ==> old(syncs)[q].vlan != v
      ensures vlans == if done then old(vlans) - {v} else old(vlans)
      ensures firewalls == old(firewalls) && syncs == old(syncs) && forwards == old(forwards)
      ensures live == old(live) && cascaded == old(cascaded)
      ensures var steps := [Begin(t, DeleteVlan(v, Start)), Do(t, LockTarget), Do(t, CheckSyncs)];
              Undisturbed(old(Now()), t, if done then steps + [Do(t, Commit(row))] else steps, Now())
    {
      ghost var s0 := Now();
      var tx := DeleteVlan(v, Start);
      StartRun(t, tx);
      Begins(s0, t, tx);
      Proceeds(s0, t, [Begin(t, tx)], Now(), LockTarget, [Begin(t, tx), Do(t, LockTarget)]);
      LockVlanForDelete(t);
      ghost var steps := [Begin(t, tx), Do(t, LockTarget), Do(t, CheckSyncs)];
      Proceeds(s0, t, [Begin(t, tx), Do(t, LockTarget)], Now(), CheckSyncs, steps);
      assert forall r :: r in syncs && syncs[r].vlan == v ==> r in SyncsOfVlan(s0.db, v);
      NonEmpty(SyncsOfVlan(s0.db, v));
      CheckLateSync(t);
      if txs[t].phase.Blocked? { return false; }
      Proceeds(s0, t, steps, Now(), Commit(row), steps + [Do(t, Commit(row))]);
      assert SyncsOfVlan(Now().db, v) == {};
      assert forall r :: r in syncs && syncs[r].vlan == v ==> r in SyncsOfVlan(Now().db, v);
      DeleteVlanRow(t, row);
      return true;
    }

    // The firewall goes exactly if neither syncs nor forwards depend on it.
    method DeleteFirewallUnlessUsed(t: TxId, f: FirewallId, row: RowId) returns (done: bool)
      requires t !in txs && row !in syncs && row !in forwards
      modifies this
      ensures done <==> SyncsOfFirewall(old(Now().db), f) == {} && ForwardsOf(old(Now().db), f) == {}
      ensures done <==> (forall q :: q in old(syncs) ==> old(syncs)[q].firewall != f)
                        && (forall p :: p in old(forwards) ==> old(forwards)[p].firewall != f)
      ensures firewalls == if done then old(firewalls) - {f} else old(firewalls)
      ensures vlans == old(vlans) && syncs == old(syncs) && forwards == old(forwards)
      ensures live == old(live) && cascaded == old(cascaded)
      ensures exists steps :: Undisturbed(old(Now()), t, steps, Now())
    {
      ghost var s0 := Now();
      ghost var steps;
      assert forall r :: r in syncs && syncs[r].firewall == f ==> r in SyncsOfFirewall(s0.db, f);
      assert forall p :: p in forwards && forwards[p].firewall == f ==> p in ForwardsOf(s0.db, f);
      NonEmpty(SyncsOfFirewall(s0.db, f));
      NonEmpty(ForwardsOf(s0.db, f));
      done, steps := CheckDependents(t, f);
      if done {
        Proceeds(s0, t, steps, Now(), Commit(row), steps + [Do(t, Commit(row))]);
        assert forall r :: r in syncs && syncs[r].firewall == f ==> r in SyncsOfFirewall(Now().db, f);
        assert forall p :: p in forwards && forwards[p].firewall == f ==> p in ForwardsOf(Now().db, f);
        DeleteFirewallRow(t, row);
      }
    }

    method CheckDependents(t: TxId, f: FirewallId) returns (clear: bool, ghost steps: seq<Step>)
      requires t !in txs
      modifies this
      ensures clear <==> SyncsOfFirewall(Now().db, f) == {} && ForwardsOf(Now().db, f) == {}
      ensures t in txs && (clear ==> txs[t] == DeleteFirewall(f, AllClear))
      ensures Now().db == old(Now().db) && live == old(live) && cascaded == old(cascaded)
      ensures Undisturbed(old(Now()), t, steps, Now())
    {
      ghost var s0 := Now();
      var tx := DeleteFirewall(f, Start);
      StartRun(t, tx);
      Begins(s0, t, tx);
      steps := [Begin(t, tx), Do(t, LockFirewall)];
      Proceeds(s0, t, [Begin(t, tx)], Now(), LockFirewall, steps);
      LockFirewallForDelete(t);
      Proceeds(s0, t, steps, Now(), CheckSyncs, steps + [Do(t, CheckSyncs)]);
      steps := steps + [Do(t, CheckSyncs)];
      CheckDependentSyncs(t);
      clear := txs[t].phase.SyncsClear?;
      if clear {
        Proceeds(s0, t, steps, Now(), CheckForwards, steps + [Do(t, CheckForwards)]);
        steps := steps + [Do(t, CheckForwards)];
        CheckDependentForwards(t);
        clear := txs[t].phase.AllClear?;
      }
    }
  }
}
