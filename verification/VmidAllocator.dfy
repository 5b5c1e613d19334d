// The allocator's code: the expiring reservation set, the search for a free id,
// and the parts of getNextVmid and withFreshVmid that run without an await.
module VmidAllocator {
  import opened VmidAllocation

  // Lowest free id; starts below the minimum are raised to it.
  method PickVmid(usedIds: set<Vmid>, reservedIds: set<Vmid>, startAt: int) returns (vmid: Vmid)
    ensures LowestFree(usedIds + reservedIds, From(startAt), vmid)
    ensures vmid == LowestFreeId(usedIds + reservedIds, From(startAt))
    ensures vmid >= VMID_MIN && vmid >= startAt && vmid !in usedIds && vmid !in reservedIds
    ensures forall w: nat :: VMID_MIN <= w < vmid && startAt <= w ==> w in usedIds || w in reservedIds
  {
    vmid := if startAt > VMID_MIN then startAt else VMID_MIN;
    ghost var goal := LowestFreeId(usedIds + reservedIds, From(startAt));
    while vmid in usedIds || vmid in reservedIds
      invariant From(startAt) <= vmid <= goal
      invariant forall w :: From(startAt) <= w < vmid ==> w in usedIds || w in reservedIds
      decreases goal - vmid
    {
      vmid := vmid + 1;
    }
  }

  function Unexpired(entries: map<Vmid, nat>, now: nat): map<Vmid, nat> {
    map v | v in entries && entries[v] > now :: entries[v]
  }

  class VmidReservations {
    var entries: map<Vmid, nat>          // id → when it expires

    constructor ()
      ensures entries == map[]
    {
      entries := map[];
    }

    method Sweep(now: nat)
      modifies this
      ensures entries == Unexpired(old(entries), now)
      ensures forall v :: v in old(entries) ==> (v in entries <==> now < old(entries)[v])
      ensures forall v :: v in entries ==> v in old(entries) && entries[v] == old(entries)[v]
    {
      var todo := entries.Keys;
      while todo != {}
        invariant todo <= old(entries).Keys
        invariant entries == map v | v in old(entries) && (v in todo || old(entries)[v] > now) :: old(entries)[v]
        decreases |todo|
      {
        var v :| v in todo;
        if entries[v] <= now { entries := entries - {v}; }
        todo := todo - {v};
      }
    }

    // The id is held for one lifetime, and only then reported no more; what is
    // reported of other ids does not change.
    method Reserve(v: Vmid, now: nat)
      modifies this
      ensures entries == old(entries)[v := now + TTL]
      ensures forall later: nat :: v in Active(entries, later) <==> later < now + TTL
      ensures forall later: nat, w: Vmid :: w != v ==> (w in Active(entries, later) <==> w in Active(old(entries), later))
    {
      entries := entries[v := now + TTL];
    }

    method Release(v: Vmid) returns (held: bool)
      modifies this
      ensures held == (v in old(entries)) && entries == old(entries) - {v}
    {
      held := v in entries;
      entries := entries - {v};
    }

    // Reading sweeps: nothing expired is reported, nothing unexpired is lost.
    method ActiveIds(now: nat) returns (ids: set<Vmid>)
      modifies this
      ensures ids == Active(old(entries), now) && entries == Unexpired(old(entries), now)
      ensures forall v :: v in ids <==> v in old(entries) && now < old(entries)[v]
      ensures forall v :: v in ids <==> v in entries
    {
      Sweep(now);
      ids := entries.Keys;
    }
  }

  // Dropping expired entries is never noticed: a state and its swept copy offer
  // the same ids to every pick.
  lemma SweepingIsInvisible(reservations: map<Vmid, nat>, now: nat, later: nat)
    requires now <= later
    ensures Active(Unexpired(reservations, now), later) == Active(reservations, later)
  {
  }

  // Two reservation sets that no read tells apart from now on.
  predicate Alike(a: map<Vmid, nat>, b: map<Vmid, nat>, now: nat) { Unexpired(a, now) == Unexpired(b, now) }

  lemma AlikeReads(a: map<Vmid, nat>, b: map<Vmid, nat>, now: nat)
    requires Alike(a, b, now)
    ensures Active(a, now) == Active(b, now)
  {
    assert Active(a, now) == Unexpired(a, now).Keys && Active(b, now) == Unexpired(b, now).Keys;
  }

  lemma UnexpiredWith(a: map<Vmid, nat>, now: nat, v: Vmid, until: nat)
    ensures Unexpired(a[v := until], now) == if until > now then Unexpired(a, now)[v := until] else Unexpired(a, now) - {v}
  {
  }

  lemma AlikeWith(a: map<Vmid, nat>, b: map<Vmid, nat>, now: nat, v: Vmid, until: nat)
    requires Alike(a, b, now)
    ensures Alike(a[v := until], b[v := until], now)
  {
    UnexpiredWith(a, now, v, until);
    UnexpiredWith(b, now, v, until);
  }

  lemma UnexpiredWithout(a: map<Vmid, nat>, now: nat, v: Vmid)
    ensures Unexpired(a - {v}, now) == Unexpired(a, now) - {v}
  {
  }

  lemma AlikeWithout(a: map<Vmid, nat>, b: map<Vmid, nat>, now: nat, v: Vmid)
    requires Alike(a, b, now)
    ensures Alike(a - {v}, b - {v}, now)
  {
    UnexpiredWithout(a, now, v);
    UnexpiredWithout(b, now, v);
  }

  lemma SweptIsAlike(a: map<Vmid, nat>, now: nat)
    ensures Alike(Unexpired(a, now), a, now)
  {
  }

  // The step that a failed call amounts to.
  function FailureStep(id: DeployId, taken: bool, definitiveRejection: bool, submissionStarted: bool, keepRow: bool): Step {
    if taken then Fail(id, Taken(keepRow))
    else if !submissionStarted then Fail(id, NotSent)
    else if definitiveRejection then Fail(id, Rejected)
    else GiveUp(id)
  }

  lemma PickEffect(s: State, id: DeployId, startAt: int)
    requires CanStep(s, Pick(id, startAt))
    ensures var v := LowestFreeId(s.deploys[id].used + Active(s.reservations, s.now), From(startAt));
      var s' := Next(s, Pick(id, startAt));
      s'.reservations == s.reservations[v := s.now + TTL] && s'.now == s.now && s'.deploys[id].phase == Holding(v, s.now, false, false)
  {
  }

  lemma FailureEffect(s: State, id: DeployId, taken: bool, definitiveRejection: bool, submissionStarted: bool, keepRow: bool)
    requires CanStep(s, FailureStep(id, taken, definitiveRejection, submissionStarted, keepRow)) && s.deploys[id].attempt <= 1
    ensures var s' := Next(s, FailureStep(id, taken, definitiveRejection, submissionStarted, keepRow));
      && s'.reservations == (if !taken && (definitiveRejection || !submissionStarted)
                             then s.reservations - {s.deploys[id].phase.v} else s.reservations)
      && s'.now == s.now
      && s'.deploys[id].phase == if taken && s.deploys[id].attempt == 0 then Looking else Ended
  {
  }

  // portal: the hosts, rows and deploys around the reservations, which the
  // object keeps without the expired ones.
  class Allocator {
    const reservations: VmidReservations
    ghost var portal: State

    ghost predicate Valid()
      reads this, reservations
    {
      Alike(reservations.entries, portal.reservations, portal.now)
    }

    constructor (ghost portal: State)
      requires portal.reservations == map[]
      ensures Valid() && fresh(reservations) && this.portal == portal
    {
      reservations := new VmidReservations();
      this.portal := portal;
    }

    // The end of getNextVmid: pick from what was seen and reserve, in one go.
    method PickAndReserve(id: DeployId, usedIds: set<Vmid>, startAt: int, now: nat) returns (vmid: Vmid)
      requires Valid() && CanStep(portal, Pick(id, startAt)) && usedIds == portal.deploys[id].used && now == portal.now
      modifies this, reservations
      ensures Valid() && portal == Next(old(portal), Pick(id, startAt))
      ensures vmid == portal.deploys[id].phase.v
      ensures vmid !in usedIds && vmid !in Active(old(reservations.entries), now) && vmid in Active(reservations.entries, now)
      ensures vmid >= VMID_MIN && vmid >= startAt
      ensures forall w: nat :: VMID_MIN <= w < vmid && startAt <= w ==>
                w in usedIds || (w in old(reservations.entries) && now < old(reservations.entries)[w])
      ensures forall w :: w in reservations.entries <==>
                w == vmid || (w in old(reservations.entries) && now < old(reservations.entries)[w])
      ensures forall w :: w in reservations.entries ==>
                reservations.entries[w] == if w == vmid then now + TTL else old(reservations.entries)[w]
    {
      AlikeReads(reservations.entries, portal.reservations, now);
      SweptIsAlike(reservations.entries, now);
      PickEffect(portal, id, startAt);
      var active := reservations.ActiveIds(now);
      vmid := PickVmid(usedIds, active, startAt);
      AlikeWith(reservations.entries, portal.reservations, now, vmid, now + TTL);
      reservations.Reserve(vmid, now);
      portal := Next(portal, Pick(id, startAt));
    }

    // The provisioning row could not be written.
    method AfterRecordFailure(id: DeployId, vmid: Vmid)
      requires Valid() && CanStep(portal, RecordFails(id)) && portal.deploys[id].phase.v == vmid
      modifies this, reservations
      ensures Valid() && portal == Next(old(portal), RecordFails(id))
      ensures reservations.entries == old(reservations.entries) - {vmid}
    {
      AlikeWithout(reservations.entries, portal.reservations, portal.now, vmid);
      var held := reservations.Release(vmid);
      portal := Next(portal, RecordFails(id));
    }

    // withFreshVmid once its call has failed.
    method AfterFailure(id: DeployId, vmid: Vmid, attempt: nat, taken: bool, definitiveRejection: bool,
                        submissionStarted: bool, ghost keepRow: bool)
      returns (retry: bool)
      requires Valid() && CanStep(portal, FailureStep(id, taken, definitiveRejection, submissionStarted, keepRow))
      requires portal.deploys[id].phase.v == vmid && portal.deploys[id].attempt == attempt <= 1
      modifies this, reservations
      ensures Valid() && portal == Next(old(portal), FailureStep(id, taken, definitiveRejection, submissionStarted, keepRow))
      ensures retry <==> taken && attempt == 0
      ensures portal.deploys[id].phase == if retry then Looking else Ended
      ensures reservations.entries == if (definitiveRejection || !submissionStarted) && !taken
                                      then old(reservations.entries) - {vmid} else old(reservations.entries)
    {
      AlikeWithout(reservations.entries, portal.reservations, portal.now, vmid);
      FailureEffect(portal, id, taken, definitiveRejection, submissionStarted, keepRow);
      if (definitiveRejection || !submissionStarted) && !taken {
        var held := reservations.Release(vmid);
      }
      retry := !(!taken || attempt == 1);
      portal := Next(portal, FailureStep(id, taken, definitiveRejection, submissionStarted, keepRow));
    }
  }
}
