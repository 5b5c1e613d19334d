// Which portal rows a finished migration leaves behind: the policy tables of
// one VM are merged under the target's name, keeping the source's row.
module VmRepoint {
  import opened Options
  import opened NodeRef

  type RowId = nat

  // The identity of a row; its other columns travel with its id.
  datatype Row = Row(node: string, vmid: nat, user: nat)

  type Table = map<RowId, Row>

  // from: the source's names by preference; scope: all names looked at.
  datatype Job = Job(vmid: nat, from: seq<string>, scope: set<string>, to: string)

  function JobOf(source: string, vmid: nat, target: string): Job {
    var from := Candidates(source);
    Job(vmid, from, (set n | n in from) + (set n | n in Candidates(target)), target)
  }

  // ── Groups of rows that denote the same thing ─────────────────────────────

  // Per user in the user table, one group otherwise.
  function GroupOf(perUser: bool, row: Row): nat { if perUser then row.user else 0 }

  function InScope(t: Table, job: Job, perUser: bool, group: nat): set<RowId> {
    set id | id in t && t[id].vmid == job.vmid && t[id].node in job.scope && GroupOf(perUser, t[id]) == group
  }

  function Named(t: Table, rows: set<RowId>, node: string): set<RowId>
    requires rows <= t.Keys
  {
    set id | id in rows && t[id].node == node
  }

  ghost function Least(s: set<RowId>): (r: RowId)
    requires s != {}
    ensures r in s && forall x :: x in s ==> r <= x
    decreases |s|
  {
    var x :| x in s;
    var rest := s - {x};
    assert forall y :: y in s ==> y == x || y in rest;
    if rest == {} then x
    else
      var r := Least(rest);
      if r <= x then r else x
  }

  // The group's row to keep: the first one under the most preferred source name.
  ghost function Kept(t: Table, rows: set<RowId>, names: seq<string>): (r: Option<RowId>)
    requires rows <= t.Keys
    ensures r.Some? ==> r.value in rows && t[r.value].node in names
    ensures r.None? <==> forall id :: id in rows ==> t[id].node !in names
  {
    if names == [] then None
    else if Named(t, rows, names[0]) != {} then Some(Least(Named(t, rows, names[0])))
    else
      var r := Kept(t, rows, names[1..]);
      assert forall id :: id in rows && t[id].node == names[0] ==> id in Named(t, rows, names[0]);
      assert r.None? ==> forall id :: id in rows ==> t[id].node !in names[1..];
      assert forall n :: n in names <==> n == names[0] || n in names[1..];
      r
  }

  ghost function KeptOf(t: Table, job: Job, perUser: bool, group: nat): Option<RowId> {
    Kept(t, InScope(t, job, perUser, group), job.from)
  }

  // ── The merged table ──────────────────────────────────────────────────────

  // Does the merge of these groups drop the row, or move it to the target?
  ghost predicate Drops(t: Table, job: Job, perUser: bool, groups: set<nat>, id: RowId)
    requires id in t
  {
    var g := GroupOf(perUser, t[id]);
    && g in groups && id in InScope(t, job, perUser, g)
    && KeptOf(t, job, perUser, g).Some? && KeptOf(t, job, perUser, g) != Some(id)
  }

  ghost predicate Moves(t: Table, job: Job, perUser: bool, groups: set<nat>, id: RowId)
    requires id in t
  {
    var g := GroupOf(perUser, t[id]);
    g in groups && KeptOf(t, job, perUser, g) == Some(id)
  }

  ghost function MergedFor(t: Table, job: Job, perUser: bool, groups: set<nat>): Table {
    map id | id in t && !Drops(t, job, perUser, groups, id) ::
      if Moves(t, job, perUser, groups, id) then t[id].(node := job.to) else t[id]
  }

  // Groups that have a row under a source name.
  function Groups(t: Table, job: Job, perUser: bool): set<nat> {
    set id | id in t && t[id].vmid == job.vmid && t[id].node in job.scope && t[id].node in job.from ::
      GroupOf(perUser, t[id])
  }

  ghost function Merged(t: Table, job: Job, perUser: bool): Table {
    MergedFor(t, job, perUser, Groups(t, job, perUser))
  }

  // One row per VM name and, in the user table, per user.
  ghost predicate UniqueKeys(t: Table, perUser: bool) {
    forall a, b :: a in t && b in t && a != b && t[a].node == t[b].node && t[a].vmid == t[b].vmid
      ==> GroupOf(perUser, t[a]) != GroupOf(perUser, t[b])
  }

  ghost predicate JobOk(job: Job) { forall n :: n in job.from ==> n in job.scope }

  lemma JobOfOk(source: string, vmid: nat, target: string)
    ensures JobOk(JobOf(source, vmid, target))
    ensures JobOf(source, vmid, target).from == Candidates(source) && JobOf(source, vmid, target).to == target
    ensures JobOf(source, vmid, target).vmid == vmid
    ensures forall n :: n in JobOf(source, vmid, target).scope <==> n in Candidates(source) || n in Candidates(target)
  {
  }

  // ── Which row is kept ─────────────────────────────────────────────────────

  lemma {:induction false} KeptIsPreferred(t: Table, rows: set<RowId>, names: seq<string>, id: RowId, k: nat)
    requires rows <= t.Keys && Kept(t, rows, names) == Some(id)
    requires k < |names| && t[id].node == names[k] && names[k] !in names[..k]
    ensures forall other :: other in rows ==> t[other].node !in names[..k]
    ensures forall other :: other in rows && t[other].node == names[k] ==> id <= other
  {
    assert forall j :: 0 <= j < k ==> names[j] == names[..k][j];
    assert forall other :: other in rows && t[other].node == names[0] ==> other in Named(t, rows, names[0]);
    if Named(t, rows, names[0]) == {} {
      assert names[1..][..k - 1] == names[..k][1..];
      KeptIsPreferred(t, rows, names[1..], id, k - 1);
      assert forall n :: n in names[..k] <==> n == names[0] || n in names[..k][1..];
    }
  }

  lemma KeptInGroup(t: Table, job: Job, perUser: bool, g: nat)
    ensures KeptOf(t, job, perUser, g).Some? ==>
              KeptOf(t, job, perUser, g).value in InScope(t, job, perUser, g)
    ensures JobOk(job) ==> (KeptOf(t, job, perUser, g).Some? <==> g in Groups(t, job, perUser))
  {
    assert forall id :: (id in t && t[id].vmid == job.vmid && t[id].node in job.scope && GroupOf(perUser, t[id]) == g)
                        ==> id in InScope(t, job, perUser, g);
    if KeptOf(t, job, perUser, g).Some? {
      var id := KeptOf(t, job, perUser, g).value;
      assert id in InScope(t, job, perUser, g);
      assert GroupOf(perUser, t[id]) in Groups(t, job, perUser);
    }
  }

  // ── Properties of the merge ───────────────────────────────────────────────

  // No row of the VM is left under a source name other than the target's own.
  lemma NoSourceNameLeft(t: Table, job: Job, perUser: bool, id: RowId)
    requires JobOk(job) && id in Merged(t, job, perUser)
    ensures var row := Merged(t, job, perUser)[id]; row.vmid == job.vmid && row.node in job.from ==> row.node == job.to
  {
    var g := GroupOf(perUser, t[id]);
    KeptInGroup(t, job, perUser, g);
    if t[id].vmid == job.vmid && t[id].node in job.from {
      assert id in InScope(t, job, perUser, g);
      assert g in Groups(t, job, perUser);
    }
  }

  // Rows of other VMs, of other names and of groups without a source row stay
  // as they are; a kept row changes its node only.
  lemma OthersUntouched(t: Table, job: Job, perUser: bool, id: RowId)
    requires JobOk(job) && id in t
    ensures t[id].vmid != job.vmid || t[id].node !in job.scope || GroupOf(perUser, t[id]) !in Groups(t, job, perUser)
            ==> id in Merged(t, job, perUser) && Merged(t, job, perUser)[id] == t[id]
    ensures KeptOf(t, job, perUser, GroupOf(perUser, t[id])) == Some(id)
            ==> id in Merged(t, job, perUser) && Merged(t, job, perUser)[id] == t[id].(node := job.to)
  {
    KeptInGroup(t, job, perUser, GroupOf(perUser, t[id]));
  }

  // The merge deletes, renames or keeps a row.
  ghost predicate Touched(t: Table, job: Job, perUser: bool, id: RowId)
    requires id in t
  {
    id !in Merged(t, job, perUser) || Merged(t, job, perUser)[id] != t[id]
  }

  // A row that stands for neither the VM before its migration nor the VM after
  // it is touched exactly if it carries the VM's id under the bare name of the
  // source or target node, next to a row of its group under a source name.
  lemma NamesakesAreTouched(t: Table, source: string, vmid: nat, target: string, perUser: bool, id: RowId,
                            home: (string, nat) -> nat)
    requires id in t
    requires Denotes(t[id].node, t[id].vmid, home) != Denotes(source, vmid, home)
    requires Denotes(t[id].node, t[id].vmid, home) != Denotes(target, vmid, home)
    ensures var job := JobOf(source, vmid, target);
      Touched(t, job, perUser, id) <==>
      && t[id].vmid == vmid && t[id].node in {Decode(source).name, Decode(target).name}
      && GroupOf(perUser, t[id]) in Groups(t, job, perUser)
  {
    var job := JobOf(source, vmid, target);
    var g := GroupOf(perUser, t[id]);
    OthersUntouched(t, job, perUser, id);
    KeptInGroup(t, job, perUser, g);
    if t[id].vmid == vmid && g in Groups(t, job, perUser) {
      LookedUpByBareName(source, t[id].node, vmid, home);
      LookedUpByBareName(target, t[id].node, vmid, home);
      assert t[id].node in job.scope <==> t[id].node in {Decode(source).name, Decode(target).name};
      if t[id].node in job.scope {
        assert id in InScope(t, job, perUser, g);
        if KeptOf(t, job, perUser, g) != Some(id) { assert Drops(t, job, perUser, Groups(t, job, perUser), id); }
      }
    }
  }

  // A row of another host's VM with the same id, under the bare name that the
  // two nodes share, is renamed to the target.
  lemma NamesakeIsTaken(source: string, vmid: nat, target: string, name: string, home: (string, nat) -> nat)
    requires Decode(source).host.Some? && Decode(source).host.value != 0 && Decode(source).name == name != target
    requires Decode(name) == NodeRef(None, name, name) && home(name, vmid) != Decode(source).host.value
    ensures var t := map[0 := Row(name, vmid, 0)];
      && Denotes(name, vmid, home) != Denotes(source, vmid, home)
      && Merged(t, JobOf(source, vmid, target), false) == map[0 := Row(target, vmid, 0)]
  {
    var job := JobOf(source, vmid, target);
    assert Candidates(source)[1] == name;
    JobOfOk(source, vmid, target);
    OnlyRowIsMoved(Row(name, vmid, 0), job);
  }

  lemma OnlyRowIsMoved(row: Row, job: Job)
    requires JobOk(job) && row.vmid == job.vmid && row.node in job.from
    ensures Merged(map[0 := row], job, false) == map[0 := row.(node := job.to)]
  {
    var t: Table := map[0 := row];
    KeptInGroup(t, job, false, 0);
    assert GroupOf(false, t[0]) in Groups(t, job, false);
    assert KeptOf(t, job, false, 0) == Some(0);
    OthersUntouched(t, job, false, 0);
  }

  // All rows of the group under any name the merge looked at, before and after.
  function Together(t: Table, job: Job, perUser: bool, g: nat): set<RowId> {
    set id | id in t && t[id].vmid == job.vmid && t[id].node in job.scope + {job.to} && GroupOf(perUser, t[id]) == g
  }

  // A group with a source row ends as that one row, if the target's name is
  // among the names looked at.
  lemma OneRowLeft(t: Table, job: Job, perUser: bool, g: nat)
    requires JobOk(job) && job.to in job.scope && g in Groups(t, job, perUser)
    ensures KeptOf(t, job, perUser, g).Some?
    ensures Together(Merged(t, job, perUser), job, perUser, g) == {KeptOf(t, job, perUser, g).value}
  {
    KeptInGroup(t, job, perUser, g);
    var t' := Merged(t, job, perUser);
    var kept := KeptOf(t, job, perUser, g).value;
    OthersUntouched(t, job, perUser, kept);
    forall id | id in Together(t', job, perUser, g) ensures id == kept {
      assert id in t && t[id].vmid == job.vmid && GroupOf(perUser, t[id]) == g;
      assert id in InScope(t, job, perUser, g);
    }
  }

  // A group without a source row is left alone, so the VM has at most one row
  // across all names exactly when it has a source row or had at most one.
  lemma AtMostOneRow(t: Table, job: Job, perUser: bool, g: nat)
    requires JobOk(job) && job.to in job.scope
    ensures |Together(Merged(t, job, perUser), job, perUser, g)| <= 1 <==>
            g in Groups(t, job, perUser) || |Together(t, job, perUser, g)| <= 1
  {
    if g in Groups(t, job, perUser) {
      OneRowLeft(t, job, perUser, g);
    } else {
      var t' := Merged(t, job, perUser);
      forall id | id in t && GroupOf(perUser, t[id]) == g ensures id in t' && t'[id] == t[id] {
        OthersUntouched(t, job, perUser, id);
      }
      forall id | id in t' && GroupOf(perUser, t'[id]) == g ensures GroupOf(perUser, t[id]) == g {
      }
      assert Together(t', job, perUser, g) == Together(t, job, perUser, g);
    }
  }

  // ── Uniqueness ────────────────────────────────────────────────────────────

  // A row outside the scope already carries the target's name.
  ghost predicate Collides(t: Table, job: Job, perUser: bool, groups: set<nat>) {
    && job.to !in job.scope
    && (exists id :: id in t && t[id].vmid == job.vmid && t[id].node == job.to
                     && GroupOf(perUser, t[id]) in groups && KeptOf(t, job, perUser, GroupOf(perUser, t[id])).Some?)
  }

  lemma MovedIsAlone(t: Table, job: Job, perUser: bool, groups: set<nat>, a: RowId, b: RowId)
    requires JobOk(job) && !Collides(t, job, perUser, groups)
    requires a in MergedFor(t, job, perUser, groups) && b in MergedFor(t, job, perUser, groups) && a != b
    requires Moves(t, job, perUser, groups, a) && !Moves(t, job, perUser, groups, b)
    requires t[b].vmid == job.vmid && t[b].node == job.to
    ensures GroupOf(perUser, t[a]) != GroupOf(perUser, t[b])
  {
    var g := GroupOf(perUser, t[a]);
    KeptInGroup(t, job, perUser, g);
    assert job.to in job.scope ==> b in InScope(t, job, perUser, GroupOf(perUser, t[b]));
  }

  // Merging any of the groups keeps the keys unique, unless the target's name
  // is foreign to the merge and taken: then the last statement fails on the
  // unique index.
  lemma MergeKeepsKeysUnique(t: Table, job: Job, perUser: bool, groups: set<nat>)
    requires JobOk(job) && UniqueKeys(t, perUser) && !Collides(t, job, perUser, groups)
    ensures UniqueKeys(MergedFor(t, job, perUser, groups), perUser)
  {
    var t' := MergedFor(t, job, perUser, groups);
    forall a, b | a in t' && b in t' && a != b && t'[a].node == t'[b].node && t'[a].vmid == t'[b].vmid
      ensures GroupOf(perUser, t'[a]) != GroupOf(perUser, t'[b])
    {
      var ma, mb := Moves(t, job, perUser, groups, a), Moves(t, job, perUser, groups, b);
      if ma { KeptInGroup(t, job, perUser, GroupOf(perUser, t[a])); }
      if mb { KeptInGroup(t, job, perUser, GroupOf(perUser, t[b])); }
      if ma && !mb { MovedIsAlone(t, job, perUser, groups, a, b); }
      if mb && !ma { MovedIsAlone(t, job, perUser, groups, b, a); }
    }
  }

  lemma UniqueExactly(t: Table, job: Job, perUser: bool)
    requires JobOk(job) && UniqueKeys(t, perUser)
    ensures UniqueKeys(Merged(t, job, perUser), perUser) <==> !Collides(t, job, perUser, Groups(t, job, perUser))
  {
    var groups := Groups(t, job, perUser);
    if Collides(t, job, perUser, groups) {
      var id :| id in t && t[id].vmid == job.vmid && t[id].node == job.to
                && GroupOf(perUser, t[id]) in groups && KeptOf(t, job, perUser, GroupOf(perUser, t[id])).Some?;
      var g := GroupOf(perUser, t[id]);
      var kept := KeptOf(t, job, perUser, g).value;
      KeptInGroup(t, job, perUser, g);
      OthersUntouched(t, job, perUser, kept);
      OthersUntouched(t, job, perUser, id);
      var t' := Merged(t, job, perUser);
      assert kept in t' && id in t' && kept != id && t'[kept].node == t'[id].node;
    } else {
      MergeKeepsKeysUnique(t, job, perUser, groups);
    }
  }

  // A target that names itself never collides.
  lemma SelfNamedTargetIsSafe(t: Table, source: string, vmid: nat, target: string, perUser: bool)
    requires UniqueKeys(t, perUser) && target in Candidates(target)
    ensures UniqueKeys(Merged(t, JobOf(source, vmid, target), perUser), perUser)
  {
    JobOfOk(source, vmid, target);
    UniqueExactly(t, JobOf(source, vmid, target), perUser);
  }

  // ── One group at a time ───────────────────────────────────────────────────

  ghost function Duplicates(t: Table, job: Job, perUser: bool, g: nat): set<RowId> {
    var kept := KeptOf(t, job, perUser, g);
    if kept.None? then {} else InScope(t, job, perUser, g) - {kept.value}
  }

  // Deleting a group's duplicates and renaming its kept row merges that group.
  lemma MergeOneMore(t: Table, job: Job, perUser: bool, done: set<nat>, g: nat)
    requires g !in done
    ensures var kept := KeptOf(t, job, perUser, g);
      var left := MergedFor(t, job, perUser, done) - Duplicates(t, job, perUser, g);
      && (kept.None? ==> MergedFor(t, job, perUser, done + {g}) == MergedFor(t, job, perUser, done))
      && (kept.Some? ==>
            && kept.value in left && left[kept.value] == t[kept.value]
            && MergedFor(t, job, perUser, done + {g}) == left[kept.value := t[kept.value].(node := job.to)])
  {
    KeptInGroup(t, job, perUser, g);
    var kept := KeptOf(t, job, perUser, g);
    forall id | id in t && GroupOf(perUser, t[id]) == g
      ensures Drops(t, job, perUser, done + {g}, id) <==> id in Duplicates(t, job, perUser, g)
      ensures Moves(t, job, perUser, done + {g}, id) <==> kept == Some(id)
      ensures !Drops(t, job, perUser, done, id) && !Moves(t, job, perUser, done, id)
    {
    }
    assert forall id :: id in Duplicates(t, job, perUser, g) ==> id in InScope(t, job, perUser, g);
    forall id | id in t && GroupOf(perUser, t[id]) != g
      ensures Drops(t, job, perUser, done + {g}, id) == Drops(t, job, perUser, done, id)
      ensures Moves(t, job, perUser, done + {g}, id) == Moves(t, job, perUser, done, id)
    {
    }
  }

  // Rows whose key the renamed row would share.
  function Taken(t: Table, id: RowId, to: string, perUser: bool): set<RowId>
    requires id in t
  {
    set o | o in t && o != id && t[o].node == to && t[o].vmid == t[id].vmid
            && GroupOf(perUser, t[o]) == GroupOf(perUser, t[id])
  }

  lemma RenameKeepsKeysUnique(t: Table, id: RowId, to: string, perUser: bool)
    requires id in t && UniqueKeys(t, perUser) && Taken(t, id, to, perUser) == {}
    ensures UniqueKeys(t[id := t[id].(node := to)], perUser)
  {
    assert forall o :: o in t && o != id && t[o].node == to && t[o].vmid == t[id].vmid
                       ==> o in Taken(t, id, to, perUser) || GroupOf(perUser, t[o]) != GroupOf(perUser, t[id]);
  }

  // The rename violates the unique index exactly when the target's name is
  // foreign to the merge and taken by the group.
  lemma RenameClashes(t: Table, job: Job, perUser: bool, done: set<nat>, g: nat, kept: RowId)
    requires JobOk(job) && g !in done && KeptOf(t, job, perUser, g) == Some(kept)
    ensures var left := MergedFor(t, job, perUser, done) - Duplicates(t, job, perUser, g);
      kept in left && (Taken(left, kept, job.to, perUser) != {} <==> Collides(t, job, perUser, {g}))
  {
    KeptInGroup(t, job, perUser, g);
    MergeOneMore(t, job, perUser, done, g);
    var left := MergedFor(t, job, perUser, done) - Duplicates(t, job, perUser, g);
    forall id | id in t && GroupOf(perUser, t[id]) == g
      ensures id in left <==> id !in Duplicates(t, job, perUser, g)
      ensures id in left ==> left[id] == t[id]
    {
    }
    assert forall id :: id in left ==> GroupOf(perUser, left[id]) == GroupOf(perUser, t[id]);
    forall id | id in t && t[id].vmid == job.vmid && t[id].node == job.to && GroupOf(perUser, t[id]) == g && id != kept
      ensures id in Duplicates(t, job, perUser, g) <==> job.to in job.scope
    {
      assert job.to in job.scope <==> id in InScope(t, job, perUser, g);
    }
    assert kept in InScope(t, job, perUser, g);
    assert forall id :: id in Taken(left, kept, job.to, perUser) ==>
        id in t && t[id].vmid == job.vmid && t[id].node == job.to && GroupOf(perUser, t[id]) == g && id != kept;
    forall id | id in t && t[id].vmid == job.vmid && t[id].node == job.to && GroupOf(perUser, t[id]) == g && id != kept
      ensures id in Taken(left, kept, job.to, perUser) <==> job.to !in job.scope
    {
    }
  }

  lemma CollidesSplit(t: Table, job: Job, perUser: bool, a: set<nat>, b: set<nat>)
    ensures Collides(t, job, perUser, a + b) <==> Collides(t, job, perUser, a) || Collides(t, job, perUser, b)
  {
  }

  // Groups without a source row make no difference.
  lemma MoreGroupsChangeNothing(t: Table, job: Job, perUser: bool, groups: set<nat>)
    requires JobOk(job) && Groups(t, job, perUser) <= groups
    ensures MergedFor(t, job, perUser, groups) == Merged(t, job, perUser)
    ensures Collides(t, job, perUser, groups) <==> Collides(t, job, perUser, Groups(t, job, perUser))
  {
    forall id | id in t
      ensures Drops(t, job, perUser, groups, id) == Drops(t, job, perUser, Groups(t, job, perUser), id)
      ensures Moves(t, job, perUser, groups, id) == Moves(t, job, perUser, Groups(t, job, perUser), id)
    {
      KeptInGroup(t, job, perUser, GroupOf(perUser, t[id]));
    }
    forall id | id in t
      ensures KeptOf(t, job, perUser, GroupOf(perUser, t[id])).Some? <==>
              GroupOf(perUser, t[id]) in Groups(t, job, perUser)
    {
      KeptInGroup(t, job, perUser, GroupOf(perUser, t[id]));
    }
  }
}
