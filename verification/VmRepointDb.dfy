// repointVmRows statement by statement: the six policy tables, the provisioned
// VMs that refer to templates, and the public IP assignments.
module VmRepointDb {
  import opened Options
  import opened NodeRef
  import opened VmRepoint

  datatype TableName = Leases | Schedules | Assignments | SshConfigs | SshUserConfigs | Templates

  // The order in which the tables are merged.
  const TABLES := 6

  function Order(n: TableName): (i: nat)
    ensures i < TABLES
  {
    match n
    case Leases => 0
    case Schedules => 1
    case Assignments => 2
    case SshConfigs => 3
    case SshUserConfigs => 4
    case Templates => 5
  }

  function Nth(i: nat): (n: TableName)
    requires i < TABLES
    ensures forall m :: m == n <==> Order(m) == i
  {
    match i
    case 0 => Leases
    case 1 => Schedules
    case 2 => Assignments
    case 3 => SshConfigs
    case 4 => SshUserConfigs
    case _ => Templates
  }

  datatype Provisioned = Provisioned(node: string, vmid: nat, template: Option<RowId>)

  datatype IpRow = IpRow(node: string, vmid: Option<nat>, host: Option<nat>)

  predicate PerUser(n: TableName) { n.SshUserConfigs? }

  // ── Rows that are only renamed ────────────────────────────────────────────

  // A template reference follows its row into the row it was merged with.
  ghost function PointedTo(ps: map<nat, Provisioned>, t: Table, job: Job, g: nat): map<nat, Provisioned> {
    map p | p in ps ::
      ps[p].(template := if ps[p].template.Some? && ps[p].template.value in Duplicates(t, job, false, g)
                         then KeptOf(t, job, false, g) else ps[p].template)
  }

  function Renamed(ps: map<nat, Provisioned>, job: Job): map<nat, Provisioned> {
    map p | p in ps :: if ps[p].vmid == job.vmid && ps[p].node in job.from then ps[p].(node := job.to) else ps[p]
  }

  // A bare name stands for the source only if the row names its host or none.
  predicate AtSource(ip: IpRow, source: string, job: Job) {
    var ref := Decode(source);
    && ip.vmid == Some(job.vmid)
    && if ref.host.None? then ip.node in job.from
       else ip.node == ref.ref || (ip.node == ref.name && (ip.host == ref.host || ip.host.None?))
  }

  function IpsAfter(ips: map<nat, IpRow>, source: string, target: string, job: Job): map<nat, IpRow> {
    map i | i in ips ::
      if AtSource(ips[i], source, job)
      then ips[i].(node := target, host := if Decode(target).host.None? then ips[i].host else Decode(target).host)
      else ips[i]
  }

  ghost predicate RefsValid(ps: map<nat, Provisioned>, templates: Table) {
    forall p :: p in ps && ps[p].template.Some? ==> ps[p].template.value in templates
  }

  // A reference to one of the VM's templates ends at the one that is kept, any
  // other stays, and all of them still exist.
  lemma ReferencesFollow(ps: map<nat, Provisioned>, t: Table, job: Job, p: nat)
    requires JobOk(job) && p in ps && ps[p].template.Some? && ps[p].template.value in t
    ensures var ref := ps[p].template.value;
      var ref' := PointedTo(ps, t, job, 0)[p].template;
      && ref'.Some? && ref'.value in Merged(t, job, false)
      && ref' == if 0 in Groups(t, job, false) && ref in InScope(t, job, false, 0) then KeptOf(t, job, false, 0) else Some(ref)
  {
    KeptInGroup(t, job, false, 0);
  }

  // The rows that are only renamed: none of the VM stays under a name of the
  // source, an IP row of another host under the same bare name is left alone,
  // and nothing but node and host of a row at the source changes.
  lemma RestFollows(ps: map<nat, Provisioned>, ips: map<nat, IpRow>, source: string, vmid: nat, target: string)
    requires target !in {Decode(source).ref, Decode(source).name}
    ensures var job := JobOf(source, vmid, target);
      var ps', ips' := Renamed(ps, job), IpsAfter(ips, source, target, job);
      && ps'.Keys == ps.Keys && ips'.Keys == ips.Keys
      && (forall p :: p in ps && ps[p].vmid == vmid ==> ps'[p].node !in Candidates(source))
      && (forall p :: p in ps ==> ps'[p] == ps[p] || (ps[p].vmid == vmid && ps'[p] == ps[p].(node := target)))
      && (forall i :: i in ips ==> !AtSource(ips'[i], source, job))
      && (forall i :: i in ips && ips'[i] != ips[i] ==>
            && ips[i].vmid == Some(vmid) && ips'[i].vmid == Some(vmid) && ips'[i].node == target
            && (ips[i].node == Decode(source).ref || ips[i].host.None? || Decode(source).host in {None, ips[i].host}))
  {
    var job := JobOf(source, vmid, target);
    assert forall n :: n in job.from ==> n in {Decode(source).ref, Decode(source).name};
    var ips' := IpsAfter(ips, source, target, job);
    forall i | i in ips ensures !AtSource(ips'[i], source, job) {
      if AtSource(ips[i], source, job) { assert ips'[i].node == target; }
    }
  }

  // Row by row. A provisioned row moves if it carries the VM's id under a name
  // of the source. A public IP row of the VM moves if its node is the source's
  // reference, or the bare name with no host or the source's; for a bare source,
  // if it is under a name of it. A row that moves takes the target's name and,
  // if the target names a host, that host; nothing else changes.
  lemma RestMovesExactly(ps: map<nat, Provisioned>, ips: map<nat, IpRow>, source: string, vmid: nat, target: string)
    ensures var job := JobOf(source, vmid, target);
      var ps', ips' := Renamed(ps, job), IpsAfter(ips, source, target, job);
      && ps'.Keys == ps.Keys && ips'.Keys == ips.Keys
      && (forall p :: p in ps ==>
            ps'[p] == if ps[p].vmid == vmid && ps[p].node in Candidates(source)
                      then Provisioned(target, vmid, ps[p].template) else ps[p])
      && (forall i :: i in ips ==>
            var NodeRef(host, name, qualified) := Decode(source);
            var moves := ips[i].vmid == Some(vmid)
              && if host.Some? then ips[i].node == qualified || (ips[i].node == name && ips[i].host in {None, host})
                 else ips[i].node in Candidates(source);
            ips'[i] == if !moves then ips[i]
                       else IpRow(target, Some(vmid), if Decode(target).host.Some? then Decode(target).host else ips[i].host))
  {
  }

  // The merge of table n does not run into the unique index.
  ghost predicate MergesCleanly(t: Table, job: Job, n: TableName) {
    !Collides(t, job, PerUser(n), Groups(t, job, PerUser(n)))
  }

  ghost function MergedTable(t: Table, job: Job, n: TableName): Table { Merged(t, job, PerUser(n)) }

  class PortalRows {
    var tables: map<TableName, Table>
    var provisioned: map<nat, Provisioned>
    var ips: map<nat, IpRow>
    // Keys were unique and references valid after every statement so far.
    ghost var alwaysSound: bool

    ghost predicate Valid()
      reads this
    {
      forall n: TableName :: n in tables
    }

    ghost predicate Sound()
      reads this
      requires Valid()
    {
      && (forall n: TableName :: UniqueKeys(tables[n], PerUser(n)))
      && RefsValid(provisioned, tables[Templates])
    }

    // ── Statements ──────────────────────────────────────────────────────────

    // DELETE … WHERE id IN rows; the foreign key clears references to templates.
    method DeleteRows(n: TableName, rows: set<RowId>)
      requires Valid() && Sound()
      modifies this`tables, this`provisioned, this`alwaysSound
      ensures Valid() && Sound() && alwaysSound == old(alwaysSound)
      ensures tables[n] == old(tables)[n] - rows
      ensures forall m :: m != n ==> tables[m] == old(tables)[m]
      ensures provisioned == if n.Templates? then
                map p | p in old(provisioned) ::
                  old(provisioned)[p].(template := if old(provisioned)[p].template.Some? && old(provisioned)[p].template.value in rows
                                                   then None else old(provisioned)[p].template)
                else old(provisioned)
    {
      tables := tables[n := tables[n] - rows];
      if n.Templates? {
        provisioned := map p | p in provisioned ::
          provisioned[p].(template := if provisioned[p].template.Some? && provisioned[p].template.value in rows
                                      then None else provisioned[p].template);
      }
      alwaysSound := alwaysSound && Sound();
    }

    // UPDATE provisioned_vms SET template_id = to WHERE template_id IN from
    method PointTemplates(from: set<RowId>, to: RowId)
      requires Valid() && Sound() && to in tables[Templates]
      modifies this`provisioned, this`alwaysSound
      ensures Sound() && alwaysSound == old(alwaysSound)
      ensures provisioned == map p | p in old(provisioned) ::
                old(provisioned)[p].(template := if old(provisioned)[p].template.Some? && old(provisioned)[p].template.value in from
                                                 then Some(to) else old(provisioned)[p].template)
    {
      provisioned := map p | p in provisioned ::
        provisioned[p].(template := if provisioned[p].template.Some? && provisioned[p].template.value in from
                                    then Some(to) else provisioned[p].template);
      alwaysSound := alwaysSound && Sound();
    }

    // UPDATE … SET node = to WHERE id = id, refused by the unique index.
    method SetNode(n: TableName, id: RowId, to: string) returns (ok: bool)
      requires Valid() && Sound() && id in tables[n]
      modifies this`tables, this`alwaysSound
      ensures Valid() && Sound() && alwaysSound == old(alwaysSound)
      ensures ok <==> Taken(old(tables)[n], id, to, PerUser(n)) == {}
      ensures tables[n] == if ok then old(tables)[n][id := old(tables)[n][id].(node := to)] else old(tables)[n]
      ensures forall m :: m != n ==> tables[m] == old(tables)[m]
    {
      var t := tables[n];
      ok := Taken(t, id, to, PerUser(n)) == {};
      if ok {
        RenameKeepsKeysUnique(t, id, to, PerUser(n));
        tables := tables[n := t[id := t[id].(node := to)]];
      }
      alwaysSound := alwaysSound && Sound();
    }

    // ── The merge ───────────────────────────────────────────────────────────

    static method LeastOf(s: set<RowId>) returns (r: RowId)
      requires s != {}
      ensures r == Least(s)
    {
      r :| r in s;
      var rest := s - {r};
      while rest != {}
        invariant r in s && rest <= s
        invariant forall x :: x in s && x !in rest ==> r <= x
        decreases |rest|
      {
        var x :| x in rest;
        if x < r { r := x; }
        rest := rest - {x};
      }
    }

    // candidates.map(node => matches.find(…)).find(Boolean)
    static method FindKept(t: Table, rows: set<RowId>, names: seq<string>) returns (r: Option<RowId>)
      requires rows <= t.Keys
      ensures r == Kept(t, rows, names)
    {
      var i := 0;
      while i < |names|
        invariant i <= |names|
        invariant Kept(t, rows, names) == Kept(t, rows, names[i..])
      {
        var named := Named(t, rows, names[i]);
        if named != {} {
          var least := LeastOf(named);
          return Some(least);
        }
        assert names[i..][0] == names[i] && names[i..][1..] == names[i + 1..];
        i := i + 1;
      }
      return None;
    }

    // References go to the kept row before the duplicates disappear.
    method DropDuplicates(n: TableName, t: Table, job: Job, g: nat, kept: RowId)
      requires Valid() && Sound() && KeptOf(t, job, PerUser(n), g) == Some(kept) && kept in tables[n]
      modifies this`tables, this`provisioned, this`alwaysSound
      ensures Valid() && Sound() && alwaysSound == old(alwaysSound)
      ensures tables[n] == old(tables)[n] - Duplicates(t, job, PerUser(n), g)
      ensures forall m :: m != n ==> tables[m] == old(tables)[m]
      ensures provisioned == if n.Templates? then PointedTo(old(provisioned), t, job, g) else old(provisioned)
    {
      var duplicates := InScope(t, job, PerUser(n), g) - {kept};
      if duplicates != {} {
        if n.Templates? { PointTemplates(duplicates, kept); }
        DeleteRows(n, duplicates);
      }
    }

    // One group of one table, after `done` groups; t is the table as selected.
    method MergeGroup(n: TableName, t: Table, job: Job, ghost done: set<nat>, g: nat) returns (ok: bool)
      requires Valid() && Sound() && JobOk(job) && g !in done
      requires tables[n] == MergedFor(t, job, PerUser(n), done)
      modifies this`tables, this`provisioned, this`alwaysSound
      ensures Valid() && Sound() && alwaysSound == old(alwaysSound)
      ensures ok <==> !Collides(t, job, PerUser(n), {g})
      ensures ok ==> tables[n] == MergedFor(t, job, PerUser(n), done + {g})
      ensures forall m :: m != n ==> tables[m] == old(tables)[m]
      ensures ok ==> provisioned == if n.Templates? then PointedTo(old(provisioned), t, job, g) else old(provisioned)
    {
      var source := FindKept(t, InScope(t, job, PerUser(n), g), job.from);
      MergeOneMore(t, job, PerUser(n), done, g);
      if source.None? { return true; }
      RenameClashes(t, job, PerUser(n), done, g, source.value);
      DropDuplicates(n, t, job, g, source.value);
      ok := SetNode(n, source.value, job.to);
    }

    // The groups that are merged: one per user, or the whole table's rows.
    static function GroupsToMerge(t: Table, job: Job, n: TableName): set<nat> {
      if n.SshUserConfigs? then Groups(t, job, true) else {0}
    }

    static lemma AllGroups(t: Table, job: Job, n: TableName)
      requires JobOk(job)
      ensures MergedFor(t, job, PerUser(n), {}) == t && !Collides(t, job, PerUser(n), {})
      ensures MergedFor(t, job, PerUser(n), GroupsToMerge(t, job, n)) == MergedTable(t, job, n)
      ensures Collides(t, job, PerUser(n), GroupsToMerge(t, job, n)) <==> !MergesCleanly(t, job, n)
    {
      MoreGroupsChangeNothing(t, job, PerUser(n), GroupsToMerge(t, job, n));
    }

    method RepointTable(n: TableName, job: Job) returns (ok: bool)
      requires Valid() && Sound() && JobOk(job)
      modifies this`tables, this`provisioned, this`alwaysSound
      ensures Valid() && Sound() && alwaysSound == old(alwaysSound)
      ensures ok <==> MergesCleanly(old(tables)[n], job, n)
      ensures ok ==> tables[n] == MergedTable(old(tables)[n], job, n)
      ensures forall m :: m != n ==> tables[m] == old(tables)[m]
      ensures ok ==> provisioned == if n.Templates? then PointedTo(old(provisioned), old(tables)[n], job, 0)
                                    else old(provisioned)
    {
      var t := tables[n];
      AllGroups(t, job, n);
      ok := MergeGroups(n, t, job, GroupsToMerge(t, job, n));
    }

    method MergeGroups(n: TableName, t: Table, job: Job, groups: set<nat>) returns (ok: bool)
      requires Valid() && Sound() && JobOk(job) && tables[n] == t == MergedFor(t, job, PerUser(n), {})
      requires n.Templates? ==> groups == {0}
      modifies this`tables, this`provisioned, this`alwaysSound
      ensures Valid() && Sound() && alwaysSound == old(alwaysSound)
      ensures ok <==> !Collides(t, job, PerUser(n), groups)
      ensures ok ==> tables[n] == MergedFor(t, job, PerUser(n), groups)
      ensures forall m :: m != n ==> tables[m] == old(tables)[m]
      ensures ok ==> provisioned == if n.Templates? then PointedTo(old(provisioned), t, job, 0) else old(provisioned)
    {
      var todo := groups;
      ghost var done := {};
      while todo != {}
        invariant Valid() && Sound() && alwaysSound == old(alwaysSound)
        invariant todo !! done && done + todo == groups
        invariant tables[n] == MergedFor(t, job, PerUser(n), done)
        invariant !Collides(t, job, PerUser(n), done)
        invariant forall m :: m != n ==> tables[m] == old(tables)[m]
        invariant provisioned == if n.Templates? && 0 in done then PointedTo(old(provisioned), t, job, 0)
                                 else old(provisioned)
        decreases |todo|
      {
        var g :| g in todo;
        ok := MergeGroup(n, t, job, done, g);
        CollidesSplit(t, job, PerUser(n), done, {g});
        done, todo := done + {g}, todo - {g};
        CollidesSplit(t, job, PerUser(n), done, todo);
        if !ok { return; }
      }
      assert done == groups;
      return true;
    }

    method RepointTables(job: Job) returns (ok: bool)
      requires Valid() && Sound() && JobOk(job)
      modifies this`tables, this`provisioned, this`alwaysSound
      ensures Valid() && Sound() && alwaysSound == old(alwaysSound)
      ensures ok <==> forall n: TableName :: MergesCleanly(old(tables)[n], job, n)
      ensures ok ==> forall n: TableName :: tables[n] == MergedTable(old(tables)[n], job, n)
      ensures ok ==> provisioned == PointedTo(old(provisioned), old(tables)[Templates], job, 0)
    {
      var i := 0;
      while i < TABLES
        invariant i <= TABLES
        invariant Valid() && Sound() && alwaysSound == old(alwaysSound)
        invariant forall n: TableName :: Order(n) >= i ==> tables[n] == old(tables)[n]
        invariant forall n: TableName :: Order(n) < i ==> MergesCleanly(old(tables)[n], job, n)
        invariant forall n: TableName :: Order(n) < i ==> tables[n] == MergedTable(old(tables)[n], job, n)
        invariant provisioned == if i < TABLES then old(provisioned)
                                 else PointedTo(old(provisioned), old(tables)[Templates], job, 0)
      {
        var n := Nth(i);
        ok := RepointTable(n, job);
        if !ok { return; }
        i := i + 1;
      }
      return true;
    }

    // The whole merge, inside the transaction of its caller.
    method RepointVmRows(source: string, vmid: nat, target: string) returns (ok: bool)
      requires Valid() && Sound()
      modifies this
      ensures Valid() && Sound() && alwaysSound == old(alwaysSound)
      ensures ok <==> Candidates(source) == []
                      || forall n: TableName :: MergesCleanly(old(tables)[n], JobOf(source, vmid, target), n)
      ensures ok && Candidates(source) != [] ==>
                var job := JobOf(source, vmid, target);
                && (forall n: TableName :: tables[n] == MergedTable(old(tables)[n], job, n))
                && provisioned == Renamed(PointedTo(old(provisioned), old(tables)[Templates], job, 0), job)
                && ips == IpsAfter(old(ips), source, target, job)
      ensures !ok || Candidates(source) == [] ==>
                tables == old(tables) && provisioned == old(provisioned) && ips == old(ips)
    {
      var job := JobOf(source, vmid, target);
      JobOfOk(source, vmid, target);
      if |job.from| == 0 { return true; }
      ok := RepointTablesOrRollBack(job);
      if ok { RenameTheRest(source, target, job); }
    }

    method RepointTablesOrRollBack(job: Job) returns (ok: bool)
      requires Valid() && Sound() && JobOk(job)
      modifies this`tables, this`provisioned, this`alwaysSound
      ensures Valid() && Sound() && alwaysSound == old(alwaysSound)
      ensures ok <==> forall n: TableName :: MergesCleanly(old(tables)[n], job, n)
      ensures ok ==> forall n: TableName :: tables[n] == MergedTable(old(tables)[n], job, n)
      ensures ok ==> provisioned == PointedTo(old(provisioned), old(tables)[Templates], job, 0)
      ensures !ok ==> tables == old(tables) && provisioned == old(provisioned)
    {
      var tablesBefore, provisionedBefore := tables, provisioned;
      ok := RepointTables(job);
      if !ok { tables, provisioned := tablesBefore, provisionedBefore; }
    }

    method RenameTheRest(source: string, target: string, job: Job)
      requires Valid() && Sound()
      modifies this`provisioned, this`ips, this`alwaysSound
      ensures Sound() && alwaysSound == old(alwaysSound)
      ensures provisioned == Renamed(old(provisioned), job) && ips == IpsAfter(old(ips), source, target, job)
    {
      provisioned := Renamed(provisioned, job);
      alwaysSound := alwaysSound && Sound();
      ips := IpsAfter(ips, source, target, job);
    }
  }
}
