// Rotating the secrets stored at rest to the current key. A stored text is
// plain, a v1 envelope without a key id, or a v2 envelope with one. Sealing is
// abstract: a payload opens under the key it was sealed with and no other.
module SecretRotation {
  import opened Options

  type Key = nat
  type KeyId = string
  type RowId = nat
  type Label = string

  // A text as the portal reads it: what follows the envelope prefix, if any.
  // NoKeyId: a v2 prefix without a key id after it.
  datatype Text =
    | Plain(chars: string)
    | V1(payload: Payload)
    | V2(id: KeyId, payload: Payload)
    | NoKeyId(chars: string)

  datatype Payload = Sealed(key: Key, text: Text) | Malformed

  // legacy: the previously used keys in their configured order; a key may be
  // configured without a value.
  datatype Keyring = Keyring(currentId: KeyId, current: Key, legacy: seq<(KeyId, Option<Key>)>)

  // Empty and missing values are not part of a column.
  type Column = map<RowId, Text>

  // ── Opening and sealing ───────────────────────────────────────────────────

  function Open(p: Payload, key: Key): Option<Text> {
    if p.Sealed? && p.key == key then Some(p.text) else None
  }

  // The last entry for an id wins, the current key over all.
  function KeyFor(ring: Keyring, id: KeyId): Option<Key> {
    if id == ring.currentId then Some(ring.current) else LegacyKey(ring.legacy, id)
  }

  function LegacyKey(legacy: seq<(KeyId, Option<Key>)>, id: KeyId): Option<Key> {
    if legacy == [] then None
    else if legacy[|legacy| - 1].0 == id then legacy[|legacy| - 1].1
    else LegacyKey(legacy[..|legacy| - 1], id)
  }

  // The first legacy key that opens the payload. An id has one key, that of its
  // last entry, at the place of its first.
  function OpenWithLegacy(p: Payload, legacy: seq<(KeyId, Option<Key>)>): Option<Text> {
    if legacy == [] then None
    else
      var key := LegacyKey(legacy, legacy[0].0);
      if key.Some? && Open(p, key.value).Some? then Open(p, key.value) else OpenWithLegacy(p, legacy[1..])
  }

  function Decrypt(ring: Keyring, v: Text): Option<Text> {
    match v
    case Plain(_) => Some(v)
    case NoKeyId(_) => None
    case V2(id, p) => if KeyFor(ring, id).Some? then Open(p, KeyFor(ring, id).value) else None
    case V1(p) => if Open(p, ring.current).Some? then Open(p, ring.current) else OpenWithLegacy(p, ring.legacy)
  }

  // Already under the current key id, as far as the prefix tells.
  predicate IsCurrent(ring: Keyring, v: Text) { v.V2? && v.id == ring.currentId }

  // encryptSecret leaves a text alone that looks current already.
  function Encrypt(ring: Keyring, t: Text): Text {
    if IsCurrent(ring, t) then t else V2(ring.currentId, Sealed(ring.current, t))
  }

  predicate NeedsMigration(ring: Keyring, v: Text) { !IsCurrent(ring, v) }

  // ── What can be read ──────────────────────────────────────────────────────

  // The entry that decides an id's key.
  predicate LastFor(legacy: seq<(KeyId, Option<Key>)>, id: KeyId, i: nat) {
    i < |legacy| && legacy[i].0 == id && forall j :: i < j < |legacy| ==> legacy[j].0 != id
  }

  ghost predicate Legacy(legacy: seq<(KeyId, Option<Key>)>, id: KeyId, key: Key) {
    exists i: nat :: LastFor(legacy, id, i) && legacy[i].1 == Some(key)
  }

  lemma {:induction false} LegacyKeyExactly(legacy: seq<(KeyId, Option<Key>)>, id: KeyId, key: Key)
    ensures LegacyKey(legacy, id) == Some(key) <==> Legacy(legacy, id, key)
  {
    if legacy != [] {
      var n := |legacy| - 1;
      LegacyKeyExactly(legacy[..n], id, key);
      if legacy[n].0 == id {
        assert LastFor(legacy, id, n);
        assert forall i: nat :: LastFor(legacy, id, i) ==> i == n;
      } else {
        assert forall i: nat :: LastFor(legacy, id, i) <==> LastFor(legacy[..n], id, i);
      }
    }
  }

  // Leaving out the first entry changes the key of no id that still occurs.
  lemma {:induction false} LegacyOfRest(legacy: seq<(KeyId, Option<Key>)>, id: KeyId, key: Key)
    requires legacy != []
    ensures Legacy(legacy, id, key) <==> Legacy(legacy[1..], id, key) || (LastFor(legacy, id, 0) && legacy[0].1 == Some(key))
  {
    var rest := legacy[1..];
    assert forall i: nat :: i < |rest| ==> rest[i] == legacy[i + 1];
    forall i: nat | LastFor(rest, id, i) ensures LastFor(legacy, id, i + 1) {
      assert forall j :: i + 1 < j < |legacy| ==> legacy[j] == rest[j - 1];
    }
    forall i: nat | 0 < i && LastFor(legacy, id, i) ensures LastFor(rest, id, i - 1) {
      assert rest[i - 1] == legacy[i];
    }
  }

  lemma {:induction false} OpensWithLegacyExactly(p: Payload, legacy: seq<(KeyId, Option<Key>)>)
    ensures OpenWithLegacy(p, legacy) == if p.Sealed? && exists id :: Legacy(legacy, id, p.key) then Some(p.text) else None
  {
    if legacy != [] {
      OpensWithLegacyExactly(p, legacy[1..]);
      if p.Sealed? {
        forall id ensures Legacy(legacy, id, p.key) <==>
                            Legacy(legacy[1..], id, p.key) || (LastFor(legacy, id, 0) && legacy[0].1 == Some(p.key))
        {
          LegacyOfRest(legacy, id, p.key);
        }
        LegacyKeyExactly(legacy, legacy[0].0, p.key);
      }
    }
  }

  // A text is read exactly if it is plain, or sealed with the key its id names:
  // the current key for the current id, otherwise that of the id's last entry.
  // A text without a key id is read under the current key and every legacy key.
  lemma DecryptsExactly(ring: Keyring, v: Text)
    ensures v.Plain? ==> Decrypt(ring, v) == Some(v)
    ensures v.NoKeyId? ==> Decrypt(ring, v) == None
    ensures v.V2? ==> var p := v.payload;
      Decrypt(ring, v) ==
      if p.Sealed? && (if v.id == ring.currentId then p.key == ring.current else Legacy(ring.legacy, v.id, p.key))
      then Some(p.text) else None
    ensures v.V1? ==> var p := v.payload;
      Decrypt(ring, v) ==
      if p.Sealed? && (p.key == ring.current || exists id :: Legacy(ring.legacy, id, p.key)) then Some(p.text) else None
  {
    match v
    case V1(p) => OpensWithLegacyExactly(p, ring.legacy);
    case V2(id, p) => if p.Sealed? { LegacyKeyExactly(ring.legacy, id, p.key); }
    case _ =>
  }

  // ── One value ─────────────────────────────────────────────────────────────

  function Migrated(ring: Keyring, v: Text): Text
    requires Decrypt(ring, v).Some?
  {
    if NeedsMigration(ring, v) then Encrypt(ring, Decrypt(ring, v).value) else v
  }

  // A plaintext that itself reads like an envelope under the current key id.
  predicate Disguised(ring: Keyring, v: Text) {
    NeedsMigration(ring, v) && Decrypt(ring, v).Some? && IsCurrent(ring, Decrypt(ring, v).value)
  }

  function Depth(t: Text): nat {
    match t
    case V1(Sealed(_, inner)) => 1 + Depth(inner)
    case V2(_, Sealed(_, inner)) => 1 + Depth(inner)
    case _ => 0
  }

  lemma OpenGoesDown(ring: Keyring, id: KeyId, p: Payload, key: Key)
    requires Open(p, key).Some?
    ensures Depth(Open(p, key).value) < Depth(V2(id, p))
  {
  }

  // The migrated value is under the current id and decrypts to the same
  // plaintext, unless that plaintext is itself disguised as a current envelope.
  lemma MigratedExactly(ring: Keyring, v: Text)
    requires Decrypt(ring, v).Some?
    ensures IsCurrent(ring, Migrated(ring, v))
    ensures Decrypt(ring, Migrated(ring, v)) == Decrypt(ring, v) <==> !Disguised(ring, v)
  {
    if Disguised(ring, v) {
      var V2(id, p) := Decrypt(ring, v).value;
      if Open(p, ring.current).Some? { OpenGoesDown(ring, id, p, ring.current); }
    }
  }

  // A value that is disguised loses a layer: it no longer decrypts to what it
  // was.
  lemma DisguisedValueChanges(ring: Keyring)
    ensures exists v :: Disguised(ring, v) && Decrypt(ring, Migrated(ring, v)) != Decrypt(ring, v)
  {
    var inner := V2(ring.currentId, Malformed);
    var v := V1(Sealed(ring.current, inner));
    assert Decrypt(ring, v) == Some(inner) && Disguised(ring, v);
    MigratedExactly(ring, v);
  }

  // ── A column ──────────────────────────────────────────────────────────────

  function Bad(ring: Keyring, c: Column): set<RowId> {
    set r | r in c && NeedsMigration(ring, c[r]) && Decrypt(ring, c[r]).None?
  }

  function ToMigrate(ring: Keyring, c: Column): set<RowId> { set r | r in c && NeedsMigration(ring, c[r]) }

  function MigratedColumn(ring: Keyring, c: Column): Column {
    map r | r in c :: if Decrypt(ring, c[r]).Some? then Migrated(ring, c[r]) else c[r]
  }

  // ── The database ──────────────────────────────────────────────────────────

  type Db = map<Label, Column>

  // No value that needs rotating is unreadable.
  ghost predicate Readable(ring: Keyring, db: Db) { forall l :: l in db ==> Bad(ring, db[l]) == {} }

  function Rotated(ring: Keyring, db: Db): Db { map l | l in db :: MigratedColumn(ring, db[l]) }

  // After a rotation every value that was not under the current id is; values
  // that were are untouched; and every value decrypts as before, unless it was
  // disguised.
  lemma RotationKeepsPlaintexts(ring: Keyring, db: Db, l: Label, r: RowId)
    requires Readable(ring, db) && l in db && r in db[l]
    ensures var v, v' := db[l][r], Rotated(ring, db)[l][r];
      && IsCurrent(ring, v')
      && (IsCurrent(ring, v) ==> v' == v)
      && (Decrypt(ring, v') == Decrypt(ring, v) <==> !Disguised(ring, v))
  {
    var v := db[l][r];
    assert r !in Bad(ring, db[l]);
    if Decrypt(ring, v).Some? { MigratedExactly(ring, v); }
  }

  // A rotation goes through exactly if every value that is not an envelope
  // under the current id can be read.
  lemma ReadableExactly(ring: Keyring, db: Db)
    ensures Readable(ring, db) <==> forall l, r :: l in db && r in db[l] ==>
      (db[l][r].V2? && db[l][r].id == ring.currentId) || Decrypt(ring, db[l][r]).Some?
  {
    if Readable(ring, db) {
      forall l, r | l in db && r in db[l]
        ensures (db[l][r].V2? && db[l][r].id == ring.currentId) || Decrypt(ring, db[l][r]).Some?
      {
        assert r !in Bad(ring, db[l]);
      }
    } else {
      var l :| l in db && Bad(ring, db[l]) != {};
      var r :| r in Bad(ring, db[l]);
    }
  }

  // It seals exactly those values anew under the current key; only a plaintext
  // that reads like a current envelope is stored as it is. No value is added or
  // lost.
  lemma RotatesExactly(ring: Keyring, db: Db, l: Label, r: RowId)
    requires l in db
    ensures Rotated(ring, db).Keys == db.Keys
    ensures var current := r in db[l] && db[l][r].V2? && db[l][r].id == ring.currentId;
      && (r in ToMigrate(ring, db[l]) <==> r in db[l] && !current)
      && (r in Bad(ring, db[l]) <==> r in db[l] && !current && Decrypt(ring, db[l][r]).None?)
      && (r in Rotated(ring, db)[l] <==> r in db[l])
      && (current ==> Rotated(ring, db)[l][r] == db[l][r])
      && (r in db[l] && !current && Decrypt(ring, db[l][r]).Some? ==>
            var t := Decrypt(ring, db[l][r]).value;
            Rotated(ring, db)[l][r] == if t.V2? && t.id == ring.currentId then t else V2(ring.currentId, Sealed(ring.current, t)))
  {
  }

  // A fresh plan finds nothing to do.
  lemma FreshPlanIsEmpty(ring: Keyring, db: Db, l: Label)
    requires Readable(ring, db) && l in db
    ensures ToMigrate(ring, Rotated(ring, db)[l]) == {}
  {
    forall r | r in db[l] ensures IsCurrent(ring, Rotated(ring, db)[l][r]) {
      RotationKeepsPlaintexts(ring, db, l, r);
    }
  }

  // ── The code ──────────────────────────────────────────────────────────────

  datatype Plan = Plan(total: nat, decryptable: nat, undecryptable: nat)

  // Ticking one row off.
  lemma OneLess(all: set<RowId>, todo: set<RowId>, r: RowId)
    requires r in todo
    ensures r in all ==> all - (todo - {r}) == all - todo + {r} && |all - (todo - {r})| == |all - todo| + 1
    ensures r !in all ==> all - (todo - {r}) == all - todo
  {
    assert r in all ==> all - (todo - {r}) == all - todo + {r};
  }

  function WithRow(c: Column, r: RowId, t: Text): Column { c[r := t] }

  // The column while some rows are still to be looked at.
  function PartlyMigrated(ring: Keyring, c: Column, todo: set<RowId>): Column {
    map r | r in c :: if r in todo || Decrypt(ring, c[r]).None? then c[r] else Migrated(ring, c[r])
  }

  lemma OneMoreMigrated(ring: Keyring, c: Column, todo: set<RowId>, r: RowId)
    requires r in todo && r in c
    ensures NeedsMigration(ring, c[r]) && Decrypt(ring, c[r]).Some? ==>
              PartlyMigrated(ring, c, todo - {r}) == WithRow(PartlyMigrated(ring, c, todo), r, Encrypt(ring, Decrypt(ring, c[r]).value))
    ensures !NeedsMigration(ring, c[r]) ==> PartlyMigrated(ring, c, todo - {r}) == PartlyMigrated(ring, c, todo)
  {
  }

  // Values to migrate, and unreadable ones among them, over some columns.
  function Total(ring: Keyring, db: Db, labels: seq<Label>): nat
    requires forall i :: 0 <= i < |labels| ==> labels[i] in db
  {
    if labels == [] then 0
    else Total(ring, db, labels[..|labels| - 1]) + |ToMigrate(ring, db[labels[|labels| - 1]])|
  }

  function TotalBad(ring: Keyring, db: Db, labels: seq<Label>): nat
    requires forall i :: 0 <= i < |labels| ==> labels[i] in db
  {
    if labels == [] then 0
    else TotalBad(ring, db, labels[..|labels| - 1]) + |Bad(ring, db[labels[|labels| - 1]])|
  }

  lemma {:induction false} NothingInTotal(ring: Keyring, db: Db, labels: seq<Label>)
    requires forall i :: 0 <= i < |labels| ==> labels[i] in db
    ensures Total(ring, db, labels) == 0 <==> forall i :: 0 <= i < |labels| ==> ToMigrate(ring, db[labels[i]]) == {}
    ensures TotalBad(ring, db, labels) == 0 <==> forall i :: 0 <= i < |labels| ==> Bad(ring, db[labels[i]]) == {}
  {
    if labels != [] {
      var before := labels[..|labels| - 1];
      NothingInTotal(ring, db, before);
      assert forall i :: 0 <= i < |before| ==> before[i] == labels[i];
    }
  }

  class SecretDb {
    const ring: Keyring
    const labels: seq<Label>          // the encrypted columns, in order
    var db: Db

    ghost predicate Valid()
      reads this
    {
      && (forall l :: l in db <==> l in labels)
      && (forall i, j :: 0 <= i < j < |labels| ==> labels[i] != labels[j])
    }

    constructor (ring: Keyring, labels: seq<Label>, db: Db)
      requires forall l :: l in db <==> l in labels
      requires forall i, j :: 0 <= i < j < |labels| ==> labels[i] != labels[j]
      ensures Valid() && this.ring == ring && this.labels == labels && this.db == db
    {
      this.ring, this.labels, this.db := ring, labels, db;
    }

    // migrateEncryptedColumn: fails at the first value it cannot decrypt.
    method MigrateColumn(l: Label) returns (ok: bool, migrated: nat)
      requires Valid() && l in labels
      modifies this`db
      ensures Valid()
      ensures ok <==> Bad(ring, old(db)[l]) == {}
      ensures ok ==> Migrates(old(db)[l], db[l], migrated)
      ensures forall o :: o in db && o != l ==> db[o] == old(db)[o]
    {
      var rows := db[l];
      var todo := rows.Keys;
      migrated := 0;
      assert PartlyMigrated(ring, rows, todo) == rows;
      assert ToMigrate(ring, rows) - todo == {};
      while todo != {}
        invariant todo <= rows.Keys
        invariant l in db && db.Keys == old(db).Keys && db[l] == PartlyMigrated(ring, rows, todo)
        invariant forall o :: o in db && o != l ==> db[o] == old(db)[o]
        invariant Bad(ring, rows) <= todo
        invariant migrated == |ToMigrate(ring, rows) - todo|
        decreases |todo|
      {
        var r :| r in todo;
        ok := MigrateRow(l, rows, todo, r);
        if !ok { return; }
        OneLess(ToMigrate(ring, rows), todo, r);
        if NeedsMigration(ring, rows[r]) { migrated := migrated + 1; }
        todo := todo - {r};
      }
      OneMoreMigratedEnd(rows);
      ok := true;
    }

    lemma OneMoreMigratedEnd(rows: Column)
      ensures PartlyMigrated(ring, rows, {}) == MigratedColumn(ring, rows)
      ensures ToMigrate(ring, rows) - {} == ToMigrate(ring, rows)
    {
    }

    // One row of a column, with those in todo still to come.
    method MigrateRow(l: Label, rows: Column, ghost todo: set<RowId>, r: RowId) returns (ok: bool)
      requires l in db && r in rows && r in todo && db[l] == PartlyMigrated(ring, rows, todo)
      modifies this`db
      ensures ok <==> r !in Bad(ring, rows)
      ensures db.Keys == old(db).Keys && forall o :: o in db && o != l ==> db[o] == old(db)[o]
      ensures ok ==> db[l] == PartlyMigrated(ring, rows, todo - {r})
    {
      OneMoreMigrated(ring, rows, todo, r);
      var value := rows[r];
      if !NeedsMigration(ring, value) { return true; }
      var plaintext := Decrypt(ring, value);
      if plaintext.None? { return false; }
      db := db[l := WithRow(db[l], r, Encrypt(ring, plaintext.value))];
      ok := true;
    }

    // rotateEncryptedSecrets: all columns in one transaction.
    method RotateEncryptedSecrets() returns (ok: bool, counts: map<Label, nat>)
      requires Valid()
      modifies this`db
      ensures Valid()
      ensures ok <==> Readable(ring, old(db))
      ensures db == if ok then Rotated(ring, old(db)) else old(db)
      ensures ok ==> counts == map l | l in old(db) :: |ToMigrate(ring, old(db)[l])|
    {
      var before := db;
      ok, counts := MigrateColumns();
      if ok {
        assert forall l :: l in before ==> Migrates(before[l], db[l], counts[l]);
        assert db == Rotated(ring, before);
      } else {
        db := before;
      }
    }

    method MigrateColumns() returns (ok: bool, counts: map<Label, nat>)
      requires Valid()
      modifies this`db
      ensures Valid() && db.Keys == old(db).Keys
      ensures ok ==> counts.Keys == db.Keys && forall l :: l in counts ==> Migrates(old(db)[l], db[l], counts[l])
      ensures !ok ==> !Readable(ring, old(db))
    {
      var i := 0;
      counts := map[];
      while i < |labels|
        invariant i <= |labels| && Valid() && db.Keys == old(db).Keys
        invariant forall l :: l in counts <==> l in labels[..i]
        invariant forall l :: l in counts ==> Migrates(old(db)[l], db[l], counts[l])
        invariant forall l :: l in db && l !in counts ==> db[l] == old(db)[l]
      {
        var l := labels[i];
        assert l !in counts;
        assert forall o :: o in labels[..i + 1] <==> o in labels[..i] || o == l;
        var migrated;
        ok, migrated := MigrateColumn(l);
        if !ok { return; }
        counts := counts[l := migrated];
        i := i + 1;
      }
      assert labels[..i] == labels;
      ok := true;
    }

    // A column that could be read, its migrated form, and how many values moved.
    ghost predicate Migrates(c: Column, c': Column, n: nat) {
      Bad(ring, c) == {} && c' == MigratedColumn(ring, c) && n == |ToMigrate(ring, c)|
    }

    // planEncryptedSecretRotation
    method PlanRotation() returns (plan: Plan)
      requires Valid()
      ensures plan.total == Total(ring, db, labels) && plan.undecryptable == TotalBad(ring, db, labels)
      ensures plan.total == plan.decryptable + plan.undecryptable
      ensures plan.undecryptable == 0 <==> Readable(ring, db)
      ensures plan.total == 0 <==> forall l :: l in db ==> ToMigrate(ring, db[l]) == {}
    {
      plan := Plan(0, 0, 0);
      var i := 0;
      while i < |labels|
        invariant i <= |labels| && plan.total == plan.decryptable + plan.undecryptable
        invariant plan.total == Total(ring, db, labels[..i]) && plan.undecryptable == TotalBad(ring, db, labels[..i])
      {
        var total, bad := PlanColumn(db[labels[i]]);
        plan := Plan(plan.total + total, plan.decryptable + (total - bad), plan.undecryptable + bad);
        assert labels[..i + 1][..i] == labels[..i];
        i := i + 1;
      }
      assert labels[..i] == labels;
      NothingInTotal(ring, db, labels);
    }

    method PlanColumn(c: Column) returns (total: nat, bad: nat)
      ensures total == |ToMigrate(ring, c)| && bad == |Bad(ring, c)| && bad <= total
    {
      var todo := c.Keys;
      total, bad := 0, 0;
      ghost var all, broken := ToMigrate(ring, c), Bad(ring, c);
      assert all - todo == {} && broken - todo == {};
      while todo != {}
        invariant todo <= c.Keys
        invariant total == |all - todo| && bad == |broken - todo|
        decreases |todo|
      {
        var r :| r in todo;
        OneLess(all, todo, r);
        OneLess(broken, todo, r);
        var needs := NeedsMigration(ring, c[r]);
        assert r in all <==> needs;
        assert r in broken <==> needs && Decrypt(ring, c[r]).None?;
        if needs {
          total := total + 1;
          if Decrypt(ring, c[r]).None? { bad := bad + 1; }
        }
        todo := todo - {r};
      }
      assert all - todo == all && broken - todo == broken;
      assert all == broken + (all - broken);
    }
  }
}
