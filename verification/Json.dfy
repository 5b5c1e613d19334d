// JSON values and their key-sorted rendering. Two values have the same
// rendering exactly when they agree up to the order of object keys and members
// that are undefined.
module Json {
  import opened JsonText

  // A number is its shortest decimal token, which JSON.stringify writes.
  // Undefined occurs only as the value of an object member.
  datatype Json =
    | Undefined
    | Null
    | Bool(b: bool)
    | Number(token: Text)
    | Str(s: Text)
    | Array(items: Items)
    | Object(members: Members)

  datatype Items = NoItems | Item(head: Json, tail: Items)

  datatype Members = NoMembers | Member(key: Text, value: Json, rest: Members)

  // ── Sizes, for recursion through sorting ──────────────────────────────────

  function Size(v: Json): (n: nat)
    ensures v.Undefined? <==> n == 0
  {
    match v
    case Undefined => 0
    case Array(items) => 1 + ItemsSize(items)
    case Object(members) => 1 + MembersSize(members)
    case _ => 1
  }

  function ItemsSize(items: Items): nat {
    match items
    case NoItems => 0
    case Item(head, tail) => 1 + Size(head) + ItemsSize(tail)
  }

  function MembersSize(members: Members): nat {
    match members
    case NoMembers => 0
    case Member(_, value, rest) => 1 + Size(value) + MembersSize(rest)
  }

  // ── Objects ───────────────────────────────────────────────────────────────

  function Keys(members: Members): set<Text> {
    match members
    case NoMembers => {}
    case Member(key, _, rest) => {key} + Keys(rest)
  }

  // The member's value, or undefined.
  function Lookup(members: Members, key: Text): (v: Json)
    ensures Size(v) <= MembersSize(members)
    ensures key !in Keys(members) ==> v == Undefined
  {
    match members
    case NoMembers => Undefined
    case Member(k, value, rest) => if k == key then value else Lookup(rest, key)
  }

  // Keys are unique; arrays hold no undefined; numbers are RFC 8259 numbers.
  ghost predicate IsJson(v: Json) {
    match v
    case Undefined => false
    case Number(token) => IsNumber(token)
    case Array(items) => AreJson(items)
    case Object(members) => AreMembers(members)
    case _ => true
  }

  ghost predicate AreJson(items: Items) {
    match items
    case NoItems => true
    case Item(head, tail) => IsJson(head) && AreJson(tail)
  }

  ghost predicate AreMembers(members: Members) {
    match members
    case NoMembers => true
    case Member(key, value, rest) => (value.Undefined? || IsJson(value)) && key !in Keys(rest) && AreMembers(rest)
  }

  // ── Sorting by key ────────────────────────────────────────────────────────

  predicate Sorted(members: Members) {
    match members
    case NoMembers => true
    case Member(key, _, rest) => (rest.Member? ==> Less(key, rest.key)) && Sorted(rest)
  }

  function Insert(key: Text, value: Json, members: Members): (r: Members)
    ensures MembersSize(r) == 1 + Size(value) + MembersSize(members)
    ensures Keys(r) == {key} + Keys(members)
  {
    match members
    case NoMembers => Member(key, value, NoMembers)
    case Member(k, v, rest) =>
      if Less(key, k) then Member(key, value, members) else Member(k, v, Insert(key, value, rest))
  }

  function Sort(members: Members): (r: Members)
    ensures MembersSize(r) == MembersSize(members) && Keys(r) == Keys(members)
  {
    match members
    case NoMembers => NoMembers
    case Member(key, value, rest) => Insert(key, value, Sort(rest))
  }

  function Defined(members: Members): (r: Members)
    ensures MembersSize(r) <= MembersSize(members) && Keys(r) <= Keys(members)
  {
    match members
    case NoMembers => NoMembers
    case Member(key, value, rest) => if value.Undefined? then Defined(rest) else Member(key, value, Defined(rest))
  }

  lemma {:induction false} InsertSorted(key: Text, value: Json, members: Members)
    requires Sorted(members) && key !in Keys(members)
    ensures Sorted(Insert(key, value, members))
    ensures forall k :: Lookup(Insert(key, value, members), k) == if k == key then value else Lookup(members, k)
  {
    match members
    case NoMembers =>
    case Member(k, v, rest) =>
      LessTotal(key, k);
      if !Less(key, k) { InsertSorted(key, value, rest); }
  }

  lemma {:induction false} SortSorts(members: Members)
    requires AreMembers(members)
    ensures Sorted(Sort(members))
    ensures forall k :: Lookup(Sort(members), k) == Lookup(members, k)
  {
    match members
    case NoMembers =>
    case Member(key, value, rest) =>
      SortSorts(rest);
      InsertSorted(key, value, Sort(rest));
  }

  // The first key of a sorted list is below all others.
  lemma {:induction false} FirstIsLeast(members: Members, key: Text)
    requires Sorted(members) && members.Member? && key in Keys(members.rest)
    ensures Less(members.key, key)
  {
    var rest := members.rest;
    if key != rest.key {
      FirstIsLeast(rest, key);
      LessTransitive(members.key, rest.key, key);
    }
  }

  lemma {:induction false} DefinedSorted(members: Members)
    requires Sorted(members)
    ensures Sorted(Defined(members))
    ensures forall k :: Lookup(Defined(members), k) == Lookup(members, k)
  {
    match members
    case NoMembers =>
    case Member(key, value, rest) =>
      DefinedSorted(rest);
      if key in Keys(rest) {
        FirstIsLeast(members, key);
        LessTotal(key, key);
      }
      if Defined(rest).Member? { FirstIsLeast(members, Defined(rest).key); }
  }

  // ── The canonical rendering ───────────────────────────────────────────────

  function Canonical(v: Json): Text
    decreases Size(v)
  {
    match v
    case Undefined => []
    case Null => NULL_TEXT
    case Bool(b) => if b then TRUE_TEXT else FALSE_TEXT
    case Number(token) => token
    case Str(s) => Quoted(s)
    case Array(items) => [OPEN_ARRAY] + CanonicalItems(items) + [CLOSE_ARRAY]
    case Object(members) => [OPEN_OBJECT] + CanonicalMembers(Defined(Sort(members))) + [CLOSE_OBJECT]
  }

  function CanonicalItems(items: Items): Text
    decreases ItemsSize(items)
  {
    match items
    case NoItems => []
    case Item(head, tail) => Canonical(head) + (if tail.NoItems? then [] else [COMMA] + CanonicalItems(tail))
  }

  function CanonicalMembers(members: Members): Text
    decreases MembersSize(members)
  {
    match members
    case NoMembers => []
    case Member(key, value, rest) =>
      Quoted(key) + [COLON] + Canonical(value) + (if rest.NoMembers? then [] else [COMMA] + CanonicalMembers(rest))
  }

  // ── The same value, up to key order and undefined members ─────────────────

  ghost predicate Same(a: Json, b: Json)
    decreases Size(a)
  {
    match (a, b)
    case (Array(xs), Array(ys)) => SameItems(xs, ys)
    case (Object(ms), Object(ns)) => forall k :: Same(Lookup(ms, k), Lookup(ns, k))
    case _ => a == b
  }

  ghost predicate SameItems(xs: Items, ys: Items)
    decreases ItemsSize(xs)
  {
    match (xs, ys)
    case (Item(x, xt), Item(y, yt)) => Same(x, y) && SameItems(xt, yt)
    case _ => xs == ys
  }

  // The value with sorted keys and without undefined members.
  function Normal(v: Json): (r: Json)
    ensures r.Undefined? <==> v.Undefined?
    decreases Size(v)
  {
    match v
    case Array(items) => Array(NormalItems(items))
    case Object(members) => Object(NormalMembers(Defined(Sort(members))))
    case _ => v
  }

  function NormalItems(items: Items): Items
    decreases ItemsSize(items)
  {
    match items
    case NoItems => NoItems
    case Item(head, tail) => Item(Normal(head), NormalItems(tail))
  }

  function NormalMembers(members: Members): (r: Members)
    ensures Keys(r) == Keys(members)
    ensures members.Member? <==> r.Member?
    ensures members.Member? ==> r.key == members.key
    decreases MembersSize(members)
  {
    match members
    case NoMembers => NoMembers
    case Member(key, value, rest) => Member(key, Normal(value), NormalMembers(rest))
  }
}
