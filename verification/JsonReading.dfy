// A reader for canonical renderings, and what follows from reading back: the
// rendering decides equality of content.
module JsonReading {
  import opened JsonText
  import opened Json

  // ── The reader ────────────────────────────────────────────────────────────

  function ReadWord(t: Text, word: Text, v: Json): (r: Parsed<Json>)
    requires word != []
    ensures r.Done? ==> |r.rest| < |t|
  {
    if word <= t then Done(v, t[|word|..]) else Fail
  }

  ghost function ReadNumber(t: Text): (r: Parsed<Json>)
    ensures r.Done? ==> |r.rest| < |t|
  {
    var k := NumberRun(t);
    if IsNumber(t[..k]) && k > 0 then Done(Number(t[..k]), t[k..]) else Fail
  }

  ghost function ReadValue(t: Text): (r: Parsed<Json>)
    ensures r.Done? ==> |r.rest| < |t|
    decreases |t|, 0
  {
    if t == [] then Fail
    else if t[0] == NULL_TEXT[0] then ReadWord(t, NULL_TEXT, Null)
    else if t[0] == TRUE_TEXT[0] then ReadWord(t, TRUE_TEXT, Bool(true))
    else if t[0] == FALSE_TEXT[0] then ReadWord(t, FALSE_TEXT, Bool(false))
    else if t[0] == QUOTE then
      var s := ReadString(t[1..]);
      if s.Fail? then Fail else Done(Str(s.value), s.rest)
    else if t[0] == OPEN_ARRAY then
      (if |t| > 1 && t[1] == CLOSE_ARRAY then Done(Array(NoItems), t[2..])
       else
         var items := ReadItems(t[1..]);
         if items.Fail? then Fail else Done(Array(items.value), items.rest))
    else if t[0] == OPEN_OBJECT then
      (if |t| > 1 && t[1] == CLOSE_OBJECT then Done(Object(NoMembers), t[2..])
       else
         var members := ReadMembers(t[1..]);
         if members.Fail? then Fail else Done(Object(members.value), members.rest))
    else ReadNumber(t)
  }

  // The items of a nonempty array, up to its closing bracket.
  ghost function ReadItems(t: Text): (r: Parsed<Items>)
    ensures r.Done? ==> |r.rest| < |t|
    decreases |t|, 1
  {
    var head := ReadValue(t);
    if head.Fail? || head.rest == [] then Fail
    else if head.rest[0] == CLOSE_ARRAY then Done(Item(head.value, NoItems), head.rest[1..])
    else if head.rest[0] == COMMA then
      var tail := ReadItems(head.rest[1..]);
      if tail.Fail? then Fail else Done(Item(head.value, tail.value), tail.rest)
    else Fail
  }

  // The members of a nonempty object, up to its closing brace.
  ghost function ReadMembers(t: Text): (r: Parsed<Members>)
    ensures r.Done? ==> |r.rest| < |t|
    decreases |t|, 1
  {
    if t == [] || t[0] != QUOTE then Fail
    else
      var key := ReadString(t[1..]);
      if key.Fail? || key.rest == [] || key.rest[0] != COLON then Fail
      else
        var value := ReadValue(key.rest[1..]);
        if value.Fail? || value.rest == [] then Fail
        else if value.rest[0] == CLOSE_OBJECT then Done(Member(key.value, value.value, NoMembers), value.rest[1..])
        else if value.rest[0] == COMMA then
          var more := ReadMembers(value.rest[1..]);
          if more.Fail? then Fail else Done(Member(key.value, value.value, more.value), more.rest)
        else Fail
  }

  // ── Renderings read back ──────────────────────────────────────────────────

  lemma WordReads(t: Text, word: Text, v: Json, rest: Text)
    requires word != [] && t == word + rest
    ensures ReadWord(t, word, v) == Done(v, rest)
  {
    assert t[|word|..] == rest;
  }

  lemma NumberReadsBack(token: Text, rest: Text)
    requires IsNumber(token) && Delimited(rest)
    ensures ReadValue(token + rest) == Done(Number(token), rest)
  {
    NumberUnits(token);
    NumberReads(token, rest);
    var t := token + rest;
    assert t[0] == token[0] && t[..|token|] == token && t[|token|..] == rest;
  }

  lemma StringReadsBack(s: Text, rest: Text)
    ensures ReadString((Quoted(s) + rest)[1..]) == Done(s, rest)
    ensures (Quoted(s) + rest)[0] == QUOTE
  {
    assert (Quoted(s) + rest)[1..] == Escaped(s) + [QUOTE] + rest;
    StringReads(s, rest);
  }

  ghost predicate Members1(members: Members) {
    match members
    case NoMembers => true
    case Member(key, value, rest) => IsJson(value) && Members1(rest)
  }

  lemma {:induction false} DefinedAreJson(members: Members)
    requires AreMembers(members)
    ensures AreMembers(Defined(members)) && Members1(Defined(members))
  {
    match members
    case NoMembers =>
    case Member(key, value, rest) => DefinedAreJson(rest);
  }

  lemma {:induction false} InsertAreMembers(key: Text, value: Json, members: Members)
    requires AreMembers(members) && key !in Keys(members) && (value.Undefined? || IsJson(value))
    ensures AreMembers(Insert(key, value, members))
  {
    match members
    case NoMembers =>
    case Member(k, v, rest) => if !Less(key, k) { InsertAreMembers(key, value, rest); }
  }

  lemma {:induction false} SortAreMembers(members: Members)
    requires AreMembers(members)
    ensures AreMembers(Sort(members))
  {
    match members
    case NoMembers =>
    case Member(key, value, rest) =>
      SortAreMembers(rest);
      InsertAreMembers(key, value, Sort(rest));
  }

  lemma {:induction false} NotClosing(v: Json)
    requires IsJson(v)
    ensures Canonical(v) != [] && Canonical(v)[0] != CLOSE_ARRAY
  {
    if v.Number? { NumberUnits(v.token); }
  }

  // The output of canonical parses back uniquely, to the normal form.
  lemma {:induction false} CanonicalReadsBack(v: Json, rest: Text)
    requires IsJson(v) && Delimited(rest)
    ensures ReadValue(Canonical(v) + rest) == Done(Normal(v), rest)
    decreases Size(v), 0
  {
    var t := Canonical(v) + rest;
    match v
    case Null => WordReads(t, NULL_TEXT, Null, rest);
    case Bool(b) => WordReads(t, if b then TRUE_TEXT else FALSE_TEXT, v, rest);
    case Number(token) => NumberReadsBack(token, rest);
    case Str(s) => StringReadsBack(s, rest);
    case Array(items) => ArrayReadsBack(items, rest);
    case Object(members) => ObjectReadsBack(members, rest);
  }

  lemma {:induction false} ArrayReadsBack(items: Items, rest: Text)
    requires AreJson(items) && Delimited(rest)
    ensures ReadValue(Canonical(Array(items)) + rest) == Done(Normal(Array(items)), rest)
    decreases ItemsSize(items), 2
  {
    var t := Canonical(Array(items)) + rest;
    var inner := CanonicalItems(items) + [CLOSE_ARRAY] + rest;
    assert t == [OPEN_ARRAY] + inner && t[1..] == inner;
    if items.NoItems? {
      assert inner == [CLOSE_ARRAY] + rest && t[2..] == rest;
    } else {
      NotClosing(items.head);
      assert inner[0] == Canonical(items.head)[0];
      ItemsReadBack(items, rest);
    }
  }

  lemma {:induction false} ItemsReadBack(items: Items, rest: Text)
    requires AreJson(items) && items.Item?
    ensures ReadItems(CanonicalItems(items) + [CLOSE_ARRAY] + rest) == Done(NormalItems(items), rest)
    decreases ItemsSize(items), 1
  {
    var t := CanonicalItems(items) + [CLOSE_ARRAY] + rest;
    var Item(head, tail) := items;
    if tail.NoItems? {
      assert t == Canonical(head) + ([CLOSE_ARRAY] + rest);
      CanonicalReadsBack(head, [CLOSE_ARRAY] + rest);
      assert ([CLOSE_ARRAY] + rest)[1..] == rest;
    } else {
      var after := CanonicalItems(tail) + [CLOSE_ARRAY] + rest;
      assert t == Canonical(head) + ([COMMA] + after);
      CanonicalReadsBack(head, [COMMA] + after);
      assert ([COMMA] + after)[1..] == after;
      ItemsReadBack(tail, rest);
    }
  }

  lemma {:induction false} ObjectReadsBack(members: Members, rest: Text)
    requires AreMembers(members) && Delimited(rest)
    ensures ReadValue(Canonical(Object(members)) + rest) == Done(Normal(Object(members)), rest)
    decreases MembersSize(members), 2
  {
    var sorted := Defined(Sort(members));
    SortAreMembers(members);
    DefinedAreJson(Sort(members));
    var t := Canonical(Object(members)) + rest;
    var inner := CanonicalMembers(sorted) + [CLOSE_OBJECT] + rest;
    assert t == [OPEN_OBJECT] + inner && t[1..] == inner;
    if sorted.NoMembers? {
      assert inner == [CLOSE_OBJECT] + rest && t[2..] == rest;
    } else {
      assert inner[0] == QUOTE;
      MembersReadBack(sorted, rest);
    }
  }

  // The members after the first one, with their comma.
  function MoreText(more: Members): Text { if more.NoMembers? then [] else [COMMA] + CanonicalMembers(more) }

  lemma Regroup(key: Text, value: Text, more: Text, rest: Text)
    ensures key + [COLON] + value + more + [CLOSE_OBJECT] + rest ==
            key + ([COLON] + (value + (more + [CLOSE_OBJECT] + rest)))
  {
  }

  lemma AfterFirst(more: Text, rest: Text)
    ensures var after := [COMMA] + more + [CLOSE_OBJECT] + rest;
      after[0] == COMMA && after[1..] == more + [CLOSE_OBJECT] + rest && Delimited(after)
    ensures var after := [] + [CLOSE_OBJECT] + rest;
      after[0] == CLOSE_OBJECT && after[1..] == rest && Delimited(after)
  {
  }

  lemma {:induction false} MembersReadBack(members: Members, rest: Text)
    requires Members1(members) && members.Member?
    ensures ReadMembers(CanonicalMembers(members) + [CLOSE_OBJECT] + rest) == Done(NormalMembers(members), rest)
    decreases MembersSize(members), 1
  {
    var Member(key, value, more) := members;
    var after := MoreText(more) + [CLOSE_OBJECT] + rest;
    Regroup(Quoted(key), Canonical(value), MoreText(more), rest);
    AfterFirst(CanonicalMembers(more), rest);
    StringReadsBack(key, [COLON] + (Canonical(value) + after));
    assert ([COLON] + (Canonical(value) + after))[1..] == Canonical(value) + after;
    CanonicalReadsBack(value, after);
    if more.Member? { MembersReadBack(more, rest); }
  }

  // ── The rendering decides the content ─────────────────────────────────────

  lemma {:induction false} LookupNormal(members: Members, key: Text)
    ensures Lookup(NormalMembers(members), key) == Normal(Lookup(members, key))
  {
    match members
    case NoMembers =>
    case Member(k, value, rest) => LookupNormal(rest, key);
  }

  lemma {:induction false} NormalSorted(members: Members)
    requires Sorted(members)
    ensures Sorted(NormalMembers(members))
  {
    match members
    case NoMembers =>
    case Member(key, value, rest) => NormalSorted(rest);
  }

  ghost predicate AllDefined(members: Members) {
    match members
    case NoMembers => true
    case Member(_, value, rest) => !value.Undefined? && AllDefined(rest)
  }

  lemma {:induction false} DefinedOnly(members: Members)
    ensures AllDefined(NormalMembers(Defined(members)))
  {
    match members
    case NoMembers =>
    case Member(_, _, rest) => DefinedOnly(rest);
  }

  lemma {:induction false} DefinedHasKeys(members: Members, key: Text)
    requires Sorted(members) && AllDefined(members)
    ensures key in Keys(members) <==> !Lookup(members, key).Undefined?
    ensures members.Member? && key in Keys(members.rest) ==> key != members.key
  {
    match members
    case NoMembers =>
    case Member(k, value, rest) =>
      DefinedHasKeys(rest, key);
      if key in Keys(rest) {
        FirstIsLeast(members, key);
        LessTotal(key, key);
      }
  }

  // Sorted lists of defined members with equal look-ups are equal.
  lemma {:induction false} SortedUnique(ms: Members, ns: Members)
    requires Sorted(ms) && Sorted(ns) && AllDefined(ms) && AllDefined(ns)
    requires forall k :: Lookup(ms, k) == Lookup(ns, k)
    ensures ms == ns
  {
    if ms.Member? { SameFirst(ms, ns); } else if ns.Member? { SameFirst(ns, ms); }
    if ms.Member? && ns.Member? {
      assert Lookup(ms, ms.key) == ms.value && Lookup(ns, ns.key) == ns.value;
      forall k ensures Lookup(ms.rest, k) == Lookup(ns.rest, k) {
        DefinedHasKeys(ms, k);
        DefinedHasKeys(ns, k);
      }
      SortedUnique(ms.rest, ns.rest);
    }
  }

  lemma SameFirst(ms: Members, ns: Members)
    requires Sorted(ms) && Sorted(ns) && AllDefined(ms) && AllDefined(ns) && ms.Member?
    requires forall k :: Lookup(ms, k) == Lookup(ns, k)
    ensures ns.Member? && ns.key == ms.key
  {
    DefinedHasKeys(ns, ms.key);
    assert ms.key in Keys(ns);
    DefinedHasKeys(ms, ns.key);
    if ns.key != ms.key {
      FirstIsLeast(ns, ms.key);
      FirstIsLeast(ms, ns.key);
      LessTotal(ms.key, ns.key);
    }
  }

  lemma NormalLookups(members: Members)
    requires AreMembers(members)
    ensures var ns := NormalMembers(Defined(Sort(members)));
      Sorted(ns) && AllDefined(ns) && forall k :: Lookup(ns, k) == Normal(Lookup(members, k))
  {
    SortSorts(members);
    DefinedSorted(Sort(members));
    NormalSorted(Defined(Sort(members)));
    DefinedOnly(Sort(members));
    forall k ensures Lookup(NormalMembers(Defined(Sort(members))), k) == Normal(Lookup(members, k)) {
      LookupNormal(Defined(Sort(members)), k);
    }
  }

  lemma {:induction false} LookedUpIsJson(members: Members, key: Text)
    requires AreMembers(members)
    ensures Lookup(members, key).Undefined? || IsJson(Lookup(members, key))
  {
    match members
    case NoMembers =>
    case Member(k, value, rest) => if k != key { LookedUpIsJson(rest, key); }
  }

  // Normal forms are equal exactly for equal content.
  lemma {:induction false} NormalDecides(a: Json, b: Json)
    requires (a.Undefined? || IsJson(a)) && (b.Undefined? || IsJson(b))
    ensures Normal(a) == Normal(b) <==> Same(a, b)
    decreases Size(a), 0
  {
    match (a, b)
    case (Array(xs), Array(ys)) => NormalItemsDecide(xs, ys);
    case (Object(ms), Object(ns)) => NormalObjectsDecide(ms, ns);
    case _ =>
  }

  lemma {:induction false} NormalItemsDecide(xs: Items, ys: Items)
    requires AreJson(xs) && AreJson(ys)
    ensures NormalItems(xs) == NormalItems(ys) <==> SameItems(xs, ys)
    decreases ItemsSize(xs), 1
  {
    match (xs, ys)
    case (Item(x, xt), Item(y, yt)) =>
      NormalDecides(x, y);
      NormalItemsDecide(xt, yt);
    case _ =>
  }

  lemma {:induction false} NormalObjectsDecide(ms: Members, ns: Members)
    requires AreMembers(ms) && AreMembers(ns)
    ensures Normal(Object(ms)) == Normal(Object(ns)) <==> Same(Object(ms), Object(ns))
    decreases MembersSize(ms), 1
  {
    NormalLookups(ms);
    NormalLookups(ns);
    forall k ensures Normal(Lookup(ms, k)) == Normal(Lookup(ns, k)) <==> Same(Lookup(ms, k), Lookup(ns, k)) {
      LookedUpIsJson(ms, k);
      LookedUpIsJson(ns, k);
      NormalDecides(Lookup(ms, k), Lookup(ns, k));
    }
    var ms', ns' := NormalMembers(Defined(Sort(ms))), NormalMembers(Defined(Sort(ns)));
    if Same(Object(ms), Object(ns)) {
      forall k ensures Lookup(ms', k) == Lookup(ns', k) {
        assert Same(Lookup(ms, k), Lookup(ns, k));
      }
      SortedUnique(ms', ns');
    } else {
      var k :| !Same(Lookup(ms, k), Lookup(ns, k));
      assert Lookup(ms', k) != Lookup(ns', k);
    }
  }

  // Plain rendering of members that are already sorted and defined.
  lemma {:induction false} RenderingOfNormal(v: Json)
    ensures Canonical(v) == Rendering(Normal(v))
    decreases Size(v), 0
  {
    match v
    case Array(items) => RenderingOfItems(items);
    case Object(members) => RenderingOfMembers(Defined(Sort(members)));
    case _ =>
  }

  lemma {:induction false} RenderingOfItems(items: Items)
    ensures CanonicalItems(items) == RenderingItems(NormalItems(items))
    decreases ItemsSize(items), 1
  {
    match items
    case NoItems =>
    case Item(head, tail) =>
      RenderingOfNormal(head);
      RenderingOfItems(tail);
  }

  lemma {:induction false} RenderingOfMembers(members: Members)
    ensures CanonicalMembers(members) == RenderingMembers(NormalMembers(members))
    decreases MembersSize(members), 1
  {
    match members
    case NoMembers =>
    case Member(key, value, rest) =>
      RenderingOfNormal(value);
      RenderingOfMembers(rest);
  }

  // JSON text in the order in which the members stand.
  function Rendering(v: Json): Text {
    match v
    case Undefined => []
    case Null => NULL_TEXT
    case Bool(b) => if b then TRUE_TEXT else FALSE_TEXT
    case Number(token) => token
    case Str(s) => Quoted(s)
    case Array(items) => [OPEN_ARRAY] + RenderingItems(items) + [CLOSE_ARRAY]
    case Object(members) => [OPEN_OBJECT] + RenderingMembers(members) + [CLOSE_OBJECT]
  }

  function RenderingItems(items: Items): Text {
    match items
    case NoItems => []
    case Item(head, tail) => Rendering(head) + (if tail.NoItems? then [] else [COMMA] + RenderingItems(tail))
  }

  function RenderingMembers(members: Members): Text {
    match members
    case NoMembers => []
    case Member(key, value, rest) =>
      Quoted(key) + [COLON] + Rendering(value) + (if rest.NoMembers? then [] else [COMMA] + RenderingMembers(rest))
  }

  // Equal renderings mean equal content, and the other way round.
  lemma CanonicalDecides(a: Json, b: Json)
    requires IsJson(a) && IsJson(b)
    ensures Canonical(a) == Canonical(b) <==> Same(a, b)
  {
    assert Canonical(a) + [] == Canonical(a) && Canonical(b) + [] == Canonical(b);
    CanonicalReadsBack(a, []);
    CanonicalReadsBack(b, []);
    RenderingOfNormal(a);
    RenderingOfNormal(b);
    NormalDecides(a, b);
  }
}
