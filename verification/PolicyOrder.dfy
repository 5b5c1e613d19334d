// The ordered policy list of one firewall VDOM and the order lemmas behind
// regrouping it. Policies are known by id; ids in a list are unique. `g` gives
// the portal's group label of a policy, "" meaning that the portal does not
// group it.
module PolicyOrder {
  import opened Options

  type PolicyId = nat

  ghost predicate Distinct(s: seq<PolicyId>) {
    forall i, j :: 0 <= i < j < |s| ==> s[i] != s[j]
  }

  function Without(s: seq<PolicyId>, x: PolicyId): seq<PolicyId> {
    if s == [] then [] else if s[0] == x then s[1..] else [s[0]] + Without(s[1..], x)
  }

  function InsertAfter(s: seq<PolicyId>, x: PolicyId, ref: PolicyId): seq<PolicyId> {
    if s == [] then [] else if s[0] == ref then [ref, x] + s[1..] else [s[0]] + InsertAfter(s[1..], x, ref)
  }

  // The firewall's "move x after ref": take x out, put it back right behind
  // ref. An unknown policy or a move behind itself leaves the list alone.
  function MoveAfter(s: seq<PolicyId>, x: PolicyId, ref: PolicyId): seq<PolicyId> {
    if x !in s || ref !in s || x == ref then s else InsertAfter(Without(s, x), x, ref)
  }

  // The policies of group l, in list order.
  function Members(s: seq<PolicyId>, g: PolicyId -> string, l: string): seq<PolicyId> {
    if s == [] then []
    else
      var rest := Members(s[..|s| - 1], g, l);
      if g(s[|s| - 1]) == l then rest + [s[|s| - 1]] else rest
  }

  function FirstMatch(s: seq<PolicyId>, matches: PolicyId -> bool): Option<PolicyId> {
    if s == [] then None
    else if matches(s[0]) then Some(s[0])
    else FirstMatch(s[1..], matches)
  }

  // ── Facts about members, first matches and insertion ──────────────────────

  lemma MembersSound(s: seq<PolicyId>, g: PolicyId -> string, l: string)
    ensures forall x :: x in Members(s, g, l) <==> x in s && g(x) == l
    ensures |Members(s, g, l)| <= |s|
  {
    if s != [] {
      MembersSound(s[..|s| - 1], g, l);
      assert s == s[..|s| - 1] + [s[|s| - 1]];
    }
  }

  lemma {:induction false} NoneBefore(ps: seq<PolicyId>, g: PolicyId -> string, l: string, n: nat)
    requires n <= |ps|
    ensures Members(ps[..n], g, l) == [] <==> forall j :: 0 <= j < n ==> g(ps[j]) != l
  {
    if n > 0 {
      assert ps[..n][..n - 1] == ps[..n - 1];
      NoneBefore(ps, g, l, n - 1);
    }
  }

  lemma {:induction false} MembersConcat(a: seq<PolicyId>, b: seq<PolicyId>, g: PolicyId -> string, l: string)
    ensures Members(a + b, g, l) == Members(a, g, l) + Members(b, g, l)
  {
    if b == [] {
      assert a + b == a;
    } else {
      assert (a + b)[..|a + b| - 1] == a + b[..|b| - 1];
      MembersConcat(a, b[..|b| - 1], g, l);
    }
  }

  lemma MembersDistinct(s: seq<PolicyId>, g: PolicyId -> string, l: string)
    requires Distinct(s)
    ensures Distinct(Members(s, g, l))
  {
    if s != [] {
      MembersDistinct(s[..|s| - 1], g, l);
      MembersSound(s[..|s| - 1], g, l);
    }
  }

  lemma {:induction false} FirstMatchConcat(a: seq<PolicyId>, b: seq<PolicyId>, matches: PolicyId -> bool)
    ensures FirstMatch(a + b, matches) ==
            if FirstMatch(a, matches).Some? then FirstMatch(a, matches) else FirstMatch(b, matches)
  {
    if a == [] {
      assert a + b == b;
    } else {
      assert (a + b)[1..] == a[1..] + b;
      FirstMatchConcat(a[1..], b, matches);
    }
  }

  lemma FirstMatchSound(s: seq<PolicyId>, matches: PolicyId -> bool)
    ensures FirstMatch(s, matches).Some? ==> FirstMatch(s, matches).value in s && matches(FirstMatch(s, matches).value)
    ensures FirstMatch(s, matches).None? <==> forall x :: x in s ==> !matches(x)
  {
    if s != [] {
      FirstMatchSound(s[1..], matches);
      assert s == [s[0]] + s[1..];
    }
  }

  // When every matching policy is in group l, only that group's order decides.
  lemma {:induction false} FirstMatchInGroup(s: seq<PolicyId>, g: PolicyId -> string, l: string, matches: PolicyId -> bool)
    requires forall x :: x in s && matches(x) ==> g(x) == l
    ensures FirstMatch(s, matches) == FirstMatch(Members(s, g, l), matches)
  {
    if s != [] {
      var init, x := s[..|s| - 1], s[|s| - 1];
      assert s == init + [x];
      FirstMatchInGroup(init, g, l, matches);
      FirstMatchConcat(init, [x], matches);
      FirstMatchConcat(Members(init, g, l), [x], matches);
      FirstMatchSound(Members(init, g, l), matches);
    }
  }

  lemma Assoc(a: seq<PolicyId>, b: seq<PolicyId>, c: seq<PolicyId>)
    ensures a + b + c == a + (b + c)
  {}

  lemma SplitAt(s: seq<PolicyId>, x: PolicyId) returns (front: seq<PolicyId>, back: seq<PolicyId>)
    requires x in s
    ensures s == front + [x] + back && x !in front
  {
    if s[0] == x {
      front, back := [], s[1..];
    } else {
      front, back := SplitAt(s[1..], x);
      front := [s[0]] + front;
    }
  }

  lemma {:induction false} InsertAfterConcat(a: seq<PolicyId>, b: seq<PolicyId>, x: PolicyId, ref: PolicyId)
    ensures InsertAfter(a + b, x, ref) ==
            if ref in a then InsertAfter(a, x, ref) + b else a + InsertAfter(b, x, ref)
  {
    if a == [] {
      assert a + b == b;
    } else {
      assert (a + b)[1..] == a[1..] + b;
      InsertAfterConcat(a[1..], b, x, ref);
      if a[0] == ref {
        Assoc([ref, x], a[1..], b);
      } else if ref in a {
        Assoc([a[0]], InsertAfter(a[1..], x, ref), b);
      } else {
        assert a == [a[0]] + a[1..];
        Assoc([a[0]], a[1..], InsertAfter(b, x, ref));
      }
    }
  }

  lemma {:induction false} InsertBehind(front: seq<PolicyId>, ref: PolicyId, back: seq<PolicyId>, x: PolicyId)
    requires ref !in front
    ensures InsertAfter(front + [ref] + back, x, ref) == front + [ref] + [x] + back
  {
    InsertAfterConcat(front + [ref], back, x, ref);
    InsertAfterConcat(front, [ref], x, ref);
    assert ref in [ref];
    assert [ref][1..] == [];
    Assoc(front, [ref], [x]);
    assert [ref] + [x] == [ref, x];
  }

  lemma WithoutConcat(a: seq<PolicyId>, b: seq<PolicyId>, x: PolicyId)
    requires x !in a
    ensures Without(a + [x] + b, x) == a + b
  {
    if a == [] {
      assert [x] + b == a + [x] + b;
    } else {
      assert (a + [x] + b)[1..] == a[1..] + [x] + b;
      WithoutConcat(a[1..], b, x);
    }
  }

  lemma WithoutElements(s: seq<PolicyId>, x: PolicyId)
    requires Distinct(s)
    ensures forall y :: y in Without(s, x) <==> y in s && y != x
    ensures x !in s ==> Without(s, x) == s
    ensures Distinct(Without(s, x))
  {
    if s != [] {
      assert s == [s[0]] + s[1..];
      DistinctParts([s[0]], s[1..]);
      WithoutElements(s[1..], x);
      var w := Without(s[1..], x);
      forall j | 0 <= j < |w| ensures w[j] != s[0] { assert w[j] in w; }
    }
  }

  // Moving the policy that follows the finished part a into that part.
  lemma {:induction false} MoveIntoPrefix(a: seq<PolicyId>, x: PolicyId, rest: seq<PolicyId>, ref: PolicyId)
    requires x !in a && ref in a
    ensures MoveAfter(a + [x] + rest, x, ref) == InsertAfter(a, x, ref) + rest
  {
    assert (a + [x] + rest)[|a|] == x;
    assert ref in a + [x] + rest;
    WithoutConcat(a, rest, x);
    InsertAfterConcat(a, rest, x, ref);
  }

  lemma {:induction false} DistinctParts(a: seq<PolicyId>, b: seq<PolicyId>)
    requires Distinct(a + b)
    ensures Distinct(a) && Distinct(b)
    ensures forall x :: x in a ==> x !in b
  {
    forall i, j | 0 <= i < |a| && 0 <= j < |b| ensures a[i] != b[j] {
      assert (a + b)[i] == a[i] && (a + b)[|a| + j] == b[j];
    }
    forall i, j | 0 <= i < j < |a| ensures a[i] != a[j] {
      assert (a + b)[i] == a[i] && (a + b)[j] == a[j];
    }
    forall i, j | 0 <= i < j < |b| ensures b[i] != b[j] {
      assert (a + b)[|a| + i] == b[i] && (a + b)[|a| + j] == b[j];
    }
  }

  lemma {:induction false} InsertAfterElements(a: seq<PolicyId>, x: PolicyId, ref: PolicyId)
    requires ref in a
    ensures multiset(InsertAfter(a, x, ref)) == multiset(a + [x])
    ensures |InsertAfter(a, x, ref)| == |a| + 1
  {
    var front, back := SplitAt(a, ref);
    InsertBehind(front, ref, back, x);
  }

  // Inserting x behind the last policy of its own group appends it to that
  // group and disturbs no other group.
  lemma {:induction false} InsertKeepsGroups(a: seq<PolicyId>, g: PolicyId -> string, x: PolicyId, ref: PolicyId, l: string)
    requires Distinct(a) && ref in a && g(ref) == g(x)
    requires Members(a, g, g(x)) != [] && Members(a, g, g(x))[|Members(a, g, g(x))| - 1] == ref
    ensures Members(InsertAfter(a, x, ref), g, l) == Members(a + [x], g, l)
  {
    var front, back := SplitAt(a, ref);
    InsertBehind(front, ref, back, x);
    var upTo := front + [ref];
    MembersConcat(upTo, back, g, l);
    MembersConcat(upTo, [x], g, l);
    MembersConcat(upTo + [x], back, g, l);
    MembersConcat(a, [x], g, l);
    if l == g(x) {
      assert upTo[|front|] == ref;
      NothingAfterLast(upTo, back, g, l, ref);
    } else {
      assert Members([x], g, l) == [];
    }
  }

  lemma {:induction false} NothingAfterLast(front: seq<PolicyId>, back: seq<PolicyId>, g: PolicyId -> string, l: string, ref: PolicyId)
    requires Distinct(front + back) && ref in front && g(ref) == l
    requires Members(front + back, g, l) != []
    requires Members(front + back, g, l)[|Members(front + back, g, l)| - 1] == ref
    ensures Members(back, g, l) == []
  {
    MembersConcat(front, back, g, l);
    MembersSound(back, g, l);
    var m := Members(back, g, l);
    assert m != [] ==> m[|m| - 1] in m;
    DistinctParts(front, back);
  }
}
