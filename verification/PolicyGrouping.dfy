// What regrouping is for: the stable grouping of a policy list, stated without
// any move, and the proof that the move-by-move pass produces it.
module PolicyGrouping {
  import opened PolicyOrder
  import opened PolicyRegroup

  // What stands in the grouped list for the policy at place i: an ungrouped
  // policy itself, the whole group in list order for a group's first policy,
  // nothing for every other member.
  function Block(ps: seq<PolicyId>, g: PolicyId -> string, i: nat): seq<PolicyId>
    requires i < |ps|
  {
    if g(ps[i]) == "" then [ps[i]]
    else if Members(ps[..i], g, g(ps[i])) != [] then []
    else Members(ps, g, g(ps[i]))
  }

  function Blocks(ps: seq<PolicyId>, g: PolicyId -> string, n: nat): seq<PolicyId>
    requires n <= |ps|
  {
    if n == 0 then [] else Blocks(ps, g, n - 1) + Block(ps, g, n - 1)
  }

  function Grouped(ps: seq<PolicyId>, g: PolicyId -> string): seq<PolicyId> {
    Blocks(ps, g, |ps|)
  }

  // The first place of group l among the first n.
  function GroupAnchor(ps: seq<PolicyId>, g: PolicyId -> string, l: string, n: nat): (a: nat)
    requires n <= |ps| && Members(ps[..n], g, l) != []
    ensures a < n && g(ps[a]) == l && Members(ps[..a], g, l) == []
  {
    assert ps[..n][..n - 1] == ps[..n - 1];
    if Members(ps[..n - 1], g, l) == [] then n - 1 else GroupAnchor(ps, g, l, n - 1)
  }

  // The place whose block holds the policy at place i.
  function Anchor(ps: seq<PolicyId>, g: PolicyId -> string, i: nat): (a: nat)
    requires i < |ps|
    ensures a <= i
  {
    if g(ps[i]) == "" then i
    else
      assert ps[..i + 1][..i] == ps[..i];
      GroupAnchor(ps, g, g(ps[i]), i + 1)
  }

  // ── The blocks hold the policies ──────────────────────────────────────────

  lemma BlocksSound(ps: seq<PolicyId>, g: PolicyId -> string, n: nat)
    requires n <= |ps|
    ensures forall x :: x in Blocks(ps, g, n) ==> x in ps
    ensures forall x :: x in Blocks(ps, g, n) && g(x) != "" ==> Members(ps[..n], g, g(x)) != []
    ensures forall x :: x in ps && g(x) != "" && Members(ps[..n], g, g(x)) != [] ==> x in Blocks(ps, g, n)
  {
    if n > 0 {
      BlocksSound(ps, g, n - 1);
      var y := ps[n - 1];
      assert ps[..n] == ps[..n - 1] + [y];
      assert ps[..n][..n - 1] == ps[..n - 1];
      MembersSound(ps, g, g(y));
    }
  }

  function BlocksFrom(ps: seq<PolicyId>, g: PolicyId -> string, a: nat, n: nat): seq<PolicyId>
    requires a <= n <= |ps|
  {
    if a == n then [] else BlocksFrom(ps, g, a, n - 1) + Block(ps, g, n - 1)
  }

  lemma {:induction false} BlocksSplit(ps: seq<PolicyId>, g: PolicyId -> string, a: nat, n: nat)
    requires a <= n <= |ps|
    ensures Blocks(ps, g, n) == Blocks(ps, g, a) + BlocksFrom(ps, g, a, n)
  {
    if a < n {
      BlocksSplit(ps, g, a, n - 1);
      Assoc(Blocks(ps, g, a), BlocksFrom(ps, g, a, n - 1), Block(ps, g, n - 1));
    }
  }

  lemma {:induction false} BlockAfterAppend(all: seq<PolicyId>, p: PolicyId, g: PolicyId -> string, i: nat)
    requires i < |all|
    ensures Block(all + [p], g, i) ==
            if g(p) == "" || g(all[i]) != g(p) || Members(all[..i], g, g(p)) != [] then Block(all, g, i)
            else Block(all, g, i) + [p]
  {
    assert (all + [p])[..i] == all[..i];
    assert (all + [p])[..|all|] == all;
  }

  // Appending p to the list: behind its group's last member if the group has
  // been placed already, nowhere among the first n blocks otherwise.
  lemma {:induction false} AppendToBlocks(all: seq<PolicyId>, p: PolicyId, g: PolicyId -> string, n: nat)
    requires n <= |all| && (g(p) == "" || Members(all[..n], g, g(p)) == [])
    ensures Blocks(all + [p], g, n) == Blocks(all, g, n)
  {
    if n > 0 {
      assert all[..n][..n - 1] == all[..n - 1];
      AppendToBlocks(all, p, g, n - 1);
      BlockAfterAppend(all, p, g, n - 1);
    }
  }

  lemma {:induction false} AppendBehindTail(all: seq<PolicyId>, p: PolicyId, g: PolicyId -> string, n: nat, tail: PolicyId)
    requires Distinct(all) && n <= |all| && g(p) != "" && Members(all[..n], g, g(p)) != []
    requires var m := Members(all, g, g(p)); m != [] && tail == m[|m| - 1]
    ensures tail in Blocks(all, g, n)
    ensures Blocks(all + [p], g, n) == InsertAfter(Blocks(all, g, n), p, tail)
  {
    var m := Members(all, g, g(p));
    assert all[..n][..n - 1] == all[..n - 1];
    BlockAfterAppend(all, p, g, n - 1);
    if Members(all[..n - 1], g, g(p)) == [] {
      AppendToBlocks(all, p, g, n - 1);
      AnchorBlockGrows(all, p, g, n - 1, tail);
    } else {
      AppendBehindTail(all, p, g, n - 1, tail);
      InsertAfterConcat(Blocks(all, g, n - 1), Block(all, g, n - 1), p, tail);
    }
  }

  lemma {:induction false} InsertAtEnd(m: seq<PolicyId>, p: PolicyId, tail: PolicyId)
    requires Distinct(m) && m != [] && m[|m| - 1] == tail
    ensures tail in m && InsertAfter(m, p, tail) == m + [p]
  {
    var init := m[..|m| - 1];
    assert m == init + [tail] && m + [] == m && m + [p] + [] == m + [p];
    assert tail !in init;
    InsertBehind(init, tail, [], p);
  }

  lemma {:induction false} AnchorBlockGrows(all: seq<PolicyId>, p: PolicyId, g: PolicyId -> string, a: nat, tail: PolicyId)
    requires Distinct(all) && a < |all| && g(p) != "" && g(all[a]) == g(p) && Members(all[..a], g, g(p)) == []
    requires var m := Members(all, g, g(p)); m != [] && tail == m[|m| - 1]
    ensures tail in Block(all, g, a)
    ensures Blocks(all, g, a) + (Block(all, g, a) + [p]) == InsertAfter(Blocks(all, g, a) + Block(all, g, a), p, tail)
  {
    var b, m := Blocks(all, g, a), Members(all, g, g(p));
    MembersDistinct(all, g, g(p));
    InsertAtEnd(m, p, tail);
    MembersSound(all, g, g(p));
    BlocksSound(all, g, a);
    InsertAfterConcat(b, m, p, tail);
  }

  // ── The pass produces the grouping ────────────────────────────────────────

  const Always: PolicyId -> bool := _ => true

  lemma {:induction false} LastBlock(all: seq<PolicyId>, p: PolicyId, g: PolicyId -> string)
    ensures Block(all + [p], g, |all|) == if g(p) == "" || Members(all, g, g(p)) == [] then [p] else []
  {
    assert (all + [p])[..|all|] == all;
    MembersConcat(all, [p], g, g(p));
    assert [p][..0] == [];
  }

  lemma {:induction false} GroupedAfterAppend(all: seq<PolicyId>, p: PolicyId, g: PolicyId -> string)
    requires Distinct(all) && p !in all
    ensures var m := Members(all, g, g(p));
            if g(p) == "" || m == [] then Grouped(all + [p], g) == Grouped(all, g) + [p]
            else m[|m| - 1] in Grouped(all, g) && Grouped(all + [p], g) == InsertAfter(Grouped(all, g), p, m[|m| - 1])
  {
    var m, n := Members(all, g, g(p)), |all|;
    assert all[..n] == all;
    LastBlock(all, p, g);
    if g(p) == "" || m == [] {
      AppendToBlocks(all, p, g, n);
    } else {
      AppendBehindTail(all, p, g, n, m[|m| - 1]);
      assert Grouped(all + [p], g) == Blocks(all + [p], g, n) + [];
    }
  }

  // One step of the pass on a list whose front is grouped already.
  lemma {:induction false} GroupStep(all: seq<PolicyId>, p: PolicyId, rest: seq<PolicyId>, g: PolicyId -> string)
    requires Distinct(all) && p !in all
    ensures var r, m := Grouped(all, g) + ([p] + rest), Members(all, g, g(p));
            Grouped(all + [p], g) + rest == if g(p) == "" || m == [] then r else MoveAfter(r, p, m[|m| - 1])
  {
    var m := Members(all, g, g(p));
    GroupedAfterAppend(all, p, g);
    BlocksSound(all, g, |all|);
    Assoc(Grouped(all, g), [p], rest);
    if g(p) != "" && m != [] {
      MoveIntoPrefix(Grouped(all, g), p, rest, m[|m| - 1]);
    }
  }

  lemma {:induction false} SliceAt(ps: seq<PolicyId>, n: nat)
    requires n < |ps|
    ensures ps[n..] == [ps[n]] + ps[n + 1..] && ps[..n + 1] == ps[..n] + [ps[n]]
    ensures ps[n] !in ps[..n] || !Distinct(ps)
    ensures Distinct(ps) ==> Distinct(ps[..n])
  {}

  lemma {:induction false} PassGroupsPrefix(ps: seq<PolicyId>, g: PolicyId -> string, n: nat)
    requires Distinct(ps) && n <= |ps|
    ensures RegroupOrder(ps, g, Always, n) == Grouped(ps[..n], g) + ps[n..]
  {
    if n > 0 {
      PassGroupsPrefix(ps, g, n - 1);
      SliceAt(ps, n - 1);
      GroupStep(ps[..n - 1], ps[n - 1], ps[n..], g);
    } else {
      assert ps[..0] == [] && ps[0..] == ps;
    }
  }

  // When every call succeeds the pass leaves exactly the stable grouping.
  lemma {:induction false} PassProducesGrouping(ps: seq<PolicyId>, g: PolicyId -> string)
    requires Distinct(ps)
    ensures RegroupOrder(ps, g, Always, |ps|) == Grouped(ps, g)
    ensures multiset(Grouped(ps, g)) == multiset(ps) && Distinct(Grouped(ps, g))
    ensures SameGroups(Grouped(ps, g), ps, g)
  {
    var r := RegroupOrder(ps, g, Always, |ps|);
    assert r == Grouped(ps, g) by {
      PassGroupsPrefix(ps, g, |ps|);
      assert ps[..|ps|] == ps && ps[|ps|..] == [];
    }
    PassKeepsPolicies(ps, g, Always, |ps|);
    assert r[..|ps|] == r && ps[..|ps|] == ps;
  }

  // Every group is one contiguous block, in its original order.
  lemma {:induction false} GroupIsContiguous(ps: seq<PolicyId>, g: PolicyId -> string, l: string) returns (front: seq<PolicyId>, back: seq<PolicyId>)
    requires Distinct(ps) && l != "" && Members(ps, g, l) != []
    ensures Grouped(ps, g) == front + Members(ps, g, l) + back
    ensures Members(front, g, l) == [] && Members(back, g, l) == []
  {
    var m := Members(ps, g, l);
    assert ps[..|ps|] == ps;
    var a := GroupAnchor(ps, g, l, |ps|);
    front, back := Blocks(ps, g, a), BlocksFrom(ps, g, a + 1, |ps|);
    BlocksSplit(ps, g, a + 1, |ps|);
    NoMembersBefore(ps, g, l, a);
    PassProducesGrouping(ps, g);
    MembersConcat(front + m, back, g, l);
    MembersConcat(front, m, g, l);
    MembersOfMembers(ps, g, l);
  }

  lemma NoMembersBefore(ps: seq<PolicyId>, g: PolicyId -> string, l: string, a: nat)
    requires a <= |ps| && l != "" && Members(ps[..a], g, l) == []
    ensures Members(Blocks(ps, g, a), g, l) == []
  {
    var m := Members(Blocks(ps, g, a), g, l);
    MembersSound(Blocks(ps, g, a), g, l);
    assert m != [] ==> m[0] in m;
    BlocksSound(ps, g, a);
  }

  lemma MembersOfMembers(s: seq<PolicyId>, g: PolicyId -> string, l: string)
    ensures Members(Members(s, g, l), g, l) == Members(s, g, l)
  {
    if s != [] {
      MembersOfMembers(s[..|s| - 1], g, l);
      MembersConcat(Members(s[..|s| - 1], g, l), [s[|s| - 1]], g, l);
    }
  }

  // ── A second pass ─────────────────────────────────────────────────────────

  // A later member of a group stands right behind another member.
  ghost predicate Adjacent(s: seq<PolicyId>, g: PolicyId -> string) {
    forall i :: 0 < i < |s| && g(s[i]) != "" && Members(s[..i], g, g(s[i])) != [] ==> g(s[i - 1]) == g(s[i])
  }

  lemma {:induction false} AdjacentConcat(a: seq<PolicyId>, b: seq<PolicyId>, g: PolicyId -> string, l: string)
    requires Adjacent(a, g) && (forall x :: x in b ==> g(x) == l)
    requires l == "" || Members(a, g, l) == []
    ensures Adjacent(a + b, g)
  {
    var s := a + b;
    forall i | 0 < i < |s| && g(s[i]) != "" && Members(s[..i], g, g(s[i])) != []
      ensures g(s[i - 1]) == g(s[i])
    {
      if i < |a| {
        assert s[..i] == a[..i];
      } else {
        assert b[i - |a|] in b;
        assert s[..|a|] == a;
        if i > |a| { assert b[i - 1 - |a|] in b; }
      }
    }
  }

  lemma {:induction false} BlockExtends(ps: seq<PolicyId>, g: PolicyId -> string, n: nat)
    requires n < |ps|
    ensures Block(ps, g, n) == [] || g(ps[n]) == "" || Members(Blocks(ps, g, n), g, g(ps[n])) == []
    ensures forall x :: x in Block(ps, g, n) ==> g(x) == g(ps[n])
  {
    var l := g(ps[n]);
    MembersSound(ps, g, l);
    if l != "" && Members(ps[..n], g, l) == [] { NoMembersBefore(ps, g, l, n); }
  }

  lemma {:induction false} BlocksAdjacent(ps: seq<PolicyId>, g: PolicyId -> string, n: nat)
    requires n <= |ps|
    ensures Adjacent(Blocks(ps, g, n), g)
  {
    if n > 0 {
      BlocksAdjacent(ps, g, n - 1);
      BlockExtends(ps, g, n - 1);
      var a, b := Blocks(ps, g, n - 1), Block(ps, g, n - 1);
      if b == [] { assert a + b == a; } else { AdjacentConcat(a, b, g, g(ps[n - 1])); }
    }
  }

  // A move behind the policy that stands right in front changes nothing.
  lemma {:induction false} MoveInPlace(a: seq<PolicyId>, q: PolicyId, p: PolicyId, rest: seq<PolicyId>)
    requires Distinct(a + [q] + [p] + rest)
    ensures MoveAfter(a + [q] + [p] + rest, p, q) == a + [q] + [p] + rest
  {
    DistinctParts(a + [q] + [p], rest);
    DistinctParts(a + [q], [p]);
    MoveIntoPrefix(a + [q], p, rest, q);
    DistinctParts(a, [q]);
    assert q in [q] && p in [p];
    assert a + [q] + [] == a + [q];
    InsertBehind(a, q, [], p);
    assert InsertAfter(a + [q], p, q) == a + [q] + [p];
  }

  lemma {:induction false} TailIsNeighbour(s: seq<PolicyId>, g: PolicyId -> string, i: nat)
    requires Adjacent(s, g) && i < |s| && g(s[i]) != "" && Members(s[..i], g, g(s[i])) != []
    ensures 0 < i
    ensures var m := Members(s[..i], g, g(s[i])); m[|m| - 1] == s[i - 1]
  {
    assert s[..i][..i - 1] == s[..i - 1];
  }

  // On an adjacent list a pass moves nothing, whatever calls succeed.
  lemma {:induction false} AdjacentIsStable(s: seq<PolicyId>, g: PolicyId -> string, moveOk: PolicyId -> bool, n: nat)
    requires Distinct(s) && Adjacent(s, g) && n <= |s|
    ensures RegroupOrder(s, g, moveOk, n) == s
  {
    if n > 0 {
      AdjacentIsStable(s, g, moveOk, n - 1);
      var p := s[n - 1];
      if g(p) != "" && Members(s[..n - 1], g, g(p)) != [] {
        TailIsNeighbour(s, g, n - 1);
        assert s == s[..n - 2] + [s[n - 2]] + [p] + s[n..];
        MoveInPlace(s[..n - 2], s[n - 2], p, s[n..]);
      }
    }
  }

  lemma SecondPassMovesNothing(ps: seq<PolicyId>, g: PolicyId -> string, moveOk: PolicyId -> bool)
    requires Distinct(ps)
    ensures RegroupOrder(Grouped(ps, g), g, moveOk, |Grouped(ps, g)|) == Grouped(ps, g)
  {
    PassProducesGrouping(ps, g);
    BlocksAdjacent(ps, g, |ps|);
    AdjacentIsStable(Grouped(ps, g), g, moveOk, |Grouped(ps, g)|);
  }
}
