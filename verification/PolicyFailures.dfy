// A regrouping pass whose calls may fail is a pass that succeeds on smaller
// groups: a policy that could not be moved stays where it is and starts a group
// of its own, which the later members of its label join.
module PolicyFailures {
  import opened Options
  import opened PolicyOrder
  import opened PolicyRegroup
  import opened PolicyGrouping
  import opened PolicySections

  // The index of the last policy of the label among the first n.
  function Last(ps: seq<PolicyId>, g: PolicyId -> string, l: string, n: nat): (k: nat)
    requires n <= |ps| && Members(ps[..n], g, l) != []
    ensures k < n && g(ps[k]) == l && forall j :: k < j < n ==> g(ps[j]) != l
  {
    assert ps[..n][..n - 1] == ps[..n - 1];
    if g(ps[n - 1]) == l then n - 1 else Last(ps, g, l, n - 1)
  }

  lemma LastMember(ps: seq<PolicyId>, g: PolicyId -> string, l: string, n: nat, k: nat)
    requires k < n <= |ps| && g(ps[k]) == l && forall j :: k < j < n ==> g(ps[j]) != l
    ensures var m := Members(ps[..n], g, l); m != [] && m[|m| - 1] == ps[k]
  {
    assert ps[..n][..n - 1] == ps[..n - 1];
    if k < n - 1 { LastMember(ps, g, l, n - 1, k); }
  }

  // Where policy i comes to stand: at its own place if it is not moved, and
  // otherwise with the policy before it in its group.
  function Place(ps: seq<PolicyId>, g: PolicyId -> string, moveOk: PolicyId -> bool, i: nat): (a: nat)
    requires i < |ps|
    ensures a <= i && g(ps[a]) == g(ps[i])
    ensures a == i <==> g(ps[i]) == "" || Members(ps[..i], g, g(ps[i])) == [] || !moveOk(ps[i])
  {
    if g(ps[i]) == "" || Members(ps[..i], g, g(ps[i])) == [] || !moveOk(ps[i]) then i
    else Place(ps, g, moveOk, Last(ps, g, g(ps[i]), i))
  }

  lemma PlaceStays(ps: seq<PolicyId>, g: PolicyId -> string, moveOk: PolicyId -> bool, i: nat)
    requires i < |ps|
    ensures Place(ps, g, moveOk, Place(ps, g, moveOk, i)) == Place(ps, g, moveOk, i)
  {
  }

  function IndexOf(ps: seq<PolicyId>, x: PolicyId): (i: nat)
    requires x in ps
    ensures i < |ps| && ps[i] == x
  {
    if ps[0] == x then 0 else 1 + IndexOf(ps[1..], x)
  }

  function Name(a: nat): (s: string)
    ensures |s| == a + 1
  {
    seq(a + 1, _ => '#')
  }

  // The smaller groups, named by the places of their first policies.
  function Subgroup(ps: seq<PolicyId>, g: PolicyId -> string, moveOk: PolicyId -> bool): PolicyId -> string {
    p => if p in ps && g(p) != "" then Name(Place(ps, g, moveOk, IndexOf(ps, p))) else ""
  }

  lemma SubgroupAt(ps: seq<PolicyId>, g: PolicyId -> string, moveOk: PolicyId -> bool, i: nat)
    requires Distinct(ps) && i < |ps|
    ensures Subgroup(ps, g, moveOk)(ps[i]) == if g(ps[i]) == "" then "" else Name(Place(ps, g, moveOk, i))
  {
    assert IndexOf(ps, ps[i]) == i;
  }

  lemma SameSubgroup(ps: seq<PolicyId>, g: PolicyId -> string, moveOk: PolicyId -> bool, i: nat, j: nat)
    requires Distinct(ps) && i < |ps| && j < |ps| && g(ps[i]) != ""
    ensures Subgroup(ps, g, moveOk)(ps[i]) == Subgroup(ps, g, moveOk)(ps[j]) <==>
            Place(ps, g, moveOk, i) == Place(ps, g, moveOk, j)
  {
    SubgroupAt(ps, g, moveOk, i);
    SubgroupAt(ps, g, moveOk, j);
  }

  lemma SubgroupStarts(ps: seq<PolicyId>, g: PolicyId -> string, moveOk: PolicyId -> bool, i: nat)
    requires Distinct(ps) && i < |ps| && g(ps[i]) != "" && Place(ps, g, moveOk, i) == i
    ensures var h := Subgroup(ps, g, moveOk); Members(ps[..i], h, h(ps[i])) == []
  {
    var h := Subgroup(ps, g, moveOk);
    forall j | 0 <= j < i ensures h(ps[j]) != h(ps[i]) { SameSubgroup(ps, g, moveOk, i, j); }
    NoneBefore(ps, h, h(ps[i]), i);
  }

  lemma LastOfSubgroup(ps: seq<PolicyId>, g: PolicyId -> string, moveOk: PolicyId -> bool, i: nat, k: nat)
    requires Distinct(ps) && k < i < |ps| && g(ps[i]) != "" && g(ps[k]) == g(ps[i])
    requires Place(ps, g, moveOk, i) == Place(ps, g, moveOk, k)
    requires forall j :: k < j < i ==> g(ps[j]) != g(ps[i])
    ensures var h := Subgroup(ps, g, moveOk); h(ps[k]) == h(ps[i]) && forall j :: k < j < i ==> h(ps[j]) != h(ps[i])
  {
    var h := Subgroup(ps, g, moveOk);
    SameSubgroup(ps, g, moveOk, i, k);
    forall j | k < j < i ensures h(ps[j]) != h(ps[i]) {
      SameSubgroup(ps, g, moveOk, i, j);
      assert g(ps[Place(ps, g, moveOk, j)]) == g(ps[j]);
    }
  }

  lemma SubgroupGoesOn(ps: seq<PolicyId>, g: PolicyId -> string, moveOk: PolicyId -> bool, i: nat)
    requires Distinct(ps) && i < |ps| && Place(ps, g, moveOk, i) != i
    ensures var h := Subgroup(ps, g, moveOk);
      var m, m' := Members(ps[..i], g, g(ps[i])), Members(ps[..i], h, h(ps[i]));
      m != [] && m' != [] && m'[|m'| - 1] == m[|m| - 1]
  {
    var k := Last(ps, g, g(ps[i]), i);
    LastOfSubgroup(ps, g, moveOk, i, k);
    LastMember(ps, Subgroup(ps, g, moveOk), Subgroup(ps, g, moveOk)(ps[i]), i, k);
    LastMember(ps, g, g(ps[i]), i, k);
  }

  // A policy has a predecessor in its smaller group exactly if it is moved, and
  // then it is the predecessor in its whole group.
  lemma SubgroupTail(ps: seq<PolicyId>, g: PolicyId -> string, moveOk: PolicyId -> bool, i: nat)
    requires Distinct(ps) && i < |ps| && g(ps[i]) != ""
    ensures var h := Subgroup(ps, g, moveOk);
      var m, m' := Members(ps[..i], g, g(ps[i])), Members(ps[..i], h, h(ps[i]));
      && (m' == [] <==> m == [] || !moveOk(ps[i]))
      && (m' != [] ==> m'[|m'| - 1] == m[|m| - 1])
  {
    if Place(ps, g, moveOk, i) == i { SubgroupStarts(ps, g, moveOk, i); } else { SubgroupGoesOn(ps, g, moveOk, i); }
  }

  // What the pass does with policy p behind a list.
  function Handled(before: seq<PolicyId>, p: PolicyId, group: seq<PolicyId>, moves: bool): seq<PolicyId> {
    if group == [] || !moves then before else MoveAfter(before, p, group[|group| - 1])
  }

  lemma OrderUnfolds(ps: seq<PolicyId>, g: PolicyId -> string, moveOk: PolicyId -> bool, n: nat)
    requires 0 < n <= |ps|
    ensures RegroupOrder(ps, g, moveOk, n) ==
            Handled(RegroupOrder(ps, g, moveOk, n - 1), ps[n - 1], Members(ps[..n - 1], g, g(ps[n - 1])),
                    g(ps[n - 1]) != "" && moveOk(ps[n - 1]))
  {
  }

  lemma HandledAlike(ps: seq<PolicyId>, g: PolicyId -> string, moveOk: PolicyId -> bool, i: nat, before: seq<PolicyId>)
    requires Distinct(ps) && i < |ps|
    ensures var h, p := Subgroup(ps, g, moveOk), ps[i];
      Handled(before, p, Members(ps[..i], g, g(p)), g(p) != "" && moveOk(p)) ==
      Handled(before, p, Members(ps[..i], h, h(p)), h(p) != "" && Always(p))
  {
    SubgroupAt(ps, g, moveOk, i);
    if g(ps[i]) != "" { SubgroupTail(ps, g, moveOk, i); }
  }

  lemma {:induction false} PassOfSubgroups(ps: seq<PolicyId>, g: PolicyId -> string, moveOk: PolicyId -> bool, n: nat)
    requires Distinct(ps) && n <= |ps|
    ensures RegroupOrder(ps, g, moveOk, n) == RegroupOrder(ps, Subgroup(ps, g, moveOk), Always, n)
  {
    if n > 0 {
      PassOfSubgroups(ps, g, moveOk, n - 1);
      OrderUnfolds(ps, g, moveOk, n);
      OrderUnfolds(ps, Subgroup(ps, g, moveOk), Always, n);
      HandledAlike(ps, g, moveOk, n - 1, RegroupOrder(ps, g, moveOk, n - 1));
    }
  }

  // Whatever calls fail, the pass leaves the stable grouping by these groups.
  lemma FailedPassProducesGrouping(ps: seq<PolicyId>, g: PolicyId -> string, moveOk: PolicyId -> bool)
    requires Distinct(ps)
    ensures RegroupOrder(ps, g, moveOk, |ps|) == Grouped(ps, Subgroup(ps, g, moveOk))
  {
    PassOfSubgroups(ps, g, moveOk, |ps|);
    PassProducesGrouping(ps, Subgroup(ps, g, moveOk));
  }

  lemma FirstIsUnique(ps: seq<PolicyId>, h: PolicyId -> string, a: nat, b: nat)
    requires a < |ps| && b < |ps| && h(ps[a]) == h(ps[b])
    requires Members(ps[..a], h, h(ps[a])) == [] && Members(ps[..b], h, h(ps[b])) == []
    ensures a == b
  {
    NoneBefore(ps, h, h(ps[a]), a);
    NoneBefore(ps, h, h(ps[b]), b);
  }

  lemma SubgroupAnchor(ps: seq<PolicyId>, g: PolicyId -> string, moveOk: PolicyId -> bool, i: nat)
    requires Distinct(ps) && i < |ps|
    ensures Anchor(ps, Subgroup(ps, g, moveOk), i) == Place(ps, g, moveOk, i)
  {
    var h := Subgroup(ps, g, moveOk);
    SubgroupAt(ps, g, moveOk, i);
    if g(ps[i]) != "" {
      var a := Place(ps, g, moveOk, i);
      PlaceStays(ps, g, moveOk, i);
      SameSubgroup(ps, g, moveOk, i, a);
      SubgroupStarts(ps, g, moveOk, a);
      FirstIsUnique(ps, h, a, Anchor(ps, h, i));
    }
  }

  // For every pattern of failing calls: a packet's first match is kept exactly
  // if no other matching policy has come to stand with a policy above the place
  // of the first match.
  lemma FirstMatchKeptUnderFailures(ps: seq<PolicyId>, g: PolicyId -> string, moveOk: PolicyId -> bool,
                                    matches: PolicyId -> bool, f: nat)
    requires Distinct(ps) && f < |ps| && FirstMatch(ps, matches) == Some(ps[f])
    ensures FirstMatch(RegroupOrder(ps, g, moveOk, |ps|), matches) == Some(ps[f]) <==>
            forall q: nat :: q < |ps| && matches(ps[q]) ==> Place(ps, g, moveOk, f) <= Place(ps, g, moveOk, q)
  {
    var h := Subgroup(ps, g, moveOk);
    PassOfSubgroups(ps, g, moveOk, |ps|);
    FirstMatchKeptExactly(ps, h, matches, f);
    forall q: nat | q < |ps| ensures Anchor(ps, h, q) == Place(ps, g, moveOk, q) { SubgroupAnchor(ps, g, moveOk, q); }
  }
}
