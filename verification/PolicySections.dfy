// Sections of a policy list: a policy with a non-empty label starts a section
// that runs until the next labelled policy. What regrouping and joining a
// sequence group do to sections, labels and first matches.
module PolicySections {
  import opened Options
  import opened PolicyOrder
  import opened PolicyRegroup
  import opened PolicyGrouping

  type Labels = map<PolicyId, string>

  function LabelOf(labels: Labels, x: PolicyId): string {
    if x in labels then labels[x] else ""
  }

  // The section in force behind s when `section` was in force before it.
  function Carry(s: seq<PolicyId>, labels: Labels, section: string): string {
    if s == [] then section
    else if LabelOf(labels, s[|s| - 1]) != "" then LabelOf(labels, s[|s| - 1])
    else Carry(s[..|s| - 1], labels, section)
  }

  // Every policy of s with the section it lies in, in list order.
  function Sections(s: seq<PolicyId>, labels: Labels, section: string): seq<(PolicyId, string)> {
    if s == [] then []
    else Sections(s[..|s| - 1], labels, section) + [(s[|s| - 1], Carry(s, labels, section))]
  }

  lemma SectionsConcat(a: seq<PolicyId>, b: seq<PolicyId>, labels: Labels, section: string)
    ensures Carry(a + b, labels, section) == Carry(b, labels, Carry(a, labels, section))
    ensures Sections(a + b, labels, section) == Sections(a, labels, section) + Sections(b, labels, Carry(a, labels, section))
  {
    if b == [] {
      assert a + b == a;
    } else {
      assert (a + b)[..|a + b| - 1] == a + b[..|b| - 1];
      SectionsConcat(a, b[..|b| - 1], labels, section);
    }
  }

  lemma SectionsIgnore(s: seq<PolicyId>, labels: Labels, x: PolicyId, text: string, section: string)
    requires x !in s
    ensures Carry(s, labels[x := text], section) == Carry(s, labels, section)
    ensures Sections(s, labels[x := text], section) == Sections(s, labels, section)
  {
    if s != [] { SectionsIgnore(s[..|s| - 1], labels, x, text, section); }
  }

  // ── Labels after a pass in which every call succeeds ──────────────────────

  lemma FinalLabel(ps: seq<PolicyId>, labels: Labels, g: PolicyId -> string, n: nat, i: nat)
    requires Distinct(ps) && i < n <= |ps| && ps[i] in labels
    ensures ps[i] in RegroupLabels(ps, labels, g, Always, n)
    ensures RegroupLabels(ps, labels, g, Always, n)[ps[i]] ==
            if g(ps[i]) == "" then labels[ps[i]] else WantedLabel(ps, g, i)
  {
    if i == n - 1 {
      assert ps[i] !in ps[..i];
      LabelUntouched(ps, labels, g, Always, i, ps[i]);
    } else {
      FinalLabel(ps, labels, g, n - 1, i);
    }
  }

  // The anchor is the group's first policy, so equal groups have equal anchors.
  lemma AnchorIsFirst(ps: seq<PolicyId>, g: PolicyId -> string, i: nat)
    requires Distinct(ps) && i < |ps|
    ensures Members(ps, g, g(ps[i])) != []
    ensures Members(ps[..i], g, g(ps[i])) == [] <==> Members(ps, g, g(ps[i]))[0] == ps[i]
  {
    var l, a := g(ps[i]), Members(ps[..i], g, g(ps[i]));
    assert ps == ps[..i] + [ps[i]] + ps[i + 1..];
    MembersConcat(ps[..i] + [ps[i]], ps[i + 1..], g, l);
    MembersConcat(ps[..i], [ps[i]], g, l);
    MembersSound(ps[..i], g, l);
    assert [ps[i]][..0] == [];
    assert a != [] ==> a[0] in a;
  }

  // A regrouped list and its labels: the anchor of each group carries the
  // label, no other member does.
  ghost predicate Labelled(s: seq<PolicyId>, labels: Labels, g: PolicyId -> string) {
    forall i :: 0 <= i < |s| && g(s[i]) != "" ==> LabelOf(labels, s[i]) == WantedLabel(s, g, i)
  }

  lemma PassLabels(ps: seq<PolicyId>, labels: Labels, g: PolicyId -> string)
    requires Distinct(ps) && forall p :: p in ps ==> p in labels
    ensures Labelled(Grouped(ps, g), RegroupLabels(ps, labels, g, Always, |ps|), g)
  {
    var r, final := Grouped(ps, g), RegroupLabels(ps, labels, g, Always, |ps|);
    PassProducesGrouping(ps, g);
    forall i | 0 <= i < |r| && g(r[i]) != "" ensures LabelOf(final, r[i]) == WantedLabel(r, g, i) {
      assert r[i] in multiset(r);
      var k: nat :| k < |ps| && ps[k] == r[i];
      FinalLabel(ps, labels, g, |ps|, k);
      AnchorIsFirst(ps, g, k);
      AnchorIsFirst(r, g, i);
    }
  }

  lemma {:induction false} LabelledIsStable(s: seq<PolicyId>, labels: Labels, g: PolicyId -> string, labelOk: PolicyId -> bool, n: nat)
    requires Labelled(s, labels, g) && n <= |s| && forall p :: p in s ==> p in labels
    ensures RegroupLabels(s, labels, g, labelOk, n) == labels
    ensures RelabelCount(s, labels, g, labelOk, n) == 0
  {
    if n > 0 {
      LabelledIsStable(s, labels, g, labelOk, n - 1);
      var p := s[n - 1];
      assert g(p) != "" ==> labels[p] == WantedLabel(s, g, n - 1);
      assert labels[p := labels[p]] == labels;
    }
  }

  // A second pass over the result changes no order and no label, whatever
  // calls fail this time.
  lemma SecondPassChangesNothing(ps: seq<PolicyId>, labels: Labels, g: PolicyId -> string,
                                 labelOk: PolicyId -> bool, moveOk: PolicyId -> bool)
    requires Distinct(ps) && forall p :: p in ps ==> p in labels
    ensures var r, final := RegroupOrder(ps, g, Always, |ps|), RegroupLabels(ps, labels, g, Always, |ps|);
            && RegroupOrder(r, g, moveOk, |r|) == r
            && RegroupLabels(r, final, g, labelOk, |r|) == final
  {
    var r, final := Grouped(ps, g), RegroupLabels(ps, labels, g, Always, |ps|);
    PassProducesGrouping(ps, g);
    SecondPassMovesNothing(ps, g, moveOk);
    PassLabels(ps, labels, g);
    forall p | p in r ensures p in final {
      assert p in multiset(r);
      var k: nat :| k < |ps| && ps[k] == p;
      FinalLabel(ps, labels, g, |ps|, k);
    }
    LabelledIsStable(r, final, g, labelOk, |r|);
  }

  // Every grouped policy lies in the section its own label starts.
  lemma {:induction false} GroupedLiesInOwnSection(s: seq<PolicyId>, labels: Labels, g: PolicyId -> string, i: nat)
    requires Labelled(s, labels, g) && Adjacent(s, g) && i < |s| && g(s[i]) != ""
    ensures Carry(s[..i + 1], labels, "") == g(s[i])
  {
    assert s[..i + 1][..i] == s[..i];
    if Members(s[..i], g, g(s[i])) != [] {
      TailIsNeighbour(s, g, i);
      GroupedLiesInOwnSection(s, labels, g, i - 1);
    }
  }

  lemma RegroupedSections(ps: seq<PolicyId>, labels: Labels, g: PolicyId -> string, i: nat)
    requires Distinct(ps) && forall p :: p in ps ==> p in labels
    requires i < |Grouped(ps, g)| && g(Grouped(ps, g)[i]) != ""
    ensures Carry(Grouped(ps, g)[..i + 1], RegroupLabels(ps, labels, g, Always, |ps|), "") == g(Grouped(ps, g)[i])
  {
    PassLabels(ps, labels, g);
    BlocksAdjacent(ps, g, |ps|);
    GroupedLiesInOwnSection(Grouped(ps, g), RegroupLabels(ps, labels, g, Always, |ps|), g, i);
  }

  // ── Which packets meet another policy first ───────────────────────────────

  lemma AnchorBlock(ps: seq<PolicyId>, g: PolicyId -> string, i: nat)
    requires Distinct(ps) && i < |ps|
    ensures ps[i] in Block(ps, g, Anchor(ps, g, i))
  {
    MembersSound(ps, g, g(ps[i]));
  }

  lemma {:induction false} NotInEarlierBlock(ps: seq<PolicyId>, g: PolicyId -> string, i: nat, j: nat)
    requires Distinct(ps) && i < |ps| && j < Anchor(ps, g, i)
    ensures ps[i] !in Block(ps, g, j)
  {
    MembersSound(ps, g, g(ps[j]));
    var a := Anchor(ps, g, i);
    MembersSound(ps[..a], g, g(ps[i]));
    assert ps[j] == ps[..a][j];
  }

  lemma {:induction false} NotYetPlaced(ps: seq<PolicyId>, g: PolicyId -> string, i: nat, n: nat)
    requires Distinct(ps) && i < |ps| && n <= Anchor(ps, g, i)
    ensures ps[i] !in Blocks(ps, g, n)
  {
    if n > 0 {
      NotYetPlaced(ps, g, i, n - 1);
      NotInEarlierBlock(ps, g, i, n - 1);
    }
  }

  lemma PlacedAbove(ps: seq<PolicyId>, g: PolicyId -> string, q: nat, a: nat)
    requires Distinct(ps) && q < |ps| && a <= |ps|
    ensures ps[q] in Blocks(ps, g, a) <==> Anchor(ps, g, q) < a
  {
    var b := Anchor(ps, g, q);
    if b < a {
      AnchorBlock(ps, g, q);
      BlocksSplit(ps, g, b + 1, a);
    } else {
      NotYetPlaced(ps, g, q, a);
    }
  }

  lemma {:induction false} FirstMatchOfGrouped(ps: seq<PolicyId>, g: PolicyId -> string, matches: PolicyId -> bool, f: nat)
    requires Distinct(ps) && f < |ps| && FirstMatch(ps, matches) == Some(ps[f])
    ensures var above := FirstMatch(Blocks(ps, g, Anchor(ps, g, f)), matches);
            FirstMatch(Grouped(ps, g), matches) == if above.Some? then above else Some(ps[f])
  {
    FirstOfItsBlock(ps, g, matches, f);
    var rest := AroundBlock(ps, g, Anchor(ps, g, f));
    FirstMatchThrough(Blocks(ps, g, Anchor(ps, g, f)), Block(ps, g, Anchor(ps, g, f)), rest, matches, ps[f]);
  }

  lemma AroundBlock(ps: seq<PolicyId>, g: PolicyId -> string, a: nat) returns (rest: seq<PolicyId>)
    requires a < |ps|
    ensures Grouped(ps, g) == Blocks(ps, g, a) + Block(ps, g, a) + rest
  {
    BlocksSplit(ps, g, a + 1, |ps|);
    rest := BlocksFrom(ps, g, a + 1, |ps|);
  }

  lemma {:induction false} FirstMatchThrough(above: seq<PolicyId>, block: seq<PolicyId>, rest: seq<PolicyId>,
                                             matches: PolicyId -> bool, x: PolicyId)
    requires FirstMatch(block, matches) == Some(x)
    ensures FirstMatch(above + block + rest, matches) ==
            if FirstMatch(above, matches).Some? then FirstMatch(above, matches) else Some(x)
  {
    FirstMatchConcat(above + block, rest, matches);
    FirstMatchConcat(above, block, matches);
  }

  // With every call succeeding, the first match of a packet is kept exactly
  // when no other matching policy belongs to a group anchored above it.
  lemma FirstMatchKeptExactly(ps: seq<PolicyId>, g: PolicyId -> string, matches: PolicyId -> bool, f: nat)
    requires Distinct(ps) && f < |ps| && FirstMatch(ps, matches) == Some(ps[f])
    ensures FirstMatch(RegroupOrder(ps, g, Always, |ps|), matches) == Some(ps[f]) <==>
            forall q: nat :: q < |ps| && matches(ps[q]) ==> Anchor(ps, g, f) <= Anchor(ps, g, q)
  {
    PassProducesGrouping(ps, g);
    FirstMatchOfGrouped(ps, g, matches, f);
    var a := Anchor(ps, g, f);
    var above := Blocks(ps, g, a);
    FirstMatchSound(above, matches);
    BlocksSound(ps, g, a);
    forall q: nat | q < |ps| ensures ps[q] in above <==> Anchor(ps, g, q) < a {
      PlacedAbove(ps, g, q, a);
    }
    assert ps[f] !in above;
  }

  lemma FirstOfItsBlock(ps: seq<PolicyId>, g: PolicyId -> string, matches: PolicyId -> bool, f: nat)
    requires Distinct(ps) && f < |ps| && FirstMatch(ps, matches) == Some(ps[f])
    ensures FirstMatch(Block(ps, g, Anchor(ps, g, f)), matches) == Some(ps[f])
  {
    FirstMatchSound(ps, matches);
    var a := Anchor(ps, g, f);
    if g(ps[f]) != "" {
      var l := g(ps[f]);
      var inGroup := (x: PolicyId) => matches(x) && g(x) == l;
      FirstMatchNarrow(ps, matches, inGroup, ps[f]);
      FirstMatchInGroup(ps, g, l, inGroup);
      MembersSound(ps, g, l);
      FirstMatchAgree(Members(ps, g, l), matches, inGroup);
    }
  }

  lemma FirstMatchNarrow(s: seq<PolicyId>, m: PolicyId -> bool, m': PolicyId -> bool, x: PolicyId)
    requires FirstMatch(s, m) == Some(x) && m'(x) && forall y :: m'(y) ==> m(y)
    ensures FirstMatch(s, m') == Some(x)
  {}

  lemma FirstMatchAgree(s: seq<PolicyId>, m: PolicyId -> bool, m': PolicyId -> bool)
    requires forall x :: x in s ==> m(x) == m'(x)
    ensures FirstMatch(s, m) == FirstMatch(s, m')
  {}
}
