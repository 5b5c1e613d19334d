// Regrouping a VDOM's policy list: one pass over a snapshot of the list that
// relabels policies and moves them, call by call, on the live list.
module PolicyRegroup {
  import opened Options
  import opened PolicyOrder

  // ── What one pass does, step by step ──────────────────────────────────────

  // The live order after the first n snapshot policies were handled. A policy
  // becomes its group's tail whether or not its move succeeded.
  function RegroupOrder(ps: seq<PolicyId>, g: PolicyId -> string, moveOk: PolicyId -> bool, n: nat): seq<PolicyId>
    requires n <= |ps|
  {
    if n == 0 then ps
    else
      var before := RegroupOrder(ps, g, moveOk, n - 1);
      var p := ps[n - 1];
      var group := Members(ps[..n - 1], g, g(p));
      if g(p) == "" || group == [] || !moveOk(p) then before
      else MoveAfter(before, p, group[|group| - 1])
  }

  // The anchor of a group carries the label, every other member none.
  function WantedLabel(ps: seq<PolicyId>, g: PolicyId -> string, n: nat): string
    requires n < |ps|
  {
    if Members(ps[..n], g, g(ps[n])) == [] then g(ps[n]) else ""
  }

  function RegroupLabels(ps: seq<PolicyId>, labels: map<PolicyId, string>, g: PolicyId -> string,
                         labelOk: PolicyId -> bool, n: nat): map<PolicyId, string>
    requires n <= |ps|
  {
    if n == 0 then labels
    else
      var before := RegroupLabels(ps, labels, g, labelOk, n - 1);
      if g(ps[n - 1]) == "" || !labelOk(ps[n - 1]) then before
      else before[ps[n - 1] := WantedLabel(ps, g, n - 1)]
  }

  // The calls the pass makes for policy n: a relabel if its label is not the
  // wanted one, a move if its group has been met.
  predicate Relabels(ps: seq<PolicyId>, labels: map<PolicyId, string>, g: PolicyId -> string, n: nat)
    requires n < |ps| && ps[n] in labels
  {
    g(ps[n]) != "" && labels[ps[n]] != WantedLabel(ps, g, n)
  }

  predicate Moves(ps: seq<PolicyId>, g: PolicyId -> string, n: nat)
    requires n < |ps|
  {
    g(ps[n]) != "" && Members(ps[..n], g, g(ps[n])) != []
  }

  function One(b: bool): nat { if b then 1 else 0 }

  // How many calls of the first n policies relabel, move, and fail.
  function RelabelCount(ps: seq<PolicyId>, labels: map<PolicyId, string>, g: PolicyId -> string,
                        labelOk: PolicyId -> bool, n: nat): nat
    requires n <= |ps| && forall p :: p in ps ==> p in labels
  {
    if n == 0 then 0
    else RelabelCount(ps, labels, g, labelOk, n - 1) + One(Relabels(ps, labels, g, n - 1) && labelOk(ps[n - 1]))
  }

  function MoveCount(ps: seq<PolicyId>, g: PolicyId -> string, moveOk: PolicyId -> bool, n: nat): nat
    requires n <= |ps|
  {
    if n == 0 then 0 else MoveCount(ps, g, moveOk, n - 1) + One(Moves(ps, g, n - 1) && moveOk(ps[n - 1]))
  }

  function FailureCount(ps: seq<PolicyId>, labels: map<PolicyId, string>, g: PolicyId -> string,
                        labelOk: PolicyId -> bool, moveOk: PolicyId -> bool, n: nat): nat
    requires n <= |ps| && forall p :: p in ps ==> p in labels
  {
    if n == 0 then 0
    else FailureCount(ps, labels, g, labelOk, moveOk, n - 1)
         + One(Relabels(ps, labels, g, n - 1) && !labelOk(ps[n - 1])) + One(Moves(ps, g, n - 1) && !moveOk(ps[n - 1]))
  }

  // The pass's table of group tails after n policies.
  function Tails(ps: seq<PolicyId>, g: PolicyId -> string, n: nat): map<string, PolicyId>
    requires n <= |ps|
  {
    if n == 0 then map[]
    else if g(ps[n - 1]) == "" then Tails(ps, g, n - 1)
    else Tails(ps, g, n - 1)[g(ps[n - 1]) := ps[n - 1]]
  }

  lemma TailsAreLast(ps: seq<PolicyId>, g: PolicyId -> string, n: nat, l: string)
    requires n <= |ps|
    ensures var m := Members(ps[..n], g, l);
            && (l in Tails(ps, g, n) <==> l != "" && m != [])
            && (l in Tails(ps, g, n) ==> Tails(ps, g, n)[l] == m[|m| - 1])
  {
    if n > 0 {
      assert ps[..n][..n - 1] == ps[..n - 1];
      TailsAreLast(ps, g, n - 1, l);
    }
  }

  // ── The live policy table and the pass over it ────────────────────────────

  class PolicyTable {
    var order: seq<PolicyId>
    var labels: map<PolicyId, string>

    ghost predicate Valid()
      reads this
    {
      Distinct(order) && forall p :: p in order ==> p in labels
    }

    constructor (order: seq<PolicyId>, labels: map<PolicyId, string>)
      requires Distinct(order) && forall p :: p in order ==> p in labels
      ensures Valid() && this.order == order && this.labels == labels
    {
      this.order, this.labels := order, labels;
    }

    // `reachable` says whether the firewall accepts this call.
    method UpdatePolicy(p: PolicyId, text: string, reachable: bool) returns (ok: bool)
      requires Valid()
      modifies this`labels
      ensures Valid() && ok == (reachable && p in order)
      ensures labels == if ok then old(labels)[p := text] else old(labels)
    {
      ok := reachable && p in order;
      if ok { labels := labels[p := text]; }
    }

    method MovePolicyAfter(p: PolicyId, ref: PolicyId, reachable: bool) returns (ok: bool)
      requires Valid()
      modifies this`order
      ensures Valid() && ok == (reachable && p in old(order) && ref in old(order) && p != ref)
      ensures order == if ok then MoveAfter(old(order), p, ref) else old(order)
    {
      ok := reachable && p in order && ref in order && p != ref;
      if ok {
        MoveKeepsPolicies(order, p, ref);
        order := MoveAfter(order, p, ref);
      }
    }

    // One grouped policy of the pass: relabel it if its label is not the wanted
    // one, then move it behind its group's tail if there is one.
    method Settle(p: PolicyId, group: string, tail: Option<PolicyId>, labelReachable: bool, moveReachable: bool)
      returns (relabeled: bool, moved: bool, failures: nat)
      requires Valid() && p in order
      requires tail.Some? ==> tail.value in order && tail.value != p
      modifies this
      ensures Valid()
      ensures labels == if labelReachable then old(labels)[p := if tail.Some? then "" else group] else old(labels)
      ensures order == if tail.Some? && moveReachable then MoveAfter(old(order), p, tail.value) else old(order)
      ensures relabeled == (labelReachable && old(labels)[p] != if tail.Some? then "" else group)
      ensures moved == (tail.Some? && moveReachable)
      ensures failures == One(!labelReachable && old(labels)[p] != if tail.Some? then "" else group)
                          + One(tail.Some? && !moveReachable)
    {
      relabeled, moved, failures := false, false, 0;
      var want := if tail.Some? then "" else group;
      if labels[p] != want {
        relabeled := UpdatePolicy(p, want, labelReachable);
        if !relabeled { failures := failures + 1; }
      } else {
        assert labels[p := want] == labels;
      }
      if tail.Some? {
        moved := MovePolicyAfter(p, tail.value, moveReachable);
        if !moved { failures := failures + 1; }
      }
    }

    // The pass handles snapshot policy n.
    method HandlePolicy(policies: seq<PolicyId>, n: nat, labelFor: PolicyId -> string, tails: map<string, PolicyId>,
                        labelOk: PolicyId -> bool, moveOk: PolicyId -> bool, ghost seen: map<PolicyId, string>)
      returns (relabeled: nat, moved: nat, failures: nat)
      requires Valid() && Distinct(policies) && n < |policies| && forall p :: p in policies ==> p in seen
      requires order == RegroupOrder(policies, labelFor, moveOk, n)
      requires labels == RegroupLabels(policies, seen, labelFor, labelOk, n)
      requires tails == Tails(policies, labelFor, n)
      modifies this
      ensures Valid()
      ensures order == RegroupOrder(policies, labelFor, moveOk, n + 1)
      ensures labels == RegroupLabels(policies, seen, labelFor, labelOk, n + 1)
      ensures RelabelCount(policies, seen, labelFor, labelOk, n) + relabeled == RelabelCount(policies, seen, labelFor, labelOk, n + 1)
      ensures MoveCount(policies, labelFor, moveOk, n) + moved == MoveCount(policies, labelFor, moveOk, n + 1)
      ensures FailureCount(policies, seen, labelFor, labelOk, moveOk, n) + failures
              == FailureCount(policies, seen, labelFor, labelOk, moveOk, n + 1)
    {
      relabeled, moved, failures := 0, 0, 0;
      var p := policies[n];
      var group := labelFor(p);
      if group != "" {
        TailsAreLast(policies, labelFor, n, group);
        InList(policies, labelFor, moveOk, n);
        LabelUntouched(policies, seen, labelFor, labelOk, n, p);
        var tail := if group in tails then Some(tails[group]) else None;
        var relabel, move, failed := Settle(p, group, tail, labelOk(p), moveOk(p));
        relabeled := if relabel then 1 else 0;
        moved := if move then 1 else 0;
        failures := failed;
      }
    }

    method RegroupAdjacent(labelFor: PolicyId -> string, labelOk: PolicyId -> bool, moveOk: PolicyId -> bool)
      returns (moved: nat, relabeled: nat, warnings: nat)
      requires Valid()
      modifies this
      ensures Valid()
      ensures order == RegroupOrder(old(order), labelFor, moveOk, |old(order)|)
      ensures labels == RegroupLabels(old(order), old(labels), labelFor, labelOk, |old(order)|)
      ensures relabeled == RelabelCount(old(order), old(labels), labelFor, labelOk, |old(order)|)
      ensures moved == MoveCount(old(order), labelFor, moveOk, |old(order)|)
      ensures warnings == FailureCount(old(order), old(labels), labelFor, labelOk, moveOk, |old(order)|)
    {
      moved, relabeled, warnings := 0, 0, 0;
      var policies := order;
      ghost var seen := labels;
      var tails: map<string, PolicyId> := map[];
      for n := 0 to |policies|
        invariant Valid()
        invariant order == RegroupOrder(policies, labelFor, moveOk, n)
        invariant labels == RegroupLabels(policies, seen, labelFor, labelOk, n)
        invariant relabeled == RelabelCount(policies, seen, labelFor, labelOk, n)
        invariant moved == MoveCount(policies, labelFor, moveOk, n)
        invariant warnings == FailureCount(policies, seen, labelFor, labelOk, moveOk, n)
        invariant tails == Tails(policies, labelFor, n)
      {
        var relabels, moves, failures := HandlePolicy(policies, n, labelFor, tails, labelOk, moveOk, seen);
        relabeled, moved, warnings := relabeled + relabels, moved + moves, warnings + failures;
        if labelFor(policies[n]) != "" { tails := tails[labelFor(policies[n]) := policies[n]]; }
      }
    }
  }

  lemma {:induction false} InList(ps: seq<PolicyId>, g: PolicyId -> string, moveOk: PolicyId -> bool, n: nat)
    requires Distinct(ps) && n < |ps|
    ensures var r := RegroupOrder(ps, g, moveOk, n);
            && ps[n] in r && ps[n] !in ps[..n]
            && var m := Members(ps[..n], g, g(ps[n])); m != [] ==> m[|m| - 1] in r && m[|m| - 1] != ps[n]
  {
    var r := RegroupOrder(ps, g, moveOk, n);
    PassKeepsPolicies(ps, g, moveOk, n);
    assert forall x :: x in ps ==> x in multiset(r);
    if Members(ps[..n], g, g(ps[n])) != [] { TailIsAnotherPolicy(ps, g, n); }
  }

  lemma {:induction false} MoveKeepsPolicies(s: seq<PolicyId>, p: PolicyId, ref: PolicyId)
    requires Distinct(s)
    ensures Distinct(MoveAfter(s, p, ref))
    ensures multiset(MoveAfter(s, p, ref)) == multiset(s)
    ensures forall q :: q in MoveAfter(s, p, ref) ==> q in s
  {
    if p in s && ref in s && p != ref {
      var front, back := SplitAt(s, p);
      WithoutConcat(front, back, p);
      assert ref in front + back;
      InsertAfterElements(front + back, p, ref);
      MoveToEnd(front, p, back);
    }
    SameElementsDistinct(s, MoveAfter(s, p, ref));
  }

  lemma {:induction false} MoveToEnd(front: seq<PolicyId>, p: PolicyId, back: seq<PolicyId>)
    ensures multiset(front + [p] + back) == multiset(front + back + [p])
  {}

  lemma {:induction false} SameElementsDistinct(a: seq<PolicyId>, b: seq<PolicyId>)
    requires Distinct(a) && multiset(a) == multiset(b)
    ensures Distinct(b) && forall x :: x in b ==> x in a
  {
    forall x | x in b ensures x in a { assert x in multiset(b); }
    forall i, j | 0 <= i < j < |b| ensures b[i] != b[j] {
      DistinctOnce(a, b[i]);
      assert b == b[..j] + [b[j]] + b[j + 1..];
      assert b[i] in b[..j];
    }
  }

  lemma DistinctOnce(a: seq<PolicyId>, x: PolicyId)
    requires Distinct(a)
    ensures multiset(a)[x] <= 1
  {
    if a != [] {
      assert a == [a[0]] + a[1..];
      DistinctParts([a[0]], a[1..]);
      DistinctOnce(a[1..], x);
    }
  }

  lemma LabelUntouched(ps: seq<PolicyId>, labels: map<PolicyId, string>, g: PolicyId -> string,
                       labelOk: PolicyId -> bool, n: nat, x: PolicyId)
    requires n <= |ps| && x in labels && x !in ps[..n]
    ensures x in RegroupLabels(ps, labels, g, labelOk, n)
    ensures RegroupLabels(ps, labels, g, labelOk, n)[x] == labels[x]
  {
    if n != 0 {
      assert ps[..n] == ps[..n - 1] + [ps[n - 1]];
      LabelUntouched(ps, labels, g, labelOk, n - 1, x);
    }
  }

  lemma {:induction false} TailIsAnotherPolicy(ps: seq<PolicyId>, g: PolicyId -> string, n: nat)
    requires Distinct(ps) && n < |ps| && Members(ps[..n], g, g(ps[n])) != []
    ensures var m := Members(ps[..n], g, g(ps[n])); m[|m| - 1] in ps && m[|m| - 1] != ps[n]
  {
    var m := Members(ps[..n], g, g(ps[n]));
    MembersSound(ps[..n], g, g(ps[n]));
    assert m[|m| - 1] in m;
  }

  // ── Labels and counts, policy by policy ───────────────────────────────────

  // Policy i is the first of its label.
  predicate IsFirst(ps: seq<PolicyId>, g: PolicyId -> string, i: nat)
    requires i < |ps|
  {
    forall j :: 0 <= j < i ==> g(ps[j]) != g(ps[i])
  }

  // The first policy of a group is to carry the label, every other member none.
  function Proper(ps: seq<PolicyId>, g: PolicyId -> string, i: nat): string
    requires i < |ps|
  {
    if IsFirst(ps, g, i) then g(ps[i]) else ""
  }

  // Whatever calls fail: a policy has its proper label if it is grouped and its
  // call got through, and otherwise the one it had.
  lemma {:induction false} LabelsExactly(ps: seq<PolicyId>, labels: map<PolicyId, string>, g: PolicyId -> string,
                                         labelOk: PolicyId -> bool, n: nat, i: nat)
    requires Distinct(ps) && i < n <= |ps| && ps[i] in labels
    ensures ps[i] in RegroupLabels(ps, labels, g, labelOk, n)
    ensures RegroupLabels(ps, labels, g, labelOk, n)[ps[i]] ==
            if g(ps[i]) != "" && labelOk(ps[i]) then Proper(ps, g, i) else labels[ps[i]]
  {
    if i == n - 1 {
      assert ps[i] !in ps[..i];
      LabelUntouched(ps, labels, g, labelOk, i, ps[i]);
      NoneBefore(ps, g, g(ps[i]), i);
    } else {
      LabelsExactly(ps, labels, g, labelOk, n - 1, i);
    }
  }

  lemma GrownSet(before: set<nat>, after: set<nat>, n: nat, grows: bool)
    requires n !in before && forall i :: i in after <==> i in before || (i == n && grows)
    ensures |after| == |before| + One(grows)
  {
    assert after == if grows then before + {n} else before;
  }

  function ToRelabel(ps: seq<PolicyId>, labels: map<PolicyId, string>, g: PolicyId -> string, ok: PolicyId -> bool, n: nat): set<nat>
    requires n <= |ps| && forall p :: p in ps ==> p in labels
  {
    set i: nat | i < n && g(ps[i]) != "" && labels[ps[i]] != Proper(ps, g, i) && ok(ps[i])
  }

  function ToMove(ps: seq<PolicyId>, g: PolicyId -> string, ok: PolicyId -> bool, n: nat): set<nat>
    requires n <= |ps|
  {
    set i: nat | i < n && g(ps[i]) != "" && !IsFirst(ps, g, i) && ok(ps[i])
  }

  function Not(ok: PolicyId -> bool): PolicyId -> bool { (p: PolicyId) => !ok(p) }

  lemma {:induction false} WantedIsProper(ps: seq<PolicyId>, g: PolicyId -> string, n: nat)
    requires n < |ps|
    ensures WantedLabel(ps, g, n) == Proper(ps, g, n)
    ensures Moves(ps, g, n) <==> g(ps[n]) != "" && !IsFirst(ps, g, n)
  {
    NoneBefore(ps, g, g(ps[n]), n);
  }

  lemma {:induction false} OneMoreToRelabel(ps: seq<PolicyId>, labels: map<PolicyId, string>, g: PolicyId -> string,
                                            ok: PolicyId -> bool, n: nat)
    requires n < |ps| && forall p :: p in ps ==> p in labels
    ensures |ToRelabel(ps, labels, g, ok, n + 1)| ==
            |ToRelabel(ps, labels, g, ok, n)| + One(Relabels(ps, labels, g, n) && ok(ps[n]))
  {
    WantedIsProper(ps, g, n);
    GrownSet(ToRelabel(ps, labels, g, ok, n), ToRelabel(ps, labels, g, ok, n + 1), n, Relabels(ps, labels, g, n) && ok(ps[n]));
  }

  lemma {:induction false} OneMoreToMove(ps: seq<PolicyId>, g: PolicyId -> string, ok: PolicyId -> bool, n: nat)
    requires n < |ps|
    ensures |ToMove(ps, g, ok, n + 1)| == |ToMove(ps, g, ok, n)| + One(Moves(ps, g, n) && ok(ps[n]))
  {
    WantedIsProper(ps, g, n);
    GrownSet(ToMove(ps, g, ok, n), ToMove(ps, g, ok, n + 1), n, Moves(ps, g, n) && ok(ps[n]));
  }

  // The counts: grouped policies whose label was not the proper one, grouped
  // policies that are not the first of their label, and of both those whose
  // call failed.
  lemma {:induction false} RelabelsExactly(ps: seq<PolicyId>, labels: map<PolicyId, string>, g: PolicyId -> string,
                                           labelOk: PolicyId -> bool, n: nat)
    requires n <= |ps| && forall p :: p in ps ==> p in labels
    ensures RelabelCount(ps, labels, g, labelOk, n) == |ToRelabel(ps, labels, g, labelOk, n)|
  {
    if n > 0 {
      RelabelsExactly(ps, labels, g, labelOk, n - 1);
      OneMoreToRelabel(ps, labels, g, labelOk, n - 1);
    }
  }

  lemma {:induction false} MovesExactly(ps: seq<PolicyId>, g: PolicyId -> string, moveOk: PolicyId -> bool, n: nat)
    requires n <= |ps|
    ensures MoveCount(ps, g, moveOk, n) == |ToMove(ps, g, moveOk, n)|
  {
    if n > 0 {
      MovesExactly(ps, g, moveOk, n - 1);
      OneMoreToMove(ps, g, moveOk, n - 1);
    }
  }

  lemma {:induction false} FailuresExactly(ps: seq<PolicyId>, labels: map<PolicyId, string>, g: PolicyId -> string,
                                           labelOk: PolicyId -> bool, moveOk: PolicyId -> bool, n: nat)
    requires n <= |ps| && forall p :: p in ps ==> p in labels
    ensures FailureCount(ps, labels, g, labelOk, moveOk, n) ==
            |ToRelabel(ps, labels, g, Not(labelOk), n)| + |ToMove(ps, g, Not(moveOk), n)|
  {
    if n > 0 {
      FailuresExactly(ps, labels, g, labelOk, moveOk, n - 1);
      OneMoreToRelabel(ps, labels, g, Not(labelOk), n - 1);
      OneMoreToMove(ps, g, Not(moveOk), n - 1);
    }
  }

  // ── Any pattern of failed calls ───────────────────────────────────────────

  ghost predicate SameGroups(a: seq<PolicyId>, b: seq<PolicyId>, g: PolicyId -> string) {
    forall l :: Members(a, g, l) == Members(b, g, l)
  }

  lemma {:induction false} SameGroupsAppend(a: seq<PolicyId>, b: seq<PolicyId>, p: PolicyId, g: PolicyId -> string)
    requires SameGroups(a, b, g)
    ensures SameGroups(a + [p], b + [p], g)
  {
    var a', b' := a + [p], b + [p];
    forall l ensures Members(a', g, l) == Members(b', g, l) {
      MembersConcat(a, [p], g, l);
      MembersConcat(b, [p], g, l);
    }
  }

  // r is a state the pass may have reached after n policies: the handled ones
  // fill the first n places, the rest is untouched, and inside each group, and
  // among the ungrouped, the handled policies keep the order they had.
  ghost predicate Kept(ps: seq<PolicyId>, g: PolicyId -> string, n: nat, r: seq<PolicyId>)
    requires n <= |ps|
  {
    && |r| == |ps| && r[n..] == ps[n..] && Distinct(r) && multiset(r) == multiset(ps)
    && SameGroups(r[..n], ps[..n], g)
  }

  lemma {:induction false} StayStep(ps: seq<PolicyId>, g: PolicyId -> string, n: nat, r: seq<PolicyId>)
    requires n < |ps| && Kept(ps, g, n, r)
    ensures Kept(ps, g, n + 1, r)
    ensures r == r[..n] + [ps[n]] + ps[n + 1..] && r[..n + 1] == r[..n] + [ps[n]]
  {
    var p := ps[n];
    assert r[n] == r[n..][0] == p;
    assert r[..n + 1] == r[..n] + [p] && ps[..n + 1] == ps[..n] + [p];
    assert r[n + 1..] == r[n..][1..] && ps[n + 1..] == ps[n..][1..];
    SameGroupsAppend(r[..n], ps[..n], p, g);
  }

  lemma {:induction false} TailIsInPrefix(ps: seq<PolicyId>, g: PolicyId -> string, n: nat, r: seq<PolicyId>, ref: PolicyId)
    requires n < |ps| && Kept(ps, g, n, r)
    requires var m := Members(ps[..n], g, g(ps[n])); m != [] && m[|m| - 1] == ref
    ensures ref in r[..n] && g(ref) == g(ps[n]) && ps[n] !in r[..n]
    ensures MoveAfter(r, ps[n], ref) == InsertAfter(r[..n], ps[n], ref) + ps[n + 1..]
  {
    var m := Members(r[..n], g, g(ps[n]));
    MembersSound(r[..n], g, g(ps[n]));
    assert m[|m| - 1] in m;
    StayStep(ps, g, n, r);
    DistinctParts(r[..n] + [ps[n]], ps[n + 1..]);
    DistinctParts(r[..n], [ps[n]]);
    MoveIntoPrefix(r[..n], ps[n], ps[n + 1..], ref);
  }

  lemma {:induction false} InsertSameGroups(a: seq<PolicyId>, g: PolicyId -> string, x: PolicyId, ref: PolicyId)
    requires Distinct(a) && ref in a && g(ref) == g(x)
    requires var m := Members(a, g, g(x)); m != [] && m[|m| - 1] == ref
    ensures SameGroups(InsertAfter(a, x, ref), a + [x], g)
  {
    var a', b' := InsertAfter(a, x, ref), a + [x];
    forall l ensures Members(a', g, l) == Members(b', g, l) { InsertKeepsGroups(a, g, x, ref, l); }
  }

  lemma {:induction false} MoveStep(ps: seq<PolicyId>, g: PolicyId -> string, n: nat, r: seq<PolicyId>, ref: PolicyId)
    requires n < |ps| && Kept(ps, g, n, r)
    requires var m := Members(ps[..n], g, g(ps[n])); m != [] && m[|m| - 1] == ref
    ensures Kept(ps, g, n + 1, MoveAfter(r, ps[n], ref))
  {
    var p, a, rest := ps[n], r[..n], ps[n + 1..];
    TailIsInPrefix(ps, g, n, r, ref);
    StayStep(ps, g, n, r);
    var a' := InsertAfter(a, p, ref);
    InsertSameGroups(a, g, p, ref);
    InsertAfterElements(a, p, ref);
    assert (a' + rest)[..n + 1] == a' && (a' + rest)[n + 1..] == rest;
    MoveKeepsPolicies(r, p, ref);
  }

  lemma {:induction false} PassKeepsPolicies(ps: seq<PolicyId>, g: PolicyId -> string, moveOk: PolicyId -> bool, n: nat)
    requires Distinct(ps) && n <= |ps|
    ensures Kept(ps, g, n, RegroupOrder(ps, g, moveOk, n))
  {
    if n == 0 {
      assert Kept(ps, g, 0, ps);
    } else {
      PassKeepsPolicies(ps, g, moveOk, n - 1);
      var r, p := RegroupOrder(ps, g, moveOk, n - 1), ps[n - 1];
      assert Kept(ps, g, n - 1, r);
      var group := Members(ps[..n - 1], g, g(p));
      if g(p) == "" || group == [] || !moveOk(p) {
        assert RegroupOrder(ps, g, moveOk, n) == r;
        StayStep(ps, g, n - 1, r);
      } else {
        MoveStep(ps, g, n - 1, r, group[|group| - 1]);
      }
    }
  }

  // For any pattern of failed calls the result is a permutation that keeps the
  // order inside every group and among the ungrouped policies (l == "").
  lemma {:induction false} KeepsOrderInsideGroups(ps: seq<PolicyId>, g: PolicyId -> string, moveOk: PolicyId -> bool, l: string)
    requires Distinct(ps)
    ensures multiset(RegroupOrder(ps, g, moveOk, |ps|)) == multiset(ps)
    ensures Members(RegroupOrder(ps, g, moveOk, |ps|), g, l) == Members(ps, g, l)
  {
    PassKeepsPolicies(ps, g, moveOk, |ps|);
    var r := RegroupOrder(ps, g, moveOk, |ps|);
    assert r[..|ps|] == r && ps[..|ps|] == ps;
  }

  // A packet all of whose matching policies share one label meets the same
  // policy first, whatever calls failed.
  lemma {:induction false} SameFirstMatchInOneGroup(ps: seq<PolicyId>, g: PolicyId -> string, moveOk: PolicyId -> bool,
                                 matches: PolicyId -> bool, l: string)
    requires Distinct(ps)
    requires forall p :: p in ps && matches(p) ==> g(p) == l
    ensures FirstMatch(RegroupOrder(ps, g, moveOk, |ps|), matches) == FirstMatch(ps, matches)
  {
    var r := RegroupOrder(ps, g, moveOk, |ps|);
    KeepsOrderInsideGroups(ps, g, moveOk, l);
    assert forall p :: p in r ==> p in multiset(r);
    assert forall p :: p in multiset(ps) ==> p in ps;
    FirstMatchInGroup(ps, g, l, matches);
    FirstMatchInGroup(r, g, l, matches);
  }
}
