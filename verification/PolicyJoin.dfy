// Parking one policy in a labelled section (joinSequenceGroup), and the label
// functions the regroup route uses for the lab and root VDOMs.
module PolicyJoin {
  import opened Options
  import opened PolicyOrder
  import opened PolicyRegroup
  import opened PolicyGrouping
  import opened PolicySections

  // ── Finding the section ───────────────────────────────────────────────────

  // Place of the first policy labelled `text`, |s| if there is none.
  function SectionStart(s: seq<PolicyId>, labels: Labels, text: string): (i: nat)
    ensures i <= |s|
    ensures i < |s| ==> LabelOf(labels, s[i]) == text
    ensures forall k :: 0 <= k < i ==> LabelOf(labels, s[k]) != text
  {
    if s == [] || LabelOf(labels, s[0]) == text then 0 else 1 + SectionStart(s[1..], labels, text)
  }

  // How many policies at the front of s carry no label.
  function Unlabelled(s: seq<PolicyId>, labels: Labels): (n: nat)
    ensures n <= |s|
    ensures forall k :: 0 <= k < n ==> LabelOf(labels, s[k]) == ""
    ensures n < |s| ==> LabelOf(labels, s[n]) != ""
  {
    if s == [] || LabelOf(labels, s[0]) != "" then 0 else 1 + Unlabelled(s[1..], labels)
  }

  // Place of the last policy of the section that starts at i.
  function SectionEnd(s: seq<PolicyId>, labels: Labels, i: nat): (t: nat)
    requires i < |s|
    ensures i <= t < |s|
  {
    i + Unlabelled(s[i + 1..], labels)
  }

  // The list and labels after the join; the flags say which calls succeed. The
  // section is looked up among the other policies. Once a call fails nothing
  // more is tried.
  function JoinOutcome(order: seq<PolicyId>, labels: Labels, self: PolicyId, text: string,
                       updateOk: bool, moveOk: bool): (seq<PolicyId>, Labels)
  {
    var others := Without(order, self);
    var start := SectionStart(others, labels, text);
    if self !in order then (order, labels)
    else if start == |others| then
      (order, if updateOk then labels[self := text] else labels)
    else if LabelOf(labels, self) != "" && !updateOk then (order, labels)
    else
      (if moveOk then MoveAfter(order, self, others[SectionEnd(others, labels, start)]) else order,
       if LabelOf(labels, self) != "" then labels[self := ""] else labels)
  }

  // The two scans of the source, which walk the full list and step over self.
  function ScanAnchor(s: seq<PolicyId>, labels: Labels, self: PolicyId, text: string): (i: nat)
    ensures i <= |s|
  {
    if s == [] || (s[0] != self && LabelOf(labels, s[0]) == text) then 0 else 1 + ScanAnchor(s[1..], labels, self, text)
  }

  function ScanTail(s: seq<PolicyId>, labels: Labels, self: PolicyId, tail: PolicyId): PolicyId {
    if s == [] then tail
    else if s[0] == self then ScanTail(s[1..], labels, self, tail)
    else if LabelOf(labels, s[0]) != "" then tail
    else ScanTail(s[1..], labels, self, s[0])
  }

  ghost predicate AnchorFound(s: seq<PolicyId>, others: seq<PolicyId>, labels: Labels, self: PolicyId, text: string) {
    var i, start := ScanAnchor(s, labels, self, text), SectionStart(others, labels, text);
    if i == |s| then start == |others|
    else start < |others| && s[i] == others[start] && Without(s[i + 1..], self) == others[start + 1..]
  }

  lemma {:induction false} AnchorAmongOthers(s: seq<PolicyId>, labels: Labels, self: PolicyId, text: string)
    requires Distinct(s)
    ensures AnchorFound(s, Without(s, self), labels, self, text)
  {
    if s != [] {
      assert Distinct(s[1..]);
      AnchorAmongOthers(s[1..], labels, self, text);
      if s[0] == self {
        WithoutElements(s[1..], self);
        AnchorBehind(s, s[1..], labels, self, text);
      } else if LabelOf(labels, s[0]) == text {
        assert Without(s, self)[1..] == Without(s[1..], self);
      } else {
        AnchorBehindOther(s, Without(s[1..], self), labels, self, text);
      }
    }
  }

  lemma {:induction false} AnchorBehind(s: seq<PolicyId>, others: seq<PolicyId>, labels: Labels, self: PolicyId, text: string)
    requires s != [] && s[0] == self && AnchorFound(s[1..], others, labels, self, text)
    ensures AnchorFound(s, others, labels, self, text)
  {
    var i := ScanAnchor(s[1..], labels, self, text);
    if i < |s[1..]| { assert s[1..][i + 1..] == s[1 + i + 1..]; }
  }

  lemma {:induction false} AnchorBehindOther(s: seq<PolicyId>, others: seq<PolicyId>, labels: Labels, self: PolicyId, text: string)
    requires s != [] && LabelOf(labels, s[0]) != text && AnchorFound(s[1..], others, labels, self, text)
    ensures AnchorFound(s, [s[0]] + others, labels, self, text)
  {
    var i, start := ScanAnchor(s[1..], labels, self, text), SectionStart(others, labels, text);
    var all := [s[0]] + others;
    assert all[1..] == others;
    if i < |s[1..]| {
      assert s[1..][i + 1..] == s[1 + i + 1..];
      assert others[start + 1..] == all[1 + start + 1..];
    }
  }

  // The last of the unlabelled policies at the front of s, `tail` if none.
  function LastUnlabelled(s: seq<PolicyId>, labels: Labels, tail: PolicyId): PolicyId {
    var n := Unlabelled(s, labels);
    if n == 0 then tail else s[n - 1]
  }

  lemma {:induction false} LastUnlabelledStep(x: PolicyId, rest: seq<PolicyId>, labels: Labels, tail: PolicyId)
    ensures LastUnlabelled([x] + rest, labels, tail) ==
            if LabelOf(labels, x) != "" then tail else LastUnlabelled(rest, labels, x)
  {
    assert ([x] + rest)[1..] == rest;
  }

  lemma {:induction false} TailAmongOthers(s: seq<PolicyId>, labels: Labels, self: PolicyId, tail: PolicyId)
    requires Distinct(s)
    ensures ScanTail(s, labels, self, tail) == LastUnlabelled(Without(s, self), labels, tail)
  {
    if s != [] {
      assert Distinct(s[1..]);
      if s[0] == self {
        WithoutElements(s[1..], self);
        TailAmongOthers(s[1..], labels, self, tail);
      } else {
        TailAmongOthers(s[1..], labels, self, s[0]);
        LastUnlabelledStep(s[0], Without(s[1..], self), labels, tail);
      }
    }
  }

  lemma {:induction false} SectionEndIs(others: seq<PolicyId>, labels: Labels, start: nat, behind: seq<PolicyId>)
    requires start < |others| && others[start + 1..] == behind
    ensures others[SectionEnd(others, labels, start)] == LastUnlabelled(behind, labels, others[start])
  {
    var n := Unlabelled(behind, labels);
    if n > 0 { assert behind[n - 1] == others[start + 1..][n - 1] == others[start + n]; }
  }

  lemma {:induction false} TailFound(first: PolicyId, rest: seq<PolicyId>, others: seq<PolicyId>, start: nat, labels: Labels, self: PolicyId)
    requires Distinct(rest) && start < |others| && first == others[start] && Without(rest, self) == others[start + 1..]
    ensures ScanTail(rest, labels, self, first) == others[SectionEnd(others, labels, start)]
  {
    TailAmongOthers(rest, labels, self, first);
    SectionEndIs(others, labels, start, Without(rest, self));
  }

  // Both scans together find the end of the section among the other policies.
  lemma {:induction false} ScansFindSection(s: seq<PolicyId>, others: seq<PolicyId>, labels: Labels, self: PolicyId, text: string)
    requires Distinct(s) && others == Without(s, self)
    ensures var i, start := ScanAnchor(s, labels, self, text), SectionStart(others, labels, text);
            if i == |s| then start == |others|
            else start < |others| && ScanTail(s[i + 1..], labels, self, s[i]) == others[SectionEnd(others, labels, start)]
  {
    AnchorAmongOthers(s, labels, self, text);
    var i := ScanAnchor(s, labels, self, text);
    if i < |s| {
      assert Distinct(s[i + 1..]);
      TailFound(s[i], s[i + 1..], others, SectionStart(others, labels, text), labels, self);
    }
  }

  // ── The join itself ───────────────────────────────────────────────────────

  method FindAnchor(policies: seq<PolicyId>, labels: Labels, self: PolicyId, text: string) returns (anchor: nat)
    ensures anchor == ScanAnchor(policies, labels, self, text)
  {
    anchor := 0;
    while anchor < |policies| && !(LabelOf(labels, policies[anchor]) == text && policies[anchor] != self)
      invariant anchor <= |policies|
      invariant ScanAnchor(policies, labels, self, text) == anchor + ScanAnchor(policies[anchor..], labels, self, text)
    {
      assert policies[anchor..][1..] == policies[anchor + 1..];
      anchor := anchor + 1;
    }
  }

  method FindTail(policies: seq<PolicyId>, labels: Labels, self: PolicyId, anchor: nat) returns (tail: PolicyId)
    requires anchor < |policies|
    ensures tail == ScanTail(policies[anchor + 1..], labels, self, policies[anchor])
  {
    tail := policies[anchor];
    var i := anchor + 1;
    while i < |policies|
      invariant anchor < i <= |policies|
      invariant ScanTail(policies[anchor + 1..], labels, self, policies[anchor]) == ScanTail(policies[i..], labels, self, tail)
    {
      assert policies[i..][1..] == policies[i + 1..];
      if policies[i] != self {
        if LabelOf(labels, policies[i]) != "" { break; }
        tail := policies[i];
      }
      i := i + 1;
    }
  }

  // Best effort: without a policy id (0) or a label, or when the list cannot be
  // read, nothing happens.
  method JoinSequenceGroup(table: PolicyTable, self: PolicyId, text: string, listOk: bool, updateOk: bool, moveOk: bool)
    requires table.Valid()
    modifies table
    ensures table.Valid()
    ensures (table.order, table.labels) ==
            if self == 0 || text == "" || !listOk then (old(table.order), old(table.labels))
            else JoinOutcome(old(table.order), old(table.labels), self, text, updateOk, moveOk)
  {
    if self == 0 || text == "" { return; }
    if !listOk { return; }
    var policies, labels := table.order, table.labels;
    var known := self in policies;
    ghost var others := Without(policies, self);
    ScansFindSection(policies, others, labels, self, text);
    WithoutElements(policies, self);
    var anchor := FindAnchor(policies, labels, self, text);
    if anchor == |policies| {
      if LabelOf(labels, self) != text || !known {
        var _ := table.UpdatePolicy(self, text, updateOk);
      } else {
        assert labels[self := text] == labels;
      }
      return;
    }
    var tail := FindTail(policies, labels, self, anchor);
    assert tail in others;
    if known && LabelOf(labels, self) != "" {
      var ok := table.UpdatePolicy(self, "", updateOk);
      if !ok { return; }
    }
    var _ := table.MovePolicyAfter(self, tail, moveOk);
  }

  // ── What a join means for the other policies ──────────────────────────────

  // The other policies with the sections they lie in, in list order.
  function SectionsOfOthers(s: seq<(PolicyId, string)>, self: PolicyId): seq<(PolicyId, string)> {
    if s == [] then []
    else if s[0].0 == self then SectionsOfOthers(s[1..], self)
    else [s[0]] + SectionsOfOthers(s[1..], self)
  }

  lemma {:induction false} OthersConcat(a: seq<(PolicyId, string)>, b: seq<(PolicyId, string)>, self: PolicyId)
    ensures SectionsOfOthers(a + b, self) == SectionsOfOthers(a, self) + SectionsOfOthers(b, self)
  {
    if a == [] { assert a + b == b; } else {
      assert (a + b)[1..] == a[1..] + b;
      OthersConcat(a[1..], b, self);
    }
  }

  lemma {:induction false} OthersOfAbsent(s: seq<PolicyId>, labels: Labels, section: string, self: PolicyId)
    requires self !in s
    ensures SectionsOfOthers(Sections(s, labels, section), self) == Sections(s, labels, section)
  {
    if s != [] {
      OthersOfAbsent(s[..|s| - 1], labels, section, self);
      OthersConcat(Sections(s[..|s| - 1], labels, section), [(s[|s| - 1], Carry(s, labels, section))], self);
    }
  }

  // An unlabelled policy put anywhere leaves the others' sections alone and
  // joins the section in force where it was put.
  lemma {:induction false} UnlabelledGuest(a: seq<PolicyId>, b: seq<PolicyId>, labels: Labels, self: PolicyId)
    requires self !in a && self !in b && LabelOf(labels, self) == ""
    ensures SectionsOfOthers(Sections(a + [self] + b, labels, ""), self) == Sections(a + b, labels, "")
    ensures Carry(a + [self], labels, "") == Carry(a, labels, "")
  {
    GuestSections(a, b, labels, self);
    SectionsConcat(a, [self], labels, "");
    assert [self][..0] == [];
    SectionsConcat(a, b, labels, "");
  }

  lemma {:induction false} GuestSections(a: seq<PolicyId>, b: seq<PolicyId>, labels: Labels, self: PolicyId)
    requires self !in a && self !in b
    ensures SectionsOfOthers(Sections(a + [self] + b, labels, ""), self)
         == Sections(a, labels, "") + Sections(b, labels, Carry(a + [self], labels, ""))
  {
    var c := Carry(a + [self], labels, "");
    var front, back := Sections(a, labels, ""), Sections(b, labels, c);
    SectionsConcat(a + [self], b, labels, "");
    OthersConcat(Sections(a + [self], labels, ""), back, self);
    OthersOfAbsent(b, labels, c, self);
    SelfDropsOut(a, labels, self);
  }

  lemma {:induction false} SelfDropsOut(a: seq<PolicyId>, labels: Labels, self: PolicyId)
    requires self !in a
    ensures SectionsOfOthers(Sections(a + [self], labels, ""), self) == Sections(a, labels, "")
  {
    var here := [(self, Carry(a + [self], labels, ""))];
    assert (a + [self])[..|a|] == a;
    OthersConcat(Sections(a, labels, ""), here, self);
    OthersOfAbsent(a, labels, "", self);
    assert here[1..] == [];
  }

  // ── The join, for any place of the joining policy ─────────────────────────

  // Where w's section that starts at i ends.
  lemma {:induction false} SectionThrough(w: seq<PolicyId>, labels: Labels, i: nat)
    requires i < |w| && LabelOf(labels, w[i]) != ""
    ensures Carry(w[..SectionEnd(w, labels, i) + 1], labels, "") == LabelOf(labels, w[i])
  {
    var n, behind := Unlabelled(w[i + 1..], labels), w[i + 1..];
    forall k | i < k <= i + n ensures LabelOf(labels, w[k]) == "" { assert w[k] == behind[k - i - 1]; }
    UnlabelledCarry(w, labels, i, n);
  }

  lemma {:induction false} UnlabelledCarry(w: seq<PolicyId>, labels: Labels, i: nat, n: nat)
    requires i + n < |w| && LabelOf(labels, w[i]) != ""
    requires forall k :: i < k <= i + n ==> LabelOf(labels, w[k]) == ""
    ensures Carry(w[..i + n + 1], labels, "") == LabelOf(labels, w[i])
  {
    assert w[..i + n + 1][..i + n] == w[..i + n];
    if n > 0 {
      UnlabelledCarry(w, labels, i, n - 1);
    }
  }

  // When the section exists and every call succeeds, the policy ends up in it,
  // and the others keep their order and the sections they have without it,
  // wherever the policy stood before.
  lemma {:induction false} JoinExistingSection(order: seq<PolicyId>, labels: Labels, self: PolicyId, text: string)
    requires Distinct(order) && self in order && text != ""
    requires SectionStart(Without(order, self), labels, text) < |Without(order, self)|
    ensures var (o, l) := JoinOutcome(order, labels, self, text, true, true);
            && SectionsOfOthers(Sections(o, l, ""), self) == Sections(Without(order, self), labels, "")
            && exists i :: 0 <= i < |o| && o[i] == self && Carry(o[..i + 1], l, "") == text
  {
    var a, b, l := JoinedList(order, labels, self, text);
    GuestJoins(a, b, l, self);
    var o := a + [self] + b;
    assert o[|a|] == self && Carry(o[..|a| + 1], l, "") == text;
  }

  // Moving a policy behind another one, in terms of the list without it.
  lemma {:induction false} MovedBehind(order: seq<PolicyId>, self: PolicyId, t: nat)
    requires Distinct(order) && self in order && t < |Without(order, self)|
    ensures var others := Without(order, self);
      && self !in others[..t + 1] && self !in others[t + 1..]
      && MoveAfter(order, self, others[t]) == others[..t + 1] + [self] + others[t + 1..]
  {
    var others := Without(order, self);
    WithoutElements(order, self);
    var front, back := others[..t], others[t + 1..];
    assert others == front + [others[t]] + back && others[t] in others;
    DistinctParts(front + [others[t]], back);
    DistinctParts(front, [others[t]]);
    assert others[t] in [others[t]];
    InsertBehind(front, others[t], back, self);
    assert others[..t + 1] == front + [others[t]];
    assert self !in others[t + 1..] by { assert forall x :: x in back ==> x in others; }
  }

  lemma {:induction false} JoinedList(order: seq<PolicyId>, labels: Labels, self: PolicyId, text: string)
    returns (a: seq<PolicyId>, b: seq<PolicyId>, l: Labels)
    requires Distinct(order) && self in order && text != ""
    requires SectionStart(Without(order, self), labels, text) < |Without(order, self)|
    ensures Without(order, self) == a + b && self !in a && self !in b && LabelOf(l, self) == ""
    ensures JoinOutcome(order, labels, self, text, true, true) == (a + [self] + b, l)
    ensures Carry(a, l, "") == text && Sections(a + b, l, "") == Sections(a + b, labels, "")
    ensures |a| == SectionEnd(Without(order, self), labels, SectionStart(Without(order, self), labels, text)) + 1
  {
    var others := Without(order, self);
    var start := SectionStart(others, labels, text);
    var t := SectionEnd(others, labels, start);
    MovedBehind(order, self, t);
    a, b := others[..t + 1], others[t + 1..];
    assert others == a + b;
    l := if LabelOf(labels, self) != "" then labels[self := ""] else labels;
    SectionThrough(others, labels, start);
    if LabelOf(labels, self) != "" {
      SectionsIgnore(a + b, labels, self, "", "");
      SectionsIgnore(a, labels, self, "", "");
    }
  }

  // The first section labelled `text` starts at k, and s[..n] ends inside it.
  ghost predicate EndsInSection(s: seq<PolicyId>, labels: Labels, text: string, k: nat, n: nat) {
    && k < n <= |s| && LabelOf(labels, s[k]) == text
    && (forall j :: 0 <= j < k ==> LabelOf(labels, s[j]) != text)
    && (forall j :: k < j < n ==> LabelOf(labels, s[j]) == "")
  }

  lemma {:induction false} SectionEndsHere(s: seq<PolicyId>, labels: Labels, text: string)
    requires SectionStart(s, labels, text) < |s|
    ensures var start := SectionStart(s, labels, text);
      var n := SectionEnd(s, labels, start) + 1;
      EndsInSection(s, labels, text, start, n) && (n < |s| ==> LabelOf(labels, s[n]) != "")
  {
    var start := SectionStart(s, labels, text);
    var behind := s[start + 1..];
    forall j | start < j <= SectionEnd(s, labels, start) ensures LabelOf(labels, s[j]) == "" {
      assert s[j] == behind[j - start - 1];
    }
    var n := Unlabelled(behind, labels);
    if n < |behind| { assert behind[n] == s[start + 1 + n]; }
  }

  // Exactly where the policy ends up: above it the list ends with the first
  // section of that label, and the policy behind it is labelled or there is
  // none.
  lemma {:induction false} JoinsAtSectionEnd(order: seq<PolicyId>, labels: Labels, self: PolicyId, text: string)
    returns (a: seq<PolicyId>, b: seq<PolicyId>, l: Labels, k: nat)
    requires Distinct(order) && self in order && text != ""
    requires exists x :: x in order && x != self && LabelOf(labels, x) == text
    ensures JoinOutcome(order, labels, self, text, true, true) == (a + [self] + b, l)
    ensures Without(order, self) == a + b && self !in a && self !in b && LabelOf(l, self) == ""
    ensures forall x :: x != self ==> LabelOf(l, x) == LabelOf(labels, x)
    ensures EndsInSection(a, labels, text, k, |a|) && (b == [] || LabelOf(labels, b[0]) != "")
  {
    var others := Without(order, self);
    SectionExists(order, labels, self, text);
    SectionEndsHere(others, labels, text);
    JoinUnderFailures(order, labels, self, text, true, true);
    a, b, l := JoinedList(order, labels, self, text);
    k := SectionStart(others, labels, text);
    assert forall j :: 0 <= j < |a| ==> a[j] == others[j];
    assert b != [] ==> b[0] == others[|a|];
  }

  lemma SectionExists(order: seq<PolicyId>, labels: Labels, self: PolicyId, text: string)
    requires Distinct(order)
    ensures SectionStart(Without(order, self), labels, text) < |Without(order, self)| <==>
            exists x :: x in order && x != self && LabelOf(labels, x) == text
  {
    var others := Without(order, self);
    WithoutElements(order, self);
    var start := SectionStart(others, labels, text);
    if start < |others| {
      assert others[start] in others;
    } else {
      forall x | x in order && x != self ensures LabelOf(labels, x) != text {
        assert x in others;
        var k :| 0 <= k < |others| && others[k] == x;
      }
    }
  }

  // A packet meets the joined policy first exactly if it matches and no policy
  // above it does, be it a member of the section or not; every other packet
  // meets the policy that it meets without the joined one.
  lemma {:induction false} JoinedMeetsExactly(a: seq<PolicyId>, self: PolicyId, b: seq<PolicyId>, matches: PolicyId -> bool)
    requires self !in a && self !in b
    ensures FirstMatch(a + [self] + b, matches) == Some(self) <==> matches(self) && forall x :: x in a ==> !matches(x)
    ensures FirstMatch(a + [self] + b, matches) != Some(self) ==> FirstMatch(a + [self] + b, matches) == FirstMatch(a + b, matches)
  {
    FirstMatchConcat(a + [self], b, matches);
    FirstMatchConcat(a, [self], matches);
    FirstMatchConcat(a, b, matches);
    FirstMatchSound(a, matches);
    FirstMatchSound(b, matches);
    assert [self][1..] == [];
  }

  // A packet that a member of the section matches keeps its first match.
  lemma {:induction false} SectionKeepsFirstMatch(order: seq<PolicyId>, labels: Labels, self: PolicyId, text: string,
                                                  matches: PolicyId -> bool, start: nat, member: nat)
    requires Distinct(order) && self in order && text != ""
    requires EndsInSection(Without(order, self), labels, text, start, member + 1) && matches(Without(order, self)[member])
    ensures FirstMatch(JoinOutcome(order, labels, self, text, true, true).0, matches) == FirstMatch(Without(order, self), matches)
  {
    var others := Without(order, self);
    WithoutElements(order, self);
    assert others[start] in others;
    var a, b, l, k := JoinsAtSectionEnd(order, labels, self, text);
    SameSection(a, b, labels, text, start, member, k);
    assert others[member] in a by { assert a[member] == others[member]; }
    JoinedMeetsExactly(a, self, b, matches);
  }

  lemma SameSection(a: seq<PolicyId>, b: seq<PolicyId>, labels: Labels, text: string, start: nat, member: nat, k: nat)
    requires EndsInSection(a + b, labels, text, start, member + 1) && EndsInSection(a, labels, text, k, |a|)
    requires b == [] || LabelOf(labels, b[0]) != ""
    ensures member < |a|
  {
    assert forall j :: 0 <= j < |a| ==> (a + b)[j] == a[j];
    assert b != [] ==> (a + b)[|a|] == b[0];
    assert LabelOf(labels, (a + b)[k]) == text;
  }

  // What failing calls leave: the policy's label changes exactly if the update
  // goes through, and the order only if the move does, after an update if one
  // was needed; nobody else's label ever changes.
  lemma {:induction false} JoinUnderFailures(order: seq<PolicyId>, labels: Labels, self: PolicyId, text: string,
                                             updateOk: bool, moveOk: bool)
    requires Distinct(order)
    ensures var (o, l) := JoinOutcome(order, labels, self, text, updateOk, moveOk);
      var found := exists x :: x in order && x != self && LabelOf(labels, x) == text;
      && (forall x :: x != self ==> LabelOf(l, x) == LabelOf(labels, x))
      && LabelOf(l, self) == (if self !in order || !updateOk then LabelOf(labels, self) else if found then "" else text)
      && o == (if self in order && found && moveOk && (updateOk || LabelOf(labels, self) == "")
               then JoinOutcome(order, labels, self, text, true, true).0 else order)
  {
    SectionExists(order, labels, self, text);
  }

  lemma {:induction false} GuestJoins(a: seq<PolicyId>, b: seq<PolicyId>, labels: Labels, self: PolicyId)
    requires self !in a && self !in b && LabelOf(labels, self) == ""
    ensures var o := a + [self] + b;
            && SectionsOfOthers(Sections(o, labels, ""), self) == Sections(a + b, labels, "")
            && o[|a|] == self && Carry(o[..|a| + 1], labels, "") == Carry(a, labels, "")
  {
    UnlabelledGuest(a, b, labels, self);
    assert (a + [self] + b)[..|a| + 1] == a + [self];
  }

  // At the bottom of the list, the place new policies are created at, no
  // pattern of failed calls changes another policy's order or section, and with
  // every call succeeding the policy lies in the section `text`, whether or not
  // that section existed.
  lemma {:induction false} JoinAtBottom(others: seq<PolicyId>, labels: Labels, self: PolicyId, text: string,
                                        updateOk: bool, moveOk: bool)
    requires Distinct(others + [self]) && text != ""
    ensures var (o, l) := JoinOutcome(others + [self], labels, self, text, updateOk, moveOk);
            SectionsOfOthers(Sections(o, l, ""), self) == SectionsOfOthers(Sections(others + [self], labels, ""), self)
    ensures updateOk && moveOk ==>
              var (o, l) := JoinOutcome(others + [self], labels, self, text, updateOk, moveOk);
              exists i :: 0 <= i < |o| && o[i] == self && Carry(o[..i + 1], l, "") == text
  {
    DistinctParts(others, [self]);
    assert self in [self] && (others + [self])[|others|] == self;
    assert others + [self] == others + [self] + [] && others + [] == others;
    WithoutConcat(others, [], self);
    BottomSections(others, labels, self);
    if SectionStart(others, labels, text) == |others| {
      StayAtBottom(others, labels, self, text);
      StayAtBottom(others, labels, self, LabelOf(labels, self));
    } else if moveOk && (updateOk || LabelOf(labels, self) == "") {
      MovedJoin(others, labels, self, text, updateOk);
    } else {
      StayAtBottom(others, labels, self, "");
    }
  }

  // Relabelling a policy that stays at the bottom.
  lemma {:induction false} StayAtBottom(others: seq<PolicyId>, labels: Labels, self: PolicyId, text: string)
    requires self !in others
    ensures SectionsOfOthers(Sections(others + [self], labels[self := text], ""), self) == Sections(others, labels, "")
    ensures var o := others + [self];
            o[|others|] == self && (text != "" ==> Carry(o[..|others| + 1], labels[self := text], "") == text)
  {
    BottomSections(others, labels[self := text], self);
    SectionsIgnore(others, labels, self, text, "");
    assert (others + [self])[..|others| + 1] == others + [self];
  }

  lemma {:induction false} BottomSections(others: seq<PolicyId>, labels: Labels, self: PolicyId)
    requires self !in others
    ensures SectionsOfOthers(Sections(others + [self], labels, ""), self) == Sections(others, labels, "")
  {
    assert others + [self] + [] == others + [self];
    GuestSections(others, [], labels, self);
  }

  // The move happened, so the update, if one was needed, succeeded.
  lemma {:induction false} MovedJoin(others: seq<PolicyId>, labels: Labels, self: PolicyId, text: string, updateOk: bool)
    requires Distinct(others + [self]) && self !in others && text != ""
    requires Without(others + [self], self) == others
    requires SectionStart(others, labels, text) < |others|
    requires updateOk || LabelOf(labels, self) == ""
    ensures var (o, l) := JoinOutcome(others + [self], labels, self, text, updateOk, true);
            && SectionsOfOthers(Sections(o, l, ""), self) == Sections(others, labels, "")
            && exists i :: 0 <= i < |o| && o[i] == self && Carry(o[..i + 1], l, "") == text
  {
    assert (others + [self])[|others|] == self;
    JoinExistingSection(others + [self], labels, self, text);
    assert JoinOutcome(others + [self], labels, self, text, updateOk, true)
        == JoinOutcome(others + [self], labels, self, text, true, true);
  }

  // A new section started away from the bottom captures the unlabelled policy
  // that follows: the others keep their sections exactly when the next policy
  // is labelled or there is none.
  lemma {:induction false} NewSectionAwayFromBottom(a: seq<PolicyId>, b: seq<PolicyId>, labels: Labels, self: PolicyId, text: string)
    requires Distinct(a + [self] + b) && text != "" && SectionStart(a + b, labels, text) == |a + b|
    ensures var (o, l) := JoinOutcome(a + [self] + b, labels, self, text, true, true);
            SectionsOfOthers(Sections(o, l, ""), self) == Sections(a + b, labels, "")
            <==> b == [] || LabelOf(labels, b[0]) != ""
  {
    DistinctParts(a + [self], b);
    DistinctParts(a, [self]);
    assert self in a + [self];
    assert (a + [self] + b)[|a|] == self;
    assert self !in a && self !in b;
    WithoutConcat(a, b, self);
    var l := labels[self := text];
    GuestSections(a, b, l, self);
    SectionsConcat(a, b, labels, "");
    SectionsIgnore(a, labels, self, text, "");
    assert (a + [self])[..|a|] == a;
    assert Carry(a + [self], l, "") == text;
    SectionsIgnore(b, labels, self, text, text);
    var c := Carry(a, labels, "");
    CarrySource(a, labels);
    forall k: nat | k < |a| ensures LabelOf(labels, a[k]) != text { assert (a + b)[k] == a[k]; }
    if b != [] { HeadSection(b, labels, text); HeadSection(b, labels, c); }
    var front := Sections(a, labels, "");
    assert front + Sections(b, labels, text) == front + Sections(b, labels, c) <==> Sections(b, labels, text) == Sections(b, labels, c) by {
      if front + Sections(b, labels, text) == front + Sections(b, labels, c) {
        assert (front + Sections(b, labels, text))[|front|..] == Sections(b, labels, text);
        assert (front + Sections(b, labels, c))[|front|..] == Sections(b, labels, c);
      }
    }
  }

  lemma CarrySource(s: seq<PolicyId>, labels: Labels)
    ensures Carry(s, labels, "") != "" ==> exists k: nat :: k < |s| && LabelOf(labels, s[k]) == Carry(s, labels, "")
  {
    if s != [] && LabelOf(labels, s[|s| - 1]) == "" {
      CarrySource(s[..|s| - 1], labels);
      if Carry(s, labels, "") != "" {
        var k: nat :| k < |s| - 1 && LabelOf(labels, s[..|s| - 1][k]) == Carry(s, labels, "");
        assert LabelOf(labels, s[k]) == Carry(s, labels, "");
      }
    }
  }

  lemma {:induction false} HeadSection(b: seq<PolicyId>, labels: Labels, section: string)
    requires b != []
    ensures Sections(b, labels, section) != []
    ensures Sections(b, labels, section)[0] == (b[0], if LabelOf(labels, b[0]) != "" then LabelOf(labels, b[0]) else section)
    ensures LabelOf(labels, b[0]) != "" ==> forall other :: Sections(b, labels, other) == Sections(b, labels, section)
  {
    assert b == [b[0]] + b[1..] && [b[0]][..0] == [];
    SectionsConcat([b[0]], b[1..], labels, section);
    if LabelOf(labels, b[0]) != "" {
      forall other ensures Sections(b, labels, other) == Sections(b, labels, section) {
        SectionsConcat([b[0]], b[1..], labels, other);
      }
    }
  }

  // ── The regroup route's labels ────────────────────────────────────────────

  datatype Rule = Rule(name: string, srcintf: seq<string>, dstintf: seq<string>)

  function FirstInterface(interfaces: seq<string>): string {
    if interfaces == [] then "" else interfaces[0]
  }

  // Lab VDOM: the synced source interface decides; port-forward legs are
  // grouped by the target VLAN; everything else stays ungrouped.
  function LabLabel(rule: Rule, ifaceLabels: map<string, string>): string {
    var src, dst := FirstInterface(rule.srcintf), FirstInterface(rule.dstintf);
    if src in ifaceLabels then ifaceLabels[src]
    else if dst in ifaceLabels && "PF: " <= rule.name then "Port Forwarding (" + dst + ")"
    else ""
  }

  // A policy is grouped by its own synced source interface, and by its target
  // interface exactly if only that one is synced and it is a forward's leg.
  lemma LabLabelExactly(rule: Rule, ifaceLabels: map<string, string>)
    requires "" !in ifaceLabels
    ensures var fromSynced := rule.srcintf != [] && rule.srcintf[0] in ifaceLabels;
      var leg := && rule.dstintf != [] && rule.dstintf[0] in ifaceLabels
                 && |rule.name| >= 4 && rule.name[..4] == "PF: ";
      && (fromSynced ==> LabLabel(rule, ifaceLabels) == ifaceLabels[rule.srcintf[0]])
      && (!fromSynced && leg ==> LabLabel(rule, ifaceLabels) == "Port Forwarding (" + rule.dstintf[0] + ")")
      && (!fromSynced && !leg ==> LabLabel(rule, ifaceLabels) == "")
  {
  }

  function LabelFor(rules: map<PolicyId, Rule>, ifaceLabels: map<string, string>): PolicyId -> string {
    p => if p in rules then LabLabel(rules[p], ifaceLabels) else ""
  }

  // A packet entering on a synced interface that only policies naming that
  // interface first can match keeps its first match, whatever calls fail.
  lemma {:induction false} LabPacketKeepsFirstMatch(ps: seq<PolicyId>, rules: map<PolicyId, Rule>, ifaceLabels: map<string, string>,
                                                    moveOk: PolicyId -> bool, matches: PolicyId -> bool, iface: string)
    requires Distinct(ps) && iface in ifaceLabels
    requires forall p :: p in ps && matches(p) ==> p in rules && FirstInterface(rules[p].srcintf) == iface
    ensures FirstMatch(RegroupOrder(ps, LabelFor(rules, ifaceLabels), moveOk, |ps|), matches) == FirstMatch(ps, matches)
  {
    SameFirstMatchInOneGroup(ps, LabelFor(rules, ifaceLabels), moveOk, matches, ifaceLabels[iface]);
  }

  // Only the first source interface counts for the label, so a policy that
  // names two can be pulled above one it stood below: interface "b" met policy
  // 1 first, and meets policy 2 first afterwards.
  lemma {:induction false} SecondSourceInterfaceIsNotProtected()
    ensures var rules := map[0 := Rule("w", ["a"], []), 1 := Rule("x", ["b"], []), 2 := Rule("y", ["a", "b"], [])];
            var g := LabelFor(rules, map["a" := "A", "b" := "B"]);
            var entersOnB := p => p in rules && "b" in rules[p].srcintf;
            && FirstMatch([0, 1, 2], entersOnB) == Some(1)
            && FirstMatch(RegroupOrder([0, 1, 2], g, Always, 3), entersOnB) == Some(2)
  {
    var rules := map[0 := Rule("w", ["a"], []), 1 := Rule("x", ["b"], []), 2 := Rule("y", ["a", "b"], [])];
    var g := LabelFor(rules, map["a" := "A", "b" := "B"]);
    var entersOnB := p => p in rules && "b" in rules[p].srcintf;
    assert rules[1].srcintf[0] == "b" && rules[2].srcintf[1] == "b";
    OneOfThreeMoves(g);
    FirstOfThree(0, 1, 2, entersOnB);
    FirstOfThree(0, 2, 1, entersOnB);
  }

  lemma {:induction false} FirstOfThree(x: PolicyId, y: PolicyId, z: PolicyId, matches: PolicyId -> bool)
    requires !matches(x) && matches(y)
    ensures FirstMatch([x, y, z], matches) == Some(y)
  {
    assert [x, y, z][1..] == [y, z];
  }

  lemma {:induction false} MembersAppend(s: seq<PolicyId>, x: PolicyId, g: PolicyId -> string, l: string)
    ensures Members(s + [x], g, l) == Members(s, g, l) + if g(x) == l then [x] else []
  {
    assert (s + [x])[..|s|] == s;
  }

  lemma {:induction false} OneOfThreeMoves(g: PolicyId -> string)
    requires g(0) == g(2) != "" && g(1) != g(0)
    ensures RegroupOrder([0, 1, 2], g, Always, 3) == [0, 2, 1]
  {
    var ps := [0, 1, 2];
    assert ps[..0] == [] && ps[..1] == [] + [0] && ps[..2] == [] + [0] + [1];
    MembersAppend([], 0, g, g(1));
    MembersAppend([], 0, g, g(2));
    MembersAppend([] + [0], 1, g, g(2));
    assert RegroupOrder(ps, g, Always, 2) == ps by {
      assert RegroupOrder(ps, g, Always, 1) == ps by { assert RegroupOrder(ps, g, Always, 0) == ps; }
    }
    assert MoveAfter(ps, 2, 0) == [0, 2, 1] by {
      assert ps == [0, 1] + [2] + [];
      WithoutConcat([0, 1], [], 2);
      InsertBehind([], 0, [1], 2);
    }
  }
}
