// Node references: "<host id>~<node name>", or a bare node name from the time
// before the portal knew several hosts. A row may carry either form.
module NodeRef {
  import opened Options

  datatype NodeRef = NodeRef(host: Option<nat>, name: string, ref: string)

  // What String.prototype.trim removes.
  predicate IsSpace(c: char) {
    || '\U{0009}' <= c <= '\U{000D}'
    || c in {'\U{0020}', '\U{00A0}', '\U{1680}', '\U{2028}', '\U{2029}', '\U{202F}', '\U{205F}', '\U{3000}', '\U{FEFF}'}
    || '\U{2000}' <= c <= '\U{200A}'
  }

  function TrimStart(s: string): (r: string)
    ensures |r| <= |s| && (|r| == |s| ==> r == s)
    ensures r != "" ==> !IsSpace(r[0])
  {
    if s != "" && IsSpace(s[0]) then TrimStart(s[1..]) else s
  }

  function TrimEnd(s: string): (r: string)
    ensures r <= s && (r != "" ==> !IsSpace(r[|r| - 1]))
  {
    if s != "" && IsSpace(s[|s| - 1]) then TrimEnd(s[..|s| - 1]) else s
  }

  function Trim(s: string): (r: string)
    ensures |r| <= |s| && (|r| == |s| ==> r == s)
    ensures r != "" ==> !IsSpace(r[0]) && !IsSpace(r[|r| - 1])
  {
    TrimEnd(TrimStart(s))
  }

  // Index of the first separator, or the length.
  function FirstSeparator(s: string): (k: nat)
    ensures k <= |s| && (k < |s| ==> s[k] == '~') && '~' !in s[..k]
  {
    if s == "" || s[0] == '~' then 0 else 1 + FirstSeparator(s[1..])
  }

  predicate Digits(s: string) { forall i :: 0 <= i < |s| ==> '0' <= s[i] <= '9' }

  function ParseDigits(s: string): nat
    requires Digits(s)
  {
    if s == "" then 0 else 10 * ParseDigits(s[..|s| - 1]) + (s[|s| - 1] as nat - '0' as nat)
  }

  function Decode(value: string): NodeRef { ReadTrimmed(Trim(value)) }

  function ReadTrimmed(raw: string): NodeRef {
    var k := FirstSeparator(raw);
    if 0 < k < |raw| && Digits(raw[..k]) && raw[k + 1..] != ""
    then NodeRef(Some(ParseDigits(raw[..k])), raw[k + 1..], raw)
    else NodeRef(None, raw, raw)
  }

  // The names a row of this node may carry, the preferred one first.
  function Candidates(value: string): (r: seq<string>)
    ensures |r| <= 2 && (|r| == 2 ==> r[0] != r[1])
    ensures r == [] <==> Trim(value) == ""
  {
    var d := Decode(value);
    if d.host.None? || d.host.value == 0 then (if d.name == "" then [] else [d.name])
    else [d.ref, d.name]
  }

  // ── Writing and reading a reference ───────────────────────────────────────

  function Decimal(n: nat): (s: string)
    ensures s != "" && Digits(s)
  {
    var last := ['0' + (n % 10) as char];
    if n < 10 then last else Decimal(n / 10) + last
  }

  function Encode(host: nat, name: string): string {
    var node := Trim(name);
    if node == "" || host == 0 then node else Decimal(host) + "~" + node
  }

  lemma {:induction false} DecimalReads(n: nat)
    ensures ParseDigits(Decimal(n)) == n
  {
    var last := ['0' + (n % 10) as char];
    assert last[..0] == "";
    if n >= 10 {
      var s := Decimal(n / 10) + last;
      assert s[..|s| - 1] == Decimal(n / 10);
      DecimalReads(n / 10);
    }
  }

  lemma {:induction false} SeparatorAfter(digits: string, rest: string)
    requires Digits(digits)
    ensures FirstSeparator(digits + "~" + rest) == |digits|
  {
    var s := digits + "~" + rest;
    if digits != "" {
      assert s[1..] == digits[1..] + "~" + rest;
      SeparatorAfter(digits[1..], rest);
    }
  }

  // Digits, the separator, and at least one more character.
  predicate SplitsAt(raw: string, k: nat) { 0 < k < |raw| - 1 && raw[k] == '~' && Digits(raw[..k]) }

  // A trimmed text is read as host id and name exactly if it splits so, and as
  // a bare name otherwise.
  lemma DecodesExactly(value: string)
    ensures var raw, d := Trim(value), Decode(value);
      && d.ref == raw
      && (d.host.Some? <==> exists k: nat :: SplitsAt(raw, k))
      && (d.host.None? ==> d.name == raw)
      && (forall k: nat :: SplitsAt(raw, k) ==> d.host == Some(ParseDigits(raw[..k])) && d.name == raw[k + 1..])
  {
    forall k: nat | SplitsAt(Trim(value), k)
      ensures ReadTrimmed(Trim(value)) == NodeRef(Some(ParseDigits(Trim(value)[..k])), Trim(value)[k + 1..], Trim(value))
    {
      SplitReads(Trim(value), k);
    }
    ReadIsSplit(Trim(value));
  }

  lemma {:induction false} SplitReads(raw: string, k: nat)
    requires SplitsAt(raw, k)
    ensures ReadTrimmed(raw) == NodeRef(Some(ParseDigits(raw[..k])), raw[k + 1..], raw)
  {
    assert raw == raw[..k] + "~" + raw[k + 1..];
    ReadsBack(raw[..k], raw[k + 1..]);
  }

  lemma {:induction false} ReadIsSplit(raw: string)
    ensures ReadTrimmed(raw).host.Some? ==> exists k: nat :: SplitsAt(raw, k)
    ensures ReadTrimmed(raw).ref == raw && (ReadTrimmed(raw).host.None? ==> ReadTrimmed(raw).name == raw)
  {
    if ReadTrimmed(raw).host.Some? { assert SplitsAt(raw, FirstSeparator(raw)); }
  }

  lemma NothingToTrim(s: string)
    requires s != "" && !IsSpace(s[0]) && !IsSpace(s[|s| - 1])
    ensures Trim(s) == s
  {
  }

  // A written reference reads back, and its row is looked for under the
  // reference first and under the bare name second.
  lemma EncodedReadsBack(host: nat, name: string)
    requires host > 0 && Trim(name) != ""
    ensures var ref := Encode(host, name);
      && Decode(ref) == NodeRef(Some(host), Trim(name), ref)
      && Candidates(ref) == [ref, Trim(name)]
  {
    var digits, node := Decimal(host), Trim(name);
    var ref := digits + "~" + node;
    assert ref[0] == digits[0] && '0' <= ref[0] <= '9';
    assert ref[|ref| - 1] == node[|node| - 1];
    NothingToTrim(ref);
    ReadsBack(digits, node);
    DecimalReads(host);
  }

  lemma {:induction false} ReadsBack(digits: string, node: string)
    requires Digits(digits) && digits != "" && node != ""
    ensures ReadTrimmed(digits + "~" + node) == NodeRef(Some(ParseDigits(digits)), node, digits + "~" + node)
  {
    var ref := digits + "~" + node;
    assert ref[..|digits|] == digits && ref[|digits| + 1..] == node;
    SeparatorAfter(digits, node);
  }

  // A bare name without a separator is the only name looked for.
  lemma BareNameReadsBack(name: string)
    requires Trim(name) != "" && '~' !in name
    ensures Decode(name) == NodeRef(None, Trim(name), Trim(name)) && Candidates(name) == [Trim(name)]
  {
    DecodesExactly(name);
    TrimTakesOnly(name);
  }

  lemma TrimTakesOnly(s: string)
    ensures forall c :: c in Trim(s) ==> c in s
  {
    StartTakesOnly(s);
  }

  lemma {:induction false} StartTakesOnly(s: string)
    ensures forall c :: c in TrimStart(s) ==> c in s
  {
    if s != "" && IsSpace(s[0]) { StartTakesOnly(s[1..]); }
  }

  // A reference names itself unless it has surrounding spaces or names host 0.
  lemma OwnCandidate(value: string)
    ensures value in Candidates(value) <==> value != "" && Trim(value) == value && Decode(value).host != Some(0)
  {
    var d := Decode(value);
    if d.host.Some? {
      assert |d.name| < |d.ref| <= |value|;
    }
  }

  lemma TrimmedIsTrimmed(value: string)
    ensures Trim(Trim(value)) == Trim(value)
    ensures Decode(Decode(value).ref) == Decode(value)
  {
    if Trim(value) != "" { NothingToTrim(Trim(value)); }
  }

  // ── The VM that a name and a VMID stand for ───────────────────────────────

  // A guest of a node of a host.
  datatype Vm = Vm(host: nat, node: string, vmid: nat)

  // A bare node name stands for the host that `home` gives it, which the portal
  // finds by asking its hosts.
  function Denotes(node: string, vmid: nat, home: (string, nat) -> nat): Vm {
    var ref := Decode(node);
    Vm(if ref.host.Some? && ref.host.value != 0 then ref.host.value else home(ref.name, vmid), ref.name, vmid)
  }

  // A name that stands for another VM is looked up only if it is the bare name.
  lemma LookedUpByBareName(value: string, node: string, vmid: nat, home: (string, nat) -> nat)
    requires Denotes(node, vmid, home) != Denotes(value, vmid, home)
    ensures node in Candidates(value) <==> node == Decode(value).name
  {
    TrimmedIsTrimmed(value);
    assert node != Decode(value).ref;
    ReadIsSplit(Trim(value));
  }

  lemma DecodedNames()
    ensures Decode("1~pve") == NodeRef(Some(1), "pve", "1~pve")
    ensures Decode("pve") == NodeRef(None, "pve", "pve")
    ensures "1~pve" != "pve"
  {
    assert "1~pve"[0] != "pve"[0];
    var q := "1~pve";
    assert !IsSpace(q[0]) && !IsSpace(q[|q| - 1]);
    assert TrimStart(q) == q && TrimEnd(q) == q;
    assert FirstSeparator(q[1..]) == 0;
    assert q[..1] == "1" && q[2..] == "pve";
    assert ParseDigits("1") == 1 by { assert "1"[..0] == ""; }
    var p := "pve";
    assert TrimStart(p) == p && TrimEnd(p) == p;
    assert p[1..] == "ve" && "ve"[1..] == "e" && "e"[1..] == "";
    assert FirstSeparator("e") == 1 && FirstSeparator("ve") == 2 && FirstSeparator(p) == 3;
  }
}
