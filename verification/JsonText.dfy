// JSON text on UTF-16 code units: string and number tokens as JSON.stringify
// writes them (RFC 8259, sections 6 and 7) and as a reader takes them apart.
module JsonText {

  // One UTF-16 code unit.
  type Unit = u: nat | u < 0x1_0000 witness 0

  type Text = seq<Unit>

  datatype Parsed<T> = Fail | Done(value: T, rest: Text)

  const QUOTE: Unit := 0x22
  const PLUS: Unit := 0x2B
  const COMMA: Unit := 0x2C
  const MINUS: Unit := 0x2D
  const DOT: Unit := 0x2E
  const COLON: Unit := 0x3A
  const OPEN_ARRAY: Unit := 0x5B
  const BACKSLASH: Unit := 0x5C
  const CLOSE_ARRAY: Unit := 0x5D
  const OPEN_OBJECT: Unit := 0x7B
  const CLOSE_OBJECT: Unit := 0x7D

  const NULL_TEXT: Text := [0x6E, 0x75, 0x6C, 0x6C]
  const TRUE_TEXT: Text := [0x74, 0x72, 0x75, 0x65]
  const FALSE_TEXT: Text := [0x66, 0x61, 0x6C, 0x73, 0x65]

  // What may follow a value inside a text, or nothing.
  predicate Delimited(rest: Text) {
    rest == [] || rest[0] in {COMMA, CLOSE_ARRAY, CLOSE_OBJECT}
  }

  // ── Hexadecimal escapes ───────────────────────────────────────────────────

  function HexDigit(d: nat): Unit
    requires d < 16
  {
    if d < 10 then 0x30 + d else 0x61 + (d - 10)
  }

  // The value of a hexadecimal digit, or 16.
  function HexValue(u: Unit): (d: nat)
    ensures d <= 16
  {
    if 0x30 <= u <= 0x39 then u - 0x30
    else if 0x61 <= u <= 0x66 then u - 0x61 + 10
    else if 0x41 <= u <= 0x46 then u - 0x41 + 10
    else 16
  }

  function Hex4(u: Unit): Text {
    [HexDigit(u / 0x1000), HexDigit(u / 0x100 % 16), HexDigit(u / 0x10 % 16), HexDigit(u % 16)]
  }

  function ReadHex4(t: Text): Parsed<Unit> {
    if |t| < 4 then Fail
    else
      var a, b, c, d := HexValue(t[0]), HexValue(t[1]), HexValue(t[2]), HexValue(t[3]);
      if a < 16 && b < 16 && c < 16 && d < 16 then Done(a * 0x1000 + b * 0x100 + c * 0x10 + d, t[4..]) else Fail
  }

  lemma Hex4Reads(u: Unit, rest: Text)
    ensures ReadHex4(Hex4(u) + rest) == Done(u, rest)
  {
    var t := Hex4(u) + rest;
    assert t[0] == Hex4(u)[0] && t[1] == Hex4(u)[1] && t[2] == Hex4(u)[2] && t[3] == Hex4(u)[3] && t[4..] == rest;
    FourDigits(u);
  }

  lemma FourDigits(u: Unit)
    ensures u == u / 0x1000 * 0x1000 + u / 0x100 % 16 * 0x100 + u / 0x10 % 16 * 0x10 + u % 16
  {
    assert u / 0x10 == u / 0x100 * 16 + u / 0x10 % 16;
    assert u / 0x100 == u / 0x1000 * 16 + u / 0x100 % 16;
  }

  // ── Strings ───────────────────────────────────────────────────────────────

  predicate HighSurrogate(u: Unit) { 0xD800 <= u < 0xDC00 }

  predicate LowSurrogate(u: Unit) { 0xDC00 <= u < 0xE000 }

  // The letter of a two-character escape, or 0.
  function ShortEscape(u: Unit): Unit {
    if u == QUOTE then QUOTE
    else if u == BACKSLASH then BACKSLASH
    else if u == 8 then 0x62
    else if u == 9 then 0x74
    else if u == 10 then 0x6E
    else if u == 12 then 0x66
    else if u == 13 then 0x72
    else 0
  }

  // One code unit that is not part of a surrogate pair.
  function Escape(u: Unit): Text {
    if ShortEscape(u) != 0 then [BACKSLASH, ShortEscape(u)]
    else if u < 0x20 || HighSurrogate(u) || LowSurrogate(u) then [BACKSLASH, 0x75] + Hex4(u)
    else [u]
  }

  // The inside of a string token: pairs stay, lone surrogates are escaped.
  function Escaped(s: Text): Text {
    if s == [] then []
    else if |s| > 1 && HighSurrogate(s[0]) && LowSurrogate(s[1]) then [s[0], s[1]] + Escaped(s[2..])
    else Escape(s[0]) + Escaped(s[1..])
  }

  function Quoted(s: Text): Text { [QUOTE] + Escaped(s) + [QUOTE] }

  function UnescapeLetter(u: Unit): Unit {
    if u == 0x62 then 8
    else if u == 0x74 then 9
    else if u == 0x6E then 10
    else if u == 0x66 then 12
    else if u == 0x72 then 13
    else if u in {QUOTE, BACKSLASH, 0x2F} then u
    else 0
  }

  // One unit of a string token.
  function ReadUnit(t: Text): (r: Parsed<Unit>)
    ensures r.Done? ==> |r.rest| < |t|
  {
    if t == [] || t[0] < 0x20 || t[0] == QUOTE then Fail
    else if t[0] != BACKSLASH then Done(t[0], t[1..])
    else if |t| < 2 then Fail
    else if t[1] == 0x75 then ReadHex4(t[2..])
    else if UnescapeLetter(t[1]) != 0 then Done(UnescapeLetter(t[1]), t[2..])
    else Fail
  }

  // The rest of a string token, after its opening quote.
  function ReadString(t: Text): (r: Parsed<Text>)
    ensures r.Done? ==> |r.rest| < |t|
    decreases |t|
  {
    if t != [] && t[0] == QUOTE then Done([], t[1..])
    else
      var first := ReadUnit(t);
      if first.Fail? then Fail
      else
        var more := ReadString(first.rest);
        if more.Fail? then Fail else Done([first.value] + more.value, more.rest)
  }

  lemma RawUnitReads(u: Unit, rest: Text)
    requires u >= 0x20 && u != QUOTE && u != BACKSLASH
    ensures ReadUnit([u] + rest) == Done(u, rest)
  {
    assert ([u] + rest)[1..] == rest;
  }

  lemma EscapeReads(u: Unit, rest: Text)
    ensures ReadUnit(Escape(u) + rest) == Done(u, rest)
    ensures (Escape(u) + rest)[0] != QUOTE
  {
    var t := Escape(u) + rest;
    if ShortEscape(u) != 0 {
      assert t[0] == BACKSLASH && t[1] == ShortEscape(u) && t[2..] == rest;
    } else if u < 0x20 || HighSurrogate(u) || LowSurrogate(u) {
      assert t[0] == BACKSLASH && t[1] == 0x75 && t[2..] == Hex4(u) + rest;
      Hex4Reads(u, rest);
    } else {
      RawUnitReads(u, rest);
    }
  }

  // A quoted string reads back as itself, whatever follows it.
  lemma {:induction false} StringReads(s: Text, rest: Text)
    ensures ReadString(Escaped(s) + [QUOTE] + rest) == Done(s, rest)
  {
    var t := Escaped(s) + [QUOTE] + rest;
    if s == [] {
      assert t == [QUOTE] + rest && t[1..] == rest;
    } else if |s| > 1 && HighSurrogate(s[0]) && LowSurrogate(s[1]) {
      var after := Escaped(s[2..]) + [QUOTE] + rest;
      assert t == [s[0]] + ([s[1]] + after);
      StringReads(s[2..], rest);
      RawUnitReads(s[1], after);
      RawUnitReads(s[0], [s[1]] + after);
      assert ReadString([s[1]] + after) == Done([s[1]] + s[2..], rest);
      assert [s[0]] + ([s[1]] + s[2..]) == s;
    } else {
      var after := Escaped(s[1..]) + [QUOTE] + rest;
      assert t == Escape(s[0]) + after;
      StringReads(s[1..], rest);
      EscapeReads(s[0], after);
      assert [s[0]] + s[1..] == s;
    }
  }

  // ── Numbers ───────────────────────────────────────────────────────────────

  predicate Digit(u: Unit) { 0x30 <= u <= 0x39 }

  predicate NumberUnit(u: Unit) { Digit(u) || u in {PLUS, MINUS, DOT, 0x45, 0x65} }

  predicate Digits(t: Text) { t != [] && forall i :: 0 <= i < |t| ==> Digit(t[i]) }

  // int: a single zero, or digits without a leading zero
  predicate IntPart(t: Text) { Digits(t) && (t[0] == 0x30 ==> |t| == 1) }

  // exp: E or e, an optional sign, digits
  predicate ExpPart(t: Text) {
    t == [] || (t[0] in {0x45, 0x65} && |t| > 1
                && (if t[1] in {PLUS, MINUS} then Digits(t[2..]) else Digits(t[1..])))
  }

  predicate FracPart(t: Text) { t == [] || (t[0] == DOT && Digits(t[1..])) }

  // [ minus ] int [ frac ] [ exp ]
  ghost predicate IsNumber(t: Text) {
    exists sign: Text, digits: Text, frac: Text, exp: Text ::
      t == sign + digits + frac + exp && sign in {[], [MINUS]} && IntPart(digits) && FracPart(frac) && ExpPart(exp)
  }

  lemma NumberUnits(t: Text)
    requires IsNumber(t)
    ensures t != [] && (Digit(t[0]) || t[0] == MINUS)
    ensures forall i :: 0 <= i < |t| ==> NumberUnit(t[i])
  {
    var sign: Text, digits: Text, frac: Text, exp: Text :|
      t == sign + digits + frac + exp && sign in {[], [MINUS]} && IntPart(digits) && FracPart(frac) && ExpPart(exp);
    FracUnits(frac);
    ExpUnits(exp);
  }

  lemma FracUnits(t: Text)
    requires FracPart(t)
    ensures forall i :: 0 <= i < |t| ==> NumberUnit(t[i])
  {
    forall i | 0 <= i < |t| ensures NumberUnit(t[i]) {
      if i > 0 { assert t[i] == t[1..][i - 1]; }
    }
  }

  lemma ExpUnits(t: Text)
    requires ExpPart(t)
    ensures forall i :: 0 <= i < |t| ==> NumberUnit(t[i])
  {
    forall i | 0 <= i < |t| ensures NumberUnit(t[i]) {
      if i > 1 { assert t[i] == t[1..][i - 1] == t[2..][i - 2]; }
      if i == 1 && !(t[1] in {PLUS, MINUS}) { assert t[1] == t[1..][0]; }
    }
  }

  // The longest run of number units.
  function NumberRun(t: Text): (k: nat)
    ensures k <= |t|
  {
    if t == [] || !NumberUnit(t[0]) then 0 else 1 + NumberRun(t[1..])
  }

  lemma {:induction false} NumberReads(t: Text, rest: Text)
    requires Delimited(rest) && forall i :: 0 <= i < |t| ==> NumberUnit(t[i])
    ensures NumberRun(t + rest) == |t|
  {
    if t == [] {
      assert t + rest == rest;
    } else {
      assert (t + rest)[1..] == t[1..] + rest;
      NumberReads(t[1..], rest);
    }
  }

  // ── Key order: Array.prototype.sort compares code units ───────────────────

  predicate Less(a: Text, b: Text) {
    b != [] && (a == [] || a[0] < b[0] || (a[0] == b[0] && Less(a[1..], b[1..])))
  }

  lemma {:induction false} LessTotal(a: Text, b: Text)
    ensures a == b || Less(a, b) || Less(b, a)
    ensures !(Less(a, b) && Less(b, a)) && !Less(a, a)
  {
    if a != [] {
      LessTotal(a[1..], a[1..]);
      if b != [] {
        LessTotal(a[1..], b[1..]);
        if a[0] == b[0] && a[1..] == b[1..] { assert a == [a[0]] + a[1..] && b == [b[0]] + b[1..]; }
      }
    }
  }

  lemma {:induction false} LessTransitive(a: Text, b: Text, c: Text)
    requires Less(a, b) && Less(b, c)
    ensures Less(a, c)
  {
    if a != [] && a[0] == b[0] == c[0] { LessTransitive(a[1..], b[1..], c[1..]); }
  }
}
