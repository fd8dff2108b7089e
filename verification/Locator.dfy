/** Element locators: how `observe` prints and numbers them, and how `parseLocator` reads them.

    Text is UTF-16 code units, as in JavaScript strings, so a truncated name may end in half
    of a surrogate pair. */
module Locator {
  import opened Wrappers

  type CodeUnit = u: int | 0 <= u < 0x10000 witness 0

  type Text = seq<CodeUnit>

  const QUOTE: CodeUnit := 34
  const BACKSLASH: CodeUnit := 92
  const OPEN: CodeUnit := 91
  const CLOSE: CodeUnit := 93
  const BAR: CodeUnit := 124
  /** `role=`, `[name=` and `|nth=`. */
  const ROLE: Text := [114, 111, 108, 101, 61]
  const NAME: Text := [91, 110, 97, 109, 101, 61]
  const NTH: Text := [124, 110, 116, 104, 61]

  const MAX_ELEMENTS := 200
  const MAX_NAME := 128
  const MAX_ROLE := 64

  // ---- JSON string literals (section 7 of RFC 8259) ----------------------------------

  predicate High(c: CodeUnit) {
    0xD800 <= c < 0xDC00
  }

  predicate Low(c: CodeUnit) {
    0xDC00 <= c < 0xE000
  }

  function HexDigit(v: nat): CodeUnit
    requires v < 16
  {
    if v < 10 then 48 + v else 87 + v
  }

  function HexValue(c: CodeUnit): Option<nat> {
    if 48 <= c <= 57 then Some(c - 48)
    else if 97 <= c <= 102 then Some(c - 87)
    else if 65 <= c <= 70 then Some(c - 55)
    else None
  }

  function Hex(c: CodeUnit): Text {
    [HexDigit(c / 4096), HexDigit(c / 256 % 16), HexDigit(c / 16 % 16), HexDigit(c % 16)]
  }

  /** The letter of a two-character escape. */
  function Short(c: CodeUnit): Option<CodeUnit> {
    if c == 8 then Some(98)
    else if c == 9 then Some(116)
    else if c == 10 then Some(110)
    else if c == 12 then Some(102)
    else if c == 13 then Some(114)
    else if c == QUOTE then Some(QUOTE)
    else if c == BACKSLASH then Some(BACKSLASH)
    else None
  }

  function EscapeUnit(c: CodeUnit): Text {
    if Short(c).Some? then [BACKSLASH, Short(c).value]
    else if c < 32 || High(c) || Low(c) then [BACKSLASH, 117] + Hex(c)
    else [c]
  }

  /** What `JSON.stringify` puts between the quotes: half a surrogate pair is escaped, a whole
      one is not. */
  function Escape(s: Text): Text {
    if s == [] then []
    else if |s| > 1 && High(s[0]) && Low(s[1]) then s[..2] + Escape(s[2..])
    else EscapeUnit(s[0]) + Escape(s[1..])
  }

  function Quote(s: Text): Text {
    [QUOTE] + Escape(s) + [QUOTE]
  }

  function Unshort(c: CodeUnit): Option<CodeUnit> {
    if c == 98 then Some(8)
    else if c == 116 then Some(9)
    else if c == 110 then Some(10)
    else if c == 102 then Some(12)
    else if c == 114 then Some(13)
    else if c == QUOTE || c == BACKSLASH || c == 47 then Some(c)
    else None
  }

  function Unhex(s: Text): Option<CodeUnit>
    requires |s| >= 4
  {
    var a, b, c, d := HexValue(s[0]), HexValue(s[1]), HexValue(s[2]), HexValue(s[3]);
    if a.Some? && b.Some? && c.Some? && d.Some?
    then
      var v := a.value * 4096 + b.value * 256 + c.value * 16 + d.value;
      if v < 0x10000 then Some(v) else None
    else None
  }

  /** Every half of a surrogate pair stands next to its other half. */
  predicate WellFormed(s: Text) {
    if s == [] then true
    else if 0xD800 <= s[0] <= 0xDBFF then |s| > 1 && 0xDC00 <= s[1] <= 0xDFFF && WellFormed(s[2..])
    else !(0xDC00 <= s[0] <= 0xDFFF) && WellFormed(s[1..])
  }

  lemma {:induction false} WellFormedJoin(a: Text, b: Text)
    requires WellFormed(a) && WellFormed(b)
    ensures WellFormed(a + b)
    decreases |a|
  {
    if a == [] {
      assert a + b == b;
    } else if 0xD800 <= a[0] <= 0xDBFF {
      WellFormedJoin(a[2..], b);
      assert (a + b)[2..] == a[2..] + b;
    } else {
      WellFormedJoin(a[1..], b);
      assert (a + b)[1..] == a[1..] + b;
    }
  }

  /** What is printed is well-formed text, whatever the name. */
  lemma {:induction false} EscapeIsWellFormed(s: Text)
    ensures WellFormed(Escape(s))
    decreases |s|
  {
    if s == [] {
    } else if |s| > 1 && High(s[0]) && Low(s[1]) {
      EscapeIsWellFormed(s[2..]);
      assert s[..2][2..] == [];
      assert WellFormed(s[..2]);
      WellFormedJoin(s[..2], Escape(s[2..]));
    } else {
      EscapeIsWellFormed(s[1..]);
      UnitIsWellFormed(s[0]);
      WellFormedJoin(EscapeUnit(s[0]), Escape(s[1..]));
    }
  }

  lemma UnitIsWellFormed(c: CodeUnit)
    ensures WellFormed(EscapeUnit(c))
  {
    var unit := EscapeUnit(c);
    assert forall i :: 0 <= i < |unit| ==> !(0xD800 <= unit[i] <= 0xDFFF);
    PlainIsWellFormed(unit);
  }

  lemma {:induction false} PlainIsWellFormed(s: Text)
    requires forall i :: 0 <= i < |s| ==> !(0xD800 <= s[i] <= 0xDFFF)
    ensures WellFormed(s)
  {
    if s != [] {
      PlainIsWellFormed(s[1..]);
    }
  }

  /** Only quotes, backslashes, control characters and lone halves are printed as anything but
      themselves. */
  lemma {:induction false} EscapeKeeps(s: Text)
    requires WellFormed(s) && forall i :: 0 <= i < |s| ==> s[i] >= 32 && s[i] != 34 && s[i] != 92
    ensures Escape(s) == s
    decreases |s|
  {
    if s == [] {
    } else if |s| > 1 && High(s[0]) && Low(s[1]) {
      EscapeKeeps(s[2..]);
      assert s == s[..2] + s[2..];
    } else {
      assert EscapeUnit(s[0]) == [s[0]];
      hide EscapeUnit;
      EscapeKeeps(s[1..]);
      assert s == [s[0]] + s[1..];
    }
  }

  /** What `JSON.parse` makes of the text between the quotes. */
  function Decode(body: Text): Option<Text> {
    if body == [] then Some([])
    else if body[0] == QUOTE || body[0] < 32 then None
    else if body[0] != BACKSLASH then Prepend(body[0], Decode(body[1..]))
    else if |body| < 2 then None
    else if Unshort(body[1]).Some? then Prepend(Unshort(body[1]).value, Decode(body[2..]))
    else if body[1] == 117 && |body| >= 6 && Unhex(body[2..]).Some?
    then Prepend(Unhex(body[2..]).value, Decode(body[6..]))
    else None
  }

  function Prepend(c: CodeUnit, rest: Option<Text>): Option<Text> {
    if rest.None? then None else Some([c] + rest.value)
  }

  lemma HexRound(v: nat)
    requires v < 16
    ensures HexValue(HexDigit(v)) == Some(v)
  {
  }

  lemma HexParts(c: nat)
    requires c < 0x10000
    ensures c / 4096 < 16
    ensures c / 4096 * 4096 + c / 256 % 16 * 256 + c / 16 % 16 * 16 + c % 16 == c
  {
    var x, y := c / 16, c / 256;
    assert c == x * 16 + c % 16;
    assert x == y * 16 + x % 16 && y == x / 16;
    assert y == c / 4096 * 16 + y % 16;
  }

  lemma UnhexHex(c: CodeUnit, rest: Text)
    ensures Unhex(Hex(c) + rest) == Some(c)
  {
    HexParts(c);
    HexRound(c / 4096);
    HexRound(c / 256 % 16);
    HexRound(c / 16 % 16);
    HexRound(c % 16);
    hide HexDigit, HexValue;
    var s := Hex(c) + rest;
    assert s[0] == HexDigit(c / 4096) && s[1] == HexDigit(c / 256 % 16);
    assert s[2] == HexDigit(c / 16 % 16) && s[3] == HexDigit(c % 16);
  }

  lemma DecodeShort(c: CodeUnit, rest: Text)
    requires Short(c).Some?
    ensures Decode([BACKSLASH, Short(c).value] + rest) == Prepend(c, Decode(rest))
  {
    assert ([BACKSLASH, Short(c).value] + rest)[2..] == rest;
  }

  lemma DecodeHex(c: CodeUnit, rest: Text)
    ensures Decode([BACKSLASH, 117] + Hex(c) + rest) == Prepend(c, Decode(rest))
  {
    UnhexHex(c, rest);
    hide Hex, Unhex;
    HexLength(c);
    var text := [BACKSLASH, 117] + Hex(c) + rest;
    assert text[0] == BACKSLASH && text[1] == 117;
    assert text[2..] == Hex(c) + rest && text[6..] == rest;
  }

  lemma HexLength(c: CodeUnit)
    ensures |Hex(c)| == 4
  {
  }

  lemma DecodePlain(c: CodeUnit, rest: Text)
    requires c >= 32 && c != QUOTE && c != BACKSLASH
    ensures Decode([c] + rest) == Prepend(c, Decode(rest))
  {
    assert ([c] + rest)[1..] == rest;
  }

  lemma DecodeUnit(c: CodeUnit, rest: Text)
    ensures Decode(EscapeUnit(c) + rest) == Prepend(c, Decode(rest))
  {
    hide Decode, Hex;
    if Short(c).Some? {
      DecodeShort(c, rest);
    } else if c < 32 || High(c) || Low(c) {
      DecodeHex(c, rest);
    } else {
      DecodePlain(c, rest);
    }
  }

  lemma DecodePair(a: CodeUnit, b: CodeUnit, rest: Text)
    requires High(a) && Low(b)
    ensures Decode([a, b] + rest) == Prepend(a, Prepend(b, Decode(rest)))
  {
    hide Decode;
    DecodePlain(b, rest);
    DecodePlain(a, [b] + rest);
    assert [a, b] + rest == [a] + ([b] + rest);
  }

  /** `JSON.parse` undoes `JSON.stringify` on every string, well formed or not. */
  lemma {:induction false} DecodeEscape(s: Text)
    ensures Decode(Escape(s)) == Some(s)
  {
    if s == [] {
    } else if |s| > 1 && High(s[0]) && Low(s[1]) {
      hide Decode;
      DecodeEscape(s[2..]);
      DecodePair(s[0], s[1], Escape(s[2..]));
      assert s[..2] == [s[0], s[1]] && s == [s[0]] + ([s[1]] + s[2..]);
    } else {
      hide Decode, EscapeUnit;
      DecodeEscape(s[1..]);
      DecodeUnit(s[0], Escape(s[1..]));
      assert s == [s[0]] + s[1..];
    }
  }

  // ---- the pattern of LOCATOR ---------------------------------------------------------

  /** `[^[\]|]`. */
  predicate RoleUnit(c: CodeUnit) {
    c != OPEN && c != CLOSE && c != BAR
  }

  predicate LegalRole(role: Text) {
    1 <= |role| <= MAX_ROLE && forall i :: 0 <= i < |role| ==> RoleUnit(role[i])
  }

  /** What `.` does not match. */
  predicate LineEnd(c: CodeUnit) {
    c == 10 || c == 13 || c == 0x2028 || c == 0x2029
  }

  /** `(?:[^"\\]|\\.)*`. */
  predicate IsBody(body: Text) {
    if body == [] then true
    else if body[0] == BACKSLASH then |body| >= 2 && !LineEnd(body[1]) && IsBody(body[2..])
    else body[0] != QUOTE && IsBody(body[1..])
  }

  predicate Digit(c: CodeUnit) {
    48 <= c <= 57
  }

  /** `[1-9][0-9]{0,3}`. */
  predicate IsIndex(digits: Text) {
    && 1 <= |digits| <= 4
    && digits[0] != 48
    && forall i :: 0 <= i < |digits| ==> Digit(digits[i])
  }

  function Base(role: Text, literal: Text): Text {
    ROLE + role + NAME + literal + [CLOSE]
  }

  function Suffix(index: Option<Text>): Text {
    if index.Some? then NTH + index.value else []
  }

  datatype Captures = Captures(role: Text, body: Text, index: Option<Text>) {
    predicate Legal() {
      LegalRole(role) && IsBody(body) && (index.Some? ==> IsIndex(index.value))
    }

    function Show(): Text {
      Base(role, [QUOTE] + body + [QUOTE]) + Suffix(index)
    }
  }

  // ---- scanning ------------------------------------------------------------------------

  /** The number of leading code units that may stand in a role. */
  function RoleLength(s: Text): (n: nat)
    ensures n <= |s|
  {
    if s == [] || !RoleUnit(s[0]) then 0 else 1 + RoleLength(s[1..])
  }

  /** The length of a literal's body when `s` starts behind the opening quote. */
  function BodyLength(s: Text): (n: Option<nat>)
    ensures n.Some? ==> n.value < |s|
  {
    if s == [] then None
    else if s[0] == QUOTE then Some(0)
    else if s[0] == BACKSLASH then
      if |s| < 2 || LineEnd(s[1]) || BodyLength(s[2..]).None? then None else Some(2 + BodyLength(s[2..]).value)
    else if BodyLength(s[1..]).None? then None else Some(1 + BodyLength(s[1..]).value)
  }

  function ScanIndex(s: Text): Option<Option<Text>> {
    if s == [] then Some(None)
    else if NTH <= s && IsIndex(s[|NTH|..]) then Some(Some(s[|NTH|..]))
    else None
  }

  /** The pattern behind the opening quote of the name. */
  function ExecName(role: Text, s: Text): Option<Captures> {
    var n := BodyLength(s);
    if n.None? then None
    else
      var tail := s[n.value + 1..];
      if tail == [] || tail[0] != CLOSE then None
      else
        var index := ScanIndex(tail[1..]);
        if index.None? then None else Some(Captures(role, s[..n.value], index.value))
  }

  /** `LOCATOR.exec`. */
  function Exec(s: Text): Option<Captures> {
    if !(ROLE <= s) then None
    else
      var r := RoleLength(s[|ROLE|..]);
      var role, after := s[|ROLE|..][..r], s[|ROLE|..][r..];
      if !LegalRole(role) || !(NAME + [QUOTE] <= after) then None
      else ExecName(role, after[|NAME| + 1..])
  }

  lemma {:induction false} RoleLengthOf(role: Text, rest: Text)
    requires forall i :: 0 <= i < |role| ==> RoleUnit(role[i])
    requires rest != [] && !RoleUnit(rest[0])
    ensures RoleLength(role + rest) == |role|
  {
    if role != [] {
      RoleLengthOf(role[1..], rest);
      assert (role + rest)[1..] == role[1..] + rest;
    } else {
      assert role + rest == rest;
    }
  }

  /** A literal ends where it ends, whatever follows: literals are prefix-free. */
  lemma {:induction false} BodyLengthOf(body: Text, rest: Text)
    requires IsBody(body)
    ensures BodyLength(body + ([QUOTE] + rest)) == Some(|body|)
  {
    var s := body + ([QUOTE] + rest);
    if body == [] {
      assert s[0] == QUOTE;
    } else if body[0] == BACKSLASH {
      BodyLengthOf(body[2..], rest);
      assert s[2..] == body[2..] + ([QUOTE] + rest);
    } else {
      BodyLengthOf(body[1..], rest);
      assert s[1..] == body[1..] + ([QUOTE] + rest);
    }
  }

  lemma {:induction false} BodyLengthIs(s: Text)
    requires BodyLength(s).Some?
    ensures s[BodyLength(s).value] == QUOTE && IsBody(s[..BodyLength(s).value])
  {
    var n := BodyLength(s).value;
    if s[0] == BACKSLASH {
      BodyLengthIs(s[2..]);
      assert s[..n][2..] == s[2..][..n - 2];
    } else if s[0] != QUOTE {
      BodyLengthIs(s[1..]);
      assert s[..n][1..] == s[1..][..n - 1];
    }
  }

  // ---- the scanner finds the one way to read a locator -----------------------------------

  /** The pieces `Exec` sees of a text that starts like a locator. */
  lemma ExecStart(role: Text, rest: Text)
    requires LegalRole(role)
    ensures var s := ROLE + role + (NAME + [QUOTE] + rest);
            && ROLE <= s
            && RoleLength(s[|ROLE|..]) == |role|
            && s[|ROLE|..][..|role|] == role
            && s[|ROLE|..][|role|..] == NAME + [QUOTE] + rest
            && (NAME + [QUOTE] + rest)[|NAME| + 1..] == rest
  {
    var s := ROLE + role + (NAME + [QUOTE] + rest);
    assert s[|ROLE|..] == role + (NAME + [QUOTE] + rest);
    RoleLengthOf(role, NAME + [QUOTE] + rest);
  }

  /** What the scanner makes of a literal and whatever follows. */
  lemma ExecNameOf(role: Text, body: Text, rest: Text)
    requires IsBody(body)
    ensures ExecName(role, body + ([QUOTE] + rest))
            == if rest == [] || rest[0] != CLOSE then None
               else match ScanIndex(rest[1..])
                 case None => None
                 case Some(index) => Some(Captures(role, body, index))
  {
    var s := body + ([QUOTE] + rest);
    BodyLengthOf(body, rest);
    assert s[..|body|] == body && s[|body| + 1..] == rest;
    hide BodyLength, ScanIndex, IsBody;
  }

  lemma ScanSuffix(index: Option<Text>)
    requires index.Some? ==> IsIndex(index.value)
    ensures ScanIndex(Suffix(index)) == Some(index)
  {
    if index.Some? {
      assert (NTH + index.value)[|NTH|..] == index.value;
    }
  }

  lemma ShowShape(c: Captures)
    ensures c.Show() == ROLE + c.role + (NAME + [QUOTE] + (c.body + ([QUOTE] + ([CLOSE] + Suffix(c.index)))))
  {
  }

  /** A text that has the shape of a locator is read back as just that. */
  lemma ExecShow(c: Captures)
    requires c.Legal()
    ensures Exec(c.Show()) == Some(c)
  {
    ShowShape(c);
    var rest := [CLOSE] + Suffix(c.index);
    ExecStart(c.role, c.body + ([QUOTE] + rest));
    ExecNameOf(c.role, c.body, rest);
    assert rest[1..] == Suffix(c.index);
    ScanSuffix(c.index);
    hide ExecName, RoleLength, Captures.Show, LegalRole, ScanIndex, Suffix;
  }

  lemma ScanIndexSound(s: Text)
    requires ScanIndex(s).Some?
    ensures s == Suffix(ScanIndex(s).value)
    ensures ScanIndex(s).value.Some? ==> IsIndex(ScanIndex(s).value.value)
  {
  }

  lemma {:induction false} ExecNameSound(role: Text, s: Text)
    requires ExecName(role, s).Some?
    ensures var c := ExecName(role, s).value;
            && c.role == role && IsBody(c.body) && (c.index.Some? ==> IsIndex(c.index.value))
            && s == c.body + ([QUOTE] + ([CLOSE] + Suffix(c.index)))
  {
    hide BodyLength, ScanIndex, IsBody, Suffix;
    var n := BodyLength(s).value;
    BodyLengthIs(s);
    ScanIndexSound(s[n + 1..][1..]);
    HeadAndTail(s[n + 1..]);
    BodyAndTail(s, n);
  }

  lemma HeadAndTail(s: Text)
    requires s != []
    ensures s == [s[0]] + s[1..]
  {
  }

  lemma BodyAndTail(s: Text, n: nat)
    requires n < |s|
    ensures s == s[..n] + ([s[n]] + s[n + 1..])
  {
  }

  lemma ExecSound(s: Text)
    requires Exec(s).Some?
    ensures Exec(s).value.Legal() && Exec(s).value.Show() == s
  {
    hide ExecName, RoleLength, LegalRole, Captures.Show, IsBody, Suffix, IsIndex;
    var r := RoleLength(s[|ROLE|..]);
    var role, after := s[|ROLE|..][..r], s[|ROLE|..][r..];
    var behind := after[|NAME| + 1..];
    ExecNameSound(role, behind);
    ShowShape(Exec(s).value);
    assert after == NAME + [QUOTE] + behind;
    assert s == ROLE + role + after;
  }

  /** `LOCATOR.exec` succeeds exactly on the texts of that shape, and there is one reading. */
  lemma ExecDecides(s: Text, c: Captures)
    ensures Exec(s) == Some(c) <==> c.Legal() && c.Show() == s
  {
    if Exec(s) == Some(c) {
      ExecSound(s);
    }
    if c.Legal() && c.Show() == s {
      ExecShow(c);
    }
  }

  // ---- reading and printing ---------------------------------------------------------------

  datatype Parsed = Parsed(role: Text, name: Text, nth: nat)

  function NumberOf(digits: Text): nat
    requires forall i :: 0 <= i < |digits| ==> Digit(digits[i])
  {
    if digits == [] then 0
    else
      var last: int := digits[|digits| - 1];
      assert Digit(digits[|digits| - 1]);
      NumberOf(digits[..|digits| - 1]) * 10 + (last - 48)
  }

  function ParseLocator(s: Text): Option<Parsed> {
    var c := Exec(s);
    if c.None? then None
    else
      ExecSound(s);
      var name := Decode(c.value.body);
      if name.None? then None
      else Some(Parsed(c.value.role, name.value, if c.value.index.Some? then NumberOf(c.value.index.value) else 0))
  }

  function Digits(n: nat): (digits: Text)
    ensures digits != [] && forall i :: 0 <= i < |digits| ==> Digit(digits[i])
  {
    if n < 10 then [48 + n] else Digits(n / 10) + [48 + n % 10]
  }

  /** `name.slice(0, 128)`. */
  function Cut(name: Text): Text {
    if |name| <= MAX_NAME then name else name[..MAX_NAME]
  }

  /** The first 128 code units of a name. */
  ghost predicate IsCut(name: Text, cut: Text) {
    cut <= name && |cut| == if |name| <= 128 then |name| else 128
  }

  lemma {:induction false} CutIsCut(name: Text, cut: Text)
    ensures IsCut(name, cut) <==> cut == Cut(name)
  {
  }

  lemma {:induction false} CutsAreCut(name: Text)
    ensures forall cut :: IsCut(name, cut) <==> cut == Cut(name)
  {
    forall cut
      ensures IsCut(name, cut) <==> cut == Cut(name)
    {
      CutIsCut(name, cut);
    }
  }

  function LocatorBase(role: Text, name: Text): Text {
    Base(role, Quote(Cut(name)))
  }

  function Printed(role: Text, name: Text, duplicates: nat): Text {
    LocatorBase(role, name) + Suffix(if duplicates == 0 then None else Some(Digits(duplicates)))
  }

  /** The code units of a text of the basic plane. */
  function Units(s: string): Text
    requires forall i :: 0 <= i < |s| ==> s[i] as int < 0x10000
  {
    seq(|s|, i requires 0 <= i < |s| => s[i] as int)
  }

  /** A locator, in letters. */
  lemma {:induction false} PrintedIs(role: Text, name: Text, cut: Text, duplicates: nat)
    requires IsCut(name, cut)
    ensures Printed(role, name, duplicates)
            == Units("role=") + role + Units("[name=\"") + Escape(cut) + Units("\"]")
               + (if duplicates == 0 then [] else Units("|nth=") + Digits(duplicates))
  {
    CutIsCut(name, cut);
    Literals();
    hide Escape, Digits, Units;
  }

  lemma Literals()
    ensures Units("role=") == ROLE && Units("[name=\"") == NAME + [QUOTE]
    ensures Units("\"]") == [QUOTE] + [CLOSE] && Units("|nth=") == NTH
  {
  }

  /** A role has 1 to 64 units, none of them a bracket or a bar. */
  lemma {:induction false} LegalRoleIs(role: Text)
    ensures LegalRole(role) <==>
              && 1 <= |role| <= 64
              && forall i :: 0 <= i < |role| ==>
                   role[i] != '[' as int && role[i] != ']' as int && role[i] != '|' as int
  {
  }

  lemma {:induction false} NumberOfDigits(n: nat)
    ensures NumberOf(Digits(n)) == n
  {
    if n >= 10 {
      NumberOfDigits(n / 10);
      assert Digits(n)[..|Digits(n)| - 1] == Digits(n / 10);
    }
  }

  lemma {:induction false} DigitsLength(n: nat)
    ensures n > 0 ==> Digits(n)[0] != 48
    ensures n < 10 ==> |Digits(n)| == 1
    ensures n < 100 ==> |Digits(n)| <= 2
    ensures n < 1000 ==> |Digits(n)| <= 3
    ensures n < 10000 ==> |Digits(n)| <= 4
  {
    if n >= 10 {
      DigitsLength(n / 10);
    }
  }

  lemma {:induction false} NumberBound(digits: Text)
    requires forall i :: 0 <= i < |digits| ==> Digit(digits[i])
    ensures |digits| <= 1 ==> NumberOf(digits) < 10
    ensures |digits| <= 2 ==> NumberOf(digits) < 100
    ensures |digits| <= 3 ==> NumberOf(digits) < 1000
    ensures |digits| <= 4 ==> NumberOf(digits) < 10000
  {
    if digits != [] {
      NumberBound(digits[..|digits| - 1]);
    }
  }

  lemma PlainBody(c: CodeUnit, rest: Text)
    requires c != QUOTE && c != BACKSLASH
    ensures IsBody([c] + rest) == IsBody(rest)
  {
    assert ([c] + rest)[1..] == rest;
  }

  lemma EscapedBody(c: CodeUnit, rest: Text)
    requires !LineEnd(c)
    ensures IsBody([BACKSLASH, c] + rest) == IsBody(rest)
  {
    assert ([BACKSLASH, c] + rest)[2..] == rest;
  }

  lemma HexIsPlain(c: CodeUnit)
    ensures |Hex(c)| == 4 && forall i :: 0 <= i < 4 ==> Hex(c)[i] != QUOTE && Hex(c)[i] != BACKSLASH
  {
  }

  lemma {:induction false} HexBody(c: CodeUnit, rest: Text)
    ensures IsBody(Hex(c) + rest) == IsBody(rest)
  {
    HexIsPlain(c);
    hide IsBody, Hex;
    var a, b, d, e := Hex(c)[0], Hex(c)[1], Hex(c)[2], Hex(c)[3];
    PlainBody(e, rest);
    PlainBody(d, [e] + rest);
    PlainBody(b, [d] + ([e] + rest));
    PlainBody(a, [b] + ([d] + ([e] + rest)));
    assert Hex(c) + rest == [a] + ([b] + ([d] + ([e] + rest)));
  }

  lemma UnitBody(c: CodeUnit, rest: Text)
    ensures IsBody(EscapeUnit(c) + rest) == IsBody(rest)
  {
    if Short(c).Some? {
      EscapedBody(Short(c).value, rest);
    } else if c < 32 || High(c) || Low(c) {
      HexBody(c, rest);
      EscapedBody(117, Hex(c) + rest);
      assert [BACKSLASH, 117] + Hex(c) + rest == [BACKSLASH, 117] + (Hex(c) + rest);
    } else {
      PlainBody(c, rest);
    }
  }

  /** The pattern accepts every literal `JSON.stringify` prints. */
  lemma {:induction false} EscapeIsBody(s: Text)
    ensures IsBody(Escape(s))
  {
    if s == [] {
    } else if |s| > 1 && High(s[0]) && Low(s[1]) {
      EscapeIsBody(s[2..]);
      PlainBody(s[1], Escape(s[2..]));
      PlainBody(s[0], [s[1]] + Escape(s[2..]));
      assert Escape(s) == [s[0]] + ([s[1]] + Escape(s[2..]));
    } else {
      EscapeIsBody(s[1..]);
      UnitBody(s[0], Escape(s[1..]));
    }
  }

  function PrintedCaptures(role: Text, name: Text, duplicates: nat): Captures {
    Captures(role, Escape(Cut(name)), if duplicates == 0 then None else Some(Digits(duplicates)))
  }

  lemma PrintedShows(role: Text, name: Text, duplicates: nat)
    ensures Printed(role, name, duplicates) == PrintedCaptures(role, name, duplicates).Show()
    ensures PrintedCaptures(role, name, duplicates).Legal() <==> LegalRole(role) && duplicates < 10000
  {
    EscapeIsBody(Cut(name));
    DigitsLength(duplicates);
    if duplicates > 0 && IsIndex(Digits(duplicates)) {
      NumberBound(Digits(duplicates));
      NumberOfDigits(duplicates);
    }
  }

  /** A printed locator is read back as what was printed, exactly when its role is one the
      pattern allows and its number has at most four digits. */
  lemma ParsePrinted(role: Text, name: Text, duplicates: nat)
    ensures ParseLocator(Printed(role, name, duplicates)) == Some(Parsed(role, Cut(name), duplicates))
            <==> LegalRole(role) && duplicates < 10000
    ensures forall cut :: IsCut(name, cut) ==>
              (ParseLocator(Printed(role, name, duplicates)) == Some(Parsed(role, cut, duplicates))
               <==> LegalRole(role) && duplicates < 10000)
  {
    CutsAreCut(name);
    var s, c := Printed(role, name, duplicates), PrintedCaptures(role, name, duplicates);
    PrintedShows(role, name, duplicates);
    hide Exec, Captures.Show, IsBody, LegalRole, Escape, Digits, Printed;
    if c.Legal() {
      ExecShow(c);
      DecodeEscape(Cut(name));
      if duplicates > 0 {
        NumberOfDigits(duplicates);
      }
    }
    if Exec(s).Some? {
      ExecSound(s);
      if Exec(s).value.index.Some? {
        NumberBound(Exec(s).value.index.value);
      }
    }
  }

  // ---- numbering ------------------------------------------------------------------------------

  lemma BaseShape(role: Text, name: Text, rest: Text)
    ensures LocatorBase(role, name) + rest
            == ROLE + role + (NAME + [QUOTE] + (Escape(Cut(name)) + ([QUOTE] + ([CLOSE] + rest))))
  {
    hide Escape, Cut;
  }

  lemma BaseThenRest(role: Text, name: Text, rest: Text)
    requires LegalRole(role)
    ensures var read := Exec(LocatorBase(role, name) + rest);
            read.Some? ==> read.value.role == role && read.value.body == Escape(Cut(name))
  {
    hide ExecName, RoleLength, LegalRole, ScanIndex, Escape, LocatorBase, IsBody, Cut;
    var body := Escape(Cut(name));
    EscapeIsBody(Cut(name));
    BaseShape(role, name, rest);
    ExecStart(role, body + ([QUOTE] + ([CLOSE] + rest)));
    ExecNameOf(role, body, [CLOSE] + rest);
  }

  /** Literals are prefix-free, so one base starts another locator only if role and name agree. */
  lemma {:induction false} StartsWithBase(role: Text, name: Text, other: Text, otherName: Text, duplicates: nat)
    requires LegalRole(role) && LegalRole(other) && duplicates < 10000
    ensures LocatorBase(role, name) <= Printed(other, otherName, duplicates)
            <==> role == other && Cut(name) == Cut(otherName)
  {
    hide *;
    if LocatorBase(role, name) <= Printed(other, otherName, duplicates) {
      BaseTells(role, name, other, otherName, duplicates);
    }
    if role == other && Cut(name) == Cut(otherName) {
      OwnBase(role, name, otherName, duplicates);
    }
  }

  lemma {:induction false} BaseTells(role: Text, name: Text, other: Text, otherName: Text, duplicates: nat)
    requires LegalRole(role) && LegalRole(other) && duplicates < 10000
    requires LocatorBase(role, name) <= Printed(other, otherName, duplicates)
    ensures role == other && Cut(name) == Cut(otherName)
  {
    hide Exec, LegalRole, Escape, LocatorBase, Printed, Cut, Captures.Show, Captures.Legal;
    var base, s := LocatorBase(role, name), Printed(other, otherName, duplicates);
    var rest := s[|base|..];
    assert s == base + rest;
    BaseThenRest(role, name, rest);
    PrintedShows(other, otherName, duplicates);
    ExecShow(PrintedCaptures(other, otherName, duplicates));
    DecodeEscape(Cut(name));
    DecodeEscape(Cut(otherName));
  }

  lemma OwnBase(role: Text, name: Text, otherName: Text, duplicates: nat)
    requires Cut(name) == Cut(otherName)
    ensures LocatorBase(role, name) <= Printed(role, otherName, duplicates)
  {
    hide Escape, Cut;
  }

  datatype Node = Node(role: Text, name: Text)

  datatype Element = Element(role: Text, name: Text, locator: Text)

  /** How many elements so far have a locator starting with `base`. */
  function StartingWith(elements: seq<Element>, base: Text): nat {
    if elements == [] then 0
    else StartingWith(elements[..|elements| - 1], base)
         + (if base <= elements[|elements| - 1].locator then 1 else 0)
  }

  /** How many of the nodes have this role and this name after truncation. */
  function Same(nodes: seq<Node>, node: Node): nat {
    if nodes == [] then 0
    else Same(nodes[..|nodes| - 1], node)
         + (if nodes[|nodes| - 1].role == node.role && Cut(nodes[|nodes| - 1].name) == Cut(node.name) then 1 else 0)
  }

  function ShownAs(node: Node, duplicates: nat): Element {
    Element(node.role, node.name, Printed(node.role, node.name, duplicates))
  }

  /** Element `i` shows node `i`, numbered by the earlier locators that start like its own. */
  ghost predicate Listed(nodes: seq<Node>, elements: seq<Element>) {
    && |elements| <= |nodes| && |elements| <= MAX_ELEMENTS
    && forall i :: 0 <= i < |elements| ==>
         elements[i] == ShownAs(nodes[i], StartingWith(elements[..i], LocatorBase(nodes[i].role, nodes[i].name)))
  }

  /** The same, numbered among the earlier nodes of the same role and name. */
  ghost predicate Shown(nodes: seq<Node>, elements: seq<Element>) {
    && |elements| <= |nodes| && |elements| <= MAX_ELEMENTS
    && forall i :: 0 <= i < |elements| ==> elements[i] == ShownAs(nodes[i], Same(nodes[..i], nodes[i]))
  }

  lemma {:induction false} SameBound(nodes: seq<Node>, node: Node)
    ensures Same(nodes, node) <= |nodes|
  {
    if nodes != [] {
      SameBound(nodes[..|nodes| - 1], node);
    }
  }

  /** Counting prefixes counts the earlier nodes of the same role and name. */
  lemma {:induction false} CountsSame(nodes: seq<Node>, elements: seq<Element>, n: nat, node: Node)
    requires Shown(nodes, elements) && n <= |elements| <= |nodes|
    requires LegalRole(node.role) && forall i :: 0 <= i < |nodes| ==> LegalRole(nodes[i].role)
    ensures StartingWith(elements[..n], LocatorBase(node.role, node.name)) == Same(nodes[..n], node)
  {
    hide LegalRole, Printed, LocatorBase, Cut, Shown;
    if n > 0 {
      CountsSame(nodes, elements, n - 1, node);
      ShownNext(nodes, elements, n - 1, node);
      assert elements[..n][..n - 1] == elements[..n - 1] && nodes[..n][..n - 1] == nodes[..n - 1];
    }
  }

  lemma {:induction false} ShownNext(nodes: seq<Node>, elements: seq<Element>, k: nat, node: Node)
    requires Shown(nodes, elements) && k < |elements| <= |nodes|
    requires LegalRole(node.role) && LegalRole(nodes[k].role)
    ensures LocatorBase(node.role, node.name) <= elements[k].locator
            <==> nodes[k].role == node.role && Cut(nodes[k].name) == Cut(node.name)
  {
    hide LegalRole, Printed, LocatorBase, Cut;
    var other := nodes[k];
    SameBound(nodes[..k], other);
    StartsWithBase(node.role, node.name, other.role, other.name, Same(nodes[..k], other));
  }

  lemma {:induction false} ListedIsShown(nodes: seq<Node>, elements: seq<Element>)
    requires Listed(nodes, elements) && forall i :: 0 <= i < |nodes| ==> LegalRole(nodes[i].role)
    ensures Shown(nodes, elements)
  {
    hide LegalRole, Printed, LocatorBase, Cut, ShownAs, StartingWith, Same;
    if elements != [] {
      var front, last := elements[..|elements| - 1], |elements| - 1;
      forall i | 0 <= i < last
        ensures front[i] == elements[i] && front[..i] == elements[..i]
      {
      }
      ListedIsShown(nodes, front);
      CountsSame(nodes, front, last, nodes[last]);
      assert front[..last] == elements[..last];
      assert elements[last] == ShownAs(nodes[last], Same(nodes[..last], nodes[last]));
    }
  }

  /** The loop of `observe` over the nodes it can describe. */
  method Observe(nodes: seq<Node>) returns (elements: seq<Element>)
    ensures Listed(nodes, elements)
    ensures |elements| == if |nodes| < MAX_ELEMENTS then |nodes| else MAX_ELEMENTS
    ensures (forall i :: 0 <= i < |nodes| ==> LegalRole(nodes[i].role)) ==> Shown(nodes, elements)
  {
    hide LegalRole, LocatorBase, Cut, StartingWith, Shown, Digits;
    elements := [];
    for i := 0 to |nodes|
      invariant Listed(nodes, elements)
      invariant |elements| == if i < MAX_ELEMENTS then i else MAX_ELEMENTS
    {
      if |elements| >= MAX_ELEMENTS {
        continue;
      }
      var node := nodes[i];
      var base := LocatorBase(node.role, node.name);
      var duplicates := StartingWith(elements, base);
      var locator := if duplicates > 0 then base + NTH + Digits(duplicates) else base;
      assert locator == Printed(node.role, node.name, duplicates);
      ListedSnoc(nodes, elements, Element(node.role, node.name, locator));
      elements := elements + [Element(node.role, node.name, locator)];
    }
    if forall i :: 0 <= i < |nodes| ==> LegalRole(nodes[i].role) {
      ListedIsShown(nodes, elements);
    }
  }

  lemma ListedSnoc(nodes: seq<Node>, elements: seq<Element>, e: Element)
    requires Listed(nodes, elements) && |elements| < |nodes| && |elements| < MAX_ELEMENTS
    requires var node := nodes[|elements|];
             e == ShownAs(node, StartingWith(elements, LocatorBase(node.role, node.name)))
    ensures Listed(nodes, elements + [e])
  {
    hide LocatorBase, ShownAs, StartingWith;
    var all := elements + [e];
    forall i | 0 <= i < |all|
      ensures all[..i] == elements[..i]
    {
    }
    assert elements[..|elements|] == elements;
  }

  lemma {:induction false} SameGrows(nodes: seq<Node>, node: Node, i: nat, j: nat)
    requires i < j <= |nodes| && nodes[i].role == node.role && Cut(nodes[i].name) == Cut(node.name)
    ensures Same(nodes[..i], node) < Same(nodes[..j], node)
    decreases j
  {
    assert nodes[..j][..j - 1] == nodes[..j - 1];
    if j > i + 1 {
      SameGrows(nodes, node, i, j - 1);
    }
  }

  /** No two elements of one observation share a locator, and each locator is read back as its
      element's role, truncated name and number. */
  lemma LocatorsIdentify(nodes: seq<Node>, elements: seq<Element>)
    requires Shown(nodes, elements) && forall i :: 0 <= i < |nodes| ==> LegalRole(nodes[i].role)
    ensures forall i :: 0 <= i < |elements| ==>
              ParseLocator(elements[i].locator)
              == Some(Parsed(nodes[i].role, Cut(nodes[i].name), Same(nodes[..i], nodes[i])))
    ensures forall i, j :: 0 <= i < j < |elements| ==> elements[i].locator != elements[j].locator
  {
    forall i | 0 <= i < |elements|
      ensures ParseLocator(elements[i].locator)
              == Some(Parsed(nodes[i].role, Cut(nodes[i].name), Same(nodes[..i], nodes[i])))
    {
      hide ParseLocator, Printed, LegalRole, Cut;
      SameBound(nodes[..i], nodes[i]);
      ParsePrinted(nodes[i].role, nodes[i].name, Same(nodes[..i], nodes[i]));
    }
    forall i, j | 0 <= i < j < |elements|
      ensures elements[i].locator != elements[j].locator
    {
      hide ParseLocator, Printed, LegalRole, Cut;
      if elements[i].locator == elements[j].locator {
        assert nodes[i].role == nodes[j].role && Cut(nodes[i].name) == Cut(nodes[j].name);
        SameGrows(nodes, nodes[j], i, j);
        SameDependsOnKey(nodes[..i], nodes[i], nodes[j]);
      }
    }
  }

  lemma {:induction false} SameDependsOnKey(nodes: seq<Node>, a: Node, b: Node)
    requires a.role == b.role && Cut(a.name) == Cut(b.name)
    ensures Same(nodes, a) == Same(nodes, b)
  {
    if nodes != [] {
      SameDependsOnKey(nodes[..|nodes| - 1], a, b);
    }
  }
}
