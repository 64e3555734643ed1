/**
 Canonical JSON text. Strings are sequences of UTF-16 code units and numbers are integers.
 The printer sorts nothing itself: it prints canonical values, whose object keys are strictly
 increasing in code-unit order. The parser accepts the grammar of RFC 8259, sections 2 to 7,
 with the last of several members of the same name winning.
 */
module CanonicalJson {
  import opened Wrappers

  type Unit = u: int | 0 <= u < 0x1_0000
  type Text = seq<Unit>

  datatype Json = Null | Bool(b: bool) | Num(n: int) | Str(s: Text) | Arr(items: Items) | Obj(members: Members)
  datatype Items = NoItems | Item(head: Json, tail: Items)
  datatype Members = NoMembers | Member(key: Text, value: Json, rest: Members)

  const QUOTE: Unit := 34
  const BACKSLASH: Unit := 92
  const COMMA: Unit := 44
  const COLON: Unit := 58
  const MINUS: Unit := 45
  const ZERO: Unit := 48
  const OPEN_ARRAY: Unit := 91
  const CLOSE_ARRAY: Unit := 93
  const OPEN_OBJECT: Unit := 123
  const CLOSE_OBJECT: Unit := 125
  const LETTER_U: Unit := 117
  const NULL_TEXT: Text := [110, 117, 108, 108]
  const TRUE_TEXT: Text := [116, 114, 117, 101]
  const FALSE_TEXT: Text := [102, 97, 108, 115, 101]

  /* ---- The order of keys ---- */

  predicate Less(a: Text, b: Text) {
    b != [] && (a == [] || a[0] < b[0] || (a[0] == b[0] && Less(a[1..], b[1..])))
  }

  lemma {:induction false} LessIsTransitive(a: Text, b: Text, c: Text)
    requires Less(a, b) && Less(b, c)
    ensures Less(a, c)
  {
    if a != [] && a[0] == b[0] == c[0] { LessIsTransitive(a[1..], b[1..], c[1..]); }
  }

  lemma {:induction false} LessIsIrreflexive(a: Text)
    ensures !Less(a, a)
  {
    if a != [] { LessIsIrreflexive(a[1..]); }
  }

  lemma {:induction false} LessIsTotal(a: Text, b: Text)
    ensures a == b || Less(a, b) || Less(b, a)
  {
    if a != [] && b != [] && a[0] == b[0] {
      LessIsTotal(a[1..], b[1..]);
      assert a == [a[0]] + a[1..] && b == [b[0]] + b[1..];
    }
  }

  predicate Increasing(m: Members) {
    m.Member? && m.rest.Member? ==> Less(m.key, m.rest.key) && Increasing(m.rest)
  }

  /** Object keys strictly increase, all the way down. */
  predicate Canonical(j: Json) {
    match j
    case Arr(items) => CanonicalItems(items)
    case Obj(members) => Increasing(members) && CanonicalMembers(members)
    case _ => true
  }

  predicate CanonicalItems(items: Items) {
    items.Item? ==> Canonical(items.head) && CanonicalItems(items.tail)
  }

  predicate CanonicalMembers(members: Members) {
    members.Member? ==> Canonical(members.value) && CanonicalMembers(members.rest)
  }

  /* ---- Printing ---- */

  function Digits(n: nat): (t: Text)
    ensures |t| > 0
  {
    if n < 10 then [ZERO + n] else Digits(n / 10) + [ZERO + n % 10]
  }

  function PrintInteger(n: int): Text {
    if n < 0 then [MINUS] + Digits(-n) else Digits(n)
  }

  function HexDigit(d: int): Unit
    requires 0 <= d < 16
  {
    if d < 10 then 48 + d else 87 + d
  }

  function Hex4(u: Unit): Text {
    var a, b := u / 16, u / 16 / 16;
    [HexDigit(b / 16), HexDigit(b % 16), HexDigit(a % 16), HexDigit(u % 16)]
  }

  predicate HighSurrogate(u: Unit) { 0xD800 <= u < 0xDC00 }
  predicate LowSurrogate(u: Unit) { 0xDC00 <= u < 0xE000 }

  /** The two-character escapes the printer uses. */
  function ShortEscape(u: Unit): Option<Unit> {
    if u == QUOTE || u == BACKSLASH then Some(u)
    else if u == 8 then Some(98) else if u == 9 then Some(116) else if u == 10 then Some(110)
    else if u == 12 then Some(102) else if u == 13 then Some(114)
    else None
  }

  predicate Paired(s: Text) {
    |s| > 1 && HighSurrogate(s[0]) && LowSurrogate(s[1])
  }

  /** How the first unit of a text that does not start with a surrogate pair is printed. */
  function PrintUnit(u: Unit): Text {
    if ShortEscape(u).Some? then [BACKSLASH, ShortEscape(u).value]
    else if u < 32 || HighSurrogate(u) || LowSurrogate(u) then [BACKSLASH, LETTER_U] + Hex4(u)
    else [u]
  }

  function Escaped(s: Text): Text {
    if s == [] then []
    else if Paired(s) then s[..2] + Escaped(s[2..])
    else PrintUnit(s[0]) + Escaped(s[1..])
  }

  function PrintString(s: Text): Text {
    [QUOTE] + Escaped(s) + [QUOTE]
  }

  function Print(j: Json): Text {
    match j
    case Null => NULL_TEXT
    case Bool(b) => if b then TRUE_TEXT else FALSE_TEXT
    case Num(n) => PrintInteger(n)
    case Str(s) => PrintString(s)
    case Arr(items) => [OPEN_ARRAY] + PrintItems(items) + [CLOSE_ARRAY]
    case Obj(members) => [OPEN_OBJECT] + PrintMembers(members) + [CLOSE_OBJECT]
  }

  function PrintItems(items: Items): Text {
    match items
    case NoItems => []
    case Item(head, NoItems) => Print(head)
    case Item(head, tail) => Print(head) + [COMMA] + PrintItems(tail)
  }

  function PrintMembers(members: Members): Text {
    match members
    case NoMembers => []
    case Member(key, value, NoMembers) => PrintString(key) + [COLON] + Print(value)
    case Member(key, value, rest) => PrintString(key) + [COLON] + Print(value) + [COMMA] + PrintMembers(rest)
  }

  /* ---- Parsing ---- */

  /** What was read, and the text after it. */
  datatype Read<+T> = Read(value: T, rest: Text)

  predicate IsSpace(u: Unit) { u == 32 || u == 9 || u == 10 || u == 13 }
  predicate IsDigit(u: Unit) { 48 <= u < 58 }

  function Skip(s: Text): (r: Text)
    ensures |r| <= |s|
  {
    if s != [] && IsSpace(s[0]) then Skip(s[1..]) else s
  }

  function DigitCount(s: Text): (n: nat)
    ensures n <= |s|
  {
    if s != [] && IsDigit(s[0]) then 1 + DigitCount(s[1..]) else 0
  }

  function Decimal(digits: Text): int {
    if digits == [] then 0 else Decimal(digits[..|digits| - 1]) * 10 + (digits[|digits| - 1] - ZERO)
  }

  /** One or more digits with no superfluous leading zero, not followed by a fraction or exponent. */
  function ParseNatural(s: Text): (r: Option<Read<int>>)
    ensures r.Some? ==> |r.value.rest| < |s|
  {
    var n := DigitCount(s);
    if n == 0 || (s[0] == ZERO && n > 1) || (n < |s| && s[n] in {46, 69, 101}) then None
    else Some(Read(Decimal(s[..n]), s[n..]))
  }

  function ParseInteger(s: Text): (r: Option<Read<int>>)
    ensures r.Some? ==> |r.value.rest| < |s|
  {
    if s != [] && s[0] == MINUS then
      var r := ParseNatural(s[1..]);
      if r.None? then None else Some(Read(-r.value.value, r.value.rest))
    else ParseNatural(s)
  }

  function FromHex(u: Unit): (d: Option<int>)
    ensures d.Some? ==> 0 <= d.value < 16
  {
    if IsDigit(u) then Some(u - 48)
    else if 97 <= u < 103 then Some(u - 87)
    else if 65 <= u < 71 then Some(u - 55)
    else None
  }

  function FromHex4(s: Text): (r: Option<Unit>)
    requires |s| >= 4
  {
    var a, b, c, d := FromHex(s[0]), FromHex(s[1]), FromHex(s[2]), FromHex(s[3]);
    if a.Some? && b.Some? && c.Some? && d.Some?
    then Some(a.value * 4096 + b.value * 256 + c.value * 16 + d.value)
    else None
  }

  function Unescape(u: Unit): Option<Unit> {
    if u == QUOTE || u == BACKSLASH || u == 47 then Some(u)
    else if u == 98 then Some(8) else if u == 116 then Some(9) else if u == 110 then Some(10)
    else if u == 102 then Some(12) else if u == 114 then Some(13)
    else None
  }

  /** One unit of a string, escaped or not. */
  function ParseUnit(s: Text): (r: Option<Read<Unit>>)
    ensures r.Some? ==> |r.value.rest| < |s|
  {
    if s == [] || s[0] == QUOTE || s[0] < 32 then None
    else if s[0] != BACKSLASH then Some(Read(s[0], s[1..]))
    else if |s| < 2 then None
    else if Unescape(s[1]).Some? then Some(Read(Unescape(s[1]).value, s[2..]))
    else if s[1] == LETTER_U && |s| >= 6 && FromHex4(s[2..]).Some? then Some(Read(FromHex4(s[2..]).value, s[6..]))
    else None
  }

  /** The rest of a string whose opening quotation mark was read. */
  function ParseUnits(s: Text): (r: Option<Read<Text>>)
    ensures r.Some? ==> |r.value.rest| < |s|
    decreases |s|
  {
    if s != [] && s[0] == QUOTE then Some(Read([], s[1..]))
    else
      var first := ParseUnit(s);
      if first.None? then None
      else
        var others := ParseUnits(first.value.rest);
        if others.None? then None
        else Some(Read([first.value.value] + others.value.value, others.value.rest))
  }

  function ParseString(s: Text): (r: Option<Read<Text>>)
    ensures r.Some? ==> |r.value.rest| < |s|
  {
    if s != [] && s[0] == QUOTE then ParseUnits(s[1..]) else None
  }

  predicate Has(m: Members, key: Text) {
    m.Member? && (m.key == key || Has(m.rest, key))
  }

  /** Adds a member whose name is not there yet. */
  function Insert(key: Text, value: Json, m: Members): Members {
    match m
    case NoMembers => Member(key, value, m)
    case Member(k, v, rest) => if Less(key, k) then Member(key, value, m) else Member(k, v, Insert(key, value, rest))
  }

  /** A member read before the members `later`: a later one of the same name wins. */
  function Add(key: Text, value: Json, later: Members): Members {
    if Has(later, key) then later else Insert(key, value, later)
  }

  predicate StartsWith(s: Text, t: Text) { |t| <= |s| && s[..|t|] == t }

  function ParseLiteral(s: Text, t: Text, j: Json): (r: Option<Read<Json>>)
    requires t != []
    ensures r.Some? ==> |r.value.rest| < |s|
  {
    if StartsWith(s, t) then Some(Read(j, s[|t|..])) else None
  }

  /** A value with white space allowed before it. */
  function ParseValue(s: Text): (r: Option<Read<Json>>)
    ensures r.Some? ==> |r.value.rest| < |s|
    decreases |s|, 1
  {
    var t := Skip(s);
    if t == [] then None
    else if t[0] == NULL_TEXT[0] then ParseLiteral(t, NULL_TEXT, Null)
    else if t[0] == TRUE_TEXT[0] then ParseLiteral(t, TRUE_TEXT, Bool(true))
    else if t[0] == FALSE_TEXT[0] then ParseLiteral(t, FALSE_TEXT, Bool(false))
    else if t[0] == QUOTE then
      var r := ParseString(t);
      if r.None? then None else Some(Read(Str(r.value.value), r.value.rest))
    else if t[0] == OPEN_ARRAY then
      var r := ParseArray(t[1..]);
      if r.None? then None else Some(Read(Arr(r.value.value), r.value.rest))
    else if t[0] == OPEN_OBJECT then
      var r := ParseObject(t[1..]);
      if r.None? then None else Some(Read(Obj(r.value.value), r.value.rest))
    else
      var r := ParseInteger(t);
      if r.None? then None else Some(Read(Num(r.value.value), r.value.rest))
  }

  /** The rest of an array whose opening bracket was read. */
  function ParseArray(s: Text): (r: Option<Read<Items>>)
    ensures r.Some? ==> |r.value.rest| < |s|
    decreases |s|, 3
  {
    var t := Skip(s);
    if t != [] && t[0] == CLOSE_ARRAY then Some(Read(NoItems, t[1..])) else ParseItems(s)
  }

  /** One or more values separated by commas, and the closing bracket. */
  function ParseItems(s: Text): (r: Option<Read<Items>>)
    ensures r.Some? ==> |r.value.rest| < |s|
    decreases |s|, 2
  {
    var first := ParseValue(s);
    if first.None? then None
    else
      var t := Skip(first.value.rest);
      if t == [] then None
      else if t[0] == CLOSE_ARRAY then Some(Read(Item(first.value.value, NoItems), t[1..]))
      else if t[0] != COMMA then None
      else
        var others := ParseItems(t[1..]);
        if others.None? then None
        else Some(Read(Item(first.value.value, others.value.value), others.value.rest))
  }

  /** The rest of an object whose opening brace was read. */
  function ParseObject(s: Text): (r: Option<Read<Members>>)
    ensures r.Some? ==> |r.value.rest| < |s|
    decreases |s|, 3
  {
    var t := Skip(s);
    if t != [] && t[0] == CLOSE_OBJECT then Some(Read(NoMembers, t[1..])) else ParseMembers(s)
  }

  /** A name and a colon, with white space allowed before each. */
  function ParseName(s: Text): (r: Option<Read<Text>>)
    ensures r.Some? ==> |r.value.rest| < |s|
  {
    var name := ParseString(Skip(s));
    if name.None? then None
    else
      var t := Skip(name.value.rest);
      if t != [] && t[0] == COLON then Some(Read(name.value.value, t[1..])) else None
  }

  /** One or more members separated by commas, and the closing brace. */
  function ParseMembers(s: Text): (r: Option<Read<Members>>)
    ensures r.Some? ==> |r.value.rest| < |s|
    decreases |s|, 2
  {
    var name := ParseName(s);
    if name.None? then None
    else
      var first := ParseValue(name.value.rest);
      if first.None? then None
      else
        var t := Skip(first.value.rest);
        if t == [] then None
        else if t[0] == CLOSE_OBJECT
        then Some(Read(Member(name.value.value, first.value.value, NoMembers), t[1..]))
        else if t[0] != COMMA then None
        else
          var others := ParseMembers(t[1..]);
          if others.None? then None
          else Some(Read(Add(name.value.value, first.value.value, others.value.value), others.value.rest))
  }

  /** A whole text: one value with white space around it. */
  function Parse(s: Text): Option<Json> {
    var r := ParseValue(s);
    if r.Some? && Skip(r.value.rest) == [] then Some(r.value.value) else None
  }

  /* ---- Strings ---- */

  lemma HexRoundTrip(d: int)
    requires 0 <= d < 16
    ensures FromHex(HexDigit(d)) == Some(d)
  {
  }

  lemma Hex4RoundTrip(u: Unit, rest: Text)
    ensures FromHex4(Hex4(u) + rest) == Some(u)
  {
    hide FromHex, HexDigit;
    var a, b := u / 16, u / 16 / 16;
    HexRoundTrip(b / 16);
    HexRoundTrip(b % 16);
    HexRoundTrip(a % 16);
    HexRoundTrip(u % 16);
    FourDigits(u, a, b);
  }

  lemma FourDigits(u: int, a: int, b: int)
    requires a == u / 16 && b == a / 16
    ensures b / 16 * 4096 + b % 16 * 256 + a % 16 * 16 + u % 16 == u
  {
  }

  lemma UnitRoundTrip(u: Unit, rest: Text)
    ensures ParseUnit(PrintUnit(u) + rest) == Some(Read(u, rest))
  {
    hide Hex4, FromHex4;
    var t := PrintUnit(u) + rest;
    if ShortEscape(u).Some? {
      assert t[2..] == rest;
    } else if u < 32 || HighSurrogate(u) || LowSurrogate(u) {
      assert t[2..] == Hex4(u) + rest;
      Hex4Length(u);
      assert t[6..] == rest;
      Hex4RoundTrip(u, rest);
    } else {
      assert t[1..] == rest;
    }
  }

  lemma Hex4Length(u: Unit)
    ensures |Hex4(u)| == 4
  {
  }

  /** Parsing one unit and then the rest of the string. */
  lemma ParseUnitsStep(t: Text, u: Unit, tail: Text, s: Text, rest: Text)
    requires ParseUnit(t) == Some(Read(u, tail)) && ParseUnits(tail) == Some(Read(s, rest))
    ensures ParseUnits(t) == Some(Read([u] + s, rest))
  {
    hide ParseUnit;
    NoUnitAtQuote(t);
  }

  lemma NoUnitAtQuote(t: Text)
    requires ParseUnit(t).Some?
    ensures t != [] && t[0] != QUOTE
  {
  }

  /** The two halves of a surrogate pair are printed as they are. */
  lemma RawUnit(u: Unit, rest: Text)
    requires u >= 0xD800
    ensures ParseUnit([u] + rest) == Some(Read(u, rest))
  {
    assert ([u] + rest)[1..] == rest;
  }

  /** A surrogate pair in front of a string that reads back. */
  lemma PairInFront(s: Text, tail: Text, rest: Text)
    requires Paired(s) && ParseUnits(tail) == Some(Read(s[2..], rest))
    ensures ParseUnits(s[..2] + tail) == Some(Read(s, rest))
  {
    hide ParseUnit, ParseUnits;
    RawUnit(s[1], tail);
    ParseUnitsStep([s[1]] + tail, s[1], tail, s[2..], rest);
    RawUnit(s[0], [s[1]] + tail);
    ParseUnitsStep([s[0]] + ([s[1]] + tail), s[0], [s[1]] + tail, [s[1]] + s[2..], rest);
    assert s[..2] + tail == [s[0]] + ([s[1]] + tail);
    assert [s[0]] + ([s[1]] + s[2..]) == s;
  }

  /** Any other unit in front of a string that reads back. */
  lemma UnitInFront(s: Text, tail: Text, rest: Text)
    requires s != [] && ParseUnits(tail) == Some(Read(s[1..], rest))
    ensures ParseUnits(PrintUnit(s[0]) + tail) == Some(Read(s, rest))
  {
    hide ParseUnit, ParseUnits, PrintUnit;
    UnitRoundTrip(s[0], tail);
    ParseUnitsStep(PrintUnit(s[0]) + tail, s[0], tail, s[1..], rest);
    assert [s[0]] + s[1..] == s;
  }

  lemma PairStandsInFront(s: Text, rest: Text)
    requires Paired(s)
    ensures Escaped(s) + [QUOTE] + rest == s[..2] + (Escaped(s[2..]) + [QUOTE] + rest)
  {
    hide PrintUnit;
  }

  lemma UnitStandsInFront(s: Text, rest: Text)
    requires s != [] && !Paired(s)
    ensures Escaped(s) + [QUOTE] + rest == PrintUnit(s[0]) + (Escaped(s[1..]) + [QUOTE] + rest)
  {
    hide PrintUnit;
  }

  lemma {:induction false} UnitsRoundTrip(s: Text, rest: Text)
    ensures ParseUnits(Escaped(s) + [QUOTE] + rest) == Some(Read(s, rest))
    decreases |s|
  {
    hide ParseUnit, PrintUnit, ParseUnits, Escaped;
    if s == [] {
      NothingRoundTrip(rest);
    } else if Paired(s) {
      UnitsRoundTrip(s[2..], rest);
      PairInFront(s, Escaped(s[2..]) + [QUOTE] + rest, rest);
      PairStandsInFront(s, rest);
    } else {
      UnitsRoundTrip(s[1..], rest);
      UnitInFront(s, Escaped(s[1..]) + [QUOTE] + rest, rest);
      UnitStandsInFront(s, rest);
    }
  }

  lemma NothingRoundTrip(rest: Text)
    ensures ParseUnits(Escaped([]) + [QUOTE] + rest) == Some(Read([], rest))
  {
    assert (Escaped([]) + [QUOTE] + rest)[1..] == rest;
  }

  lemma StringRoundTrip(s: Text, rest: Text)
    ensures ParseString(PrintString(s) + rest) == Some(Read(s, rest))
  {
    hide ParseUnits, Escaped;
    UnitsRoundTrip(s, rest);
    assert (PrintString(s) + rest)[1..] == Escaped(s) + [QUOTE] + rest;
  }

  /* ---- Numbers ---- */

  /** A number may end here: what follows is no digit, fraction or exponent. */
  predicate Ends(rest: Text) {
    rest != [] ==> !IsDigit(rest[0]) && rest[0] !in {46, 69, 101}
  }

  lemma {:induction false} DigitsRoundTrip(n: nat)
    ensures Decimal(Digits(n)) == n
    ensures forall i :: 0 <= i < |Digits(n)| ==> IsDigit(Digits(n)[i])
    ensures Digits(n)[0] == ZERO ==> n == 0 && |Digits(n)| == 1
  {
    if n >= 10 {
      DigitsRoundTrip(n / 10);
      var t := Digits(n / 10);
      assert Digits(n)[..|t|] == t;
    } else {
      assert Digits(n)[..0] == [];
    }
  }

  lemma {:induction false} DigitCountOf(digits: Text, rest: Text)
    requires forall i :: 0 <= i < |digits| ==> IsDigit(digits[i])
    requires Ends(rest)
    ensures DigitCount(digits + rest) == |digits|
  {
    if digits == [] {
      assert digits + rest == rest;
    } else {
      DigitCountOf(digits[1..], rest);
      assert (digits + rest)[1..] == digits[1..] + rest;
    }
  }

  lemma NaturalRoundTrip(n: nat, rest: Text)
    requires Ends(rest)
    ensures ParseNatural(Digits(n) + rest) == Some(Read(n, rest))
  {
    hide Digits, DigitCount, Decimal;
    var t := Digits(n);
    DigitsRoundTrip(n);
    DigitCountOf(t, rest);
    assert (t + rest)[..|t|] == t && (t + rest)[|t|..] == rest;
  }

  lemma IntegerRoundTrip(n: int, rest: Text)
    requires Ends(rest)
    ensures ParseInteger(PrintInteger(n) + rest) == Some(Read(n, rest))
  {
    hide Digits, ParseNatural;
    if n < 0 {
      NaturalRoundTrip(-n, rest);
      assert ([MINUS] + Digits(-n) + rest)[1..] == Digits(-n) + rest;
    } else {
      DigitsRoundTrip(n);
      NaturalRoundTrip(n, rest);
    }
  }

  /* ---- Values ---- */

  /** The first unit of a printed value. */
  predicate Start(u: Unit) {
    u == QUOTE || u == MINUS || IsDigit(u) || u in {110, 116, 102} || u == OPEN_ARRAY || u == OPEN_OBJECT
  }

  lemma PrintStarts(j: Json)
    ensures |Print(j)| > 0 && Start(Print(j)[0])
    ensures j.Num? ==> Print(j)[0] == MINUS || IsDigit(Print(j)[0])
  {
    hide PrintItems, PrintMembers, Escaped, Digits;
    if j.Num? {
      if j.n < 0 { DigitsRoundTrip(-j.n); } else { DigitsRoundTrip(j.n); }
    }
  }

  lemma SkipsNothing(s: Text)
    requires s != [] && !IsSpace(s[0])
    ensures Skip(s) == s
  {
  }

  lemma NumberRoundTrip(n: int, rest: Text)
    requires Ends(rest)
    ensures ParseValue(PrintInteger(n) + rest) == Some(Read(Num(n), rest))
  {
    hide ParseString, ParseArray, ParseObject, ParseInteger, Digits, ParseLiteral;
    IntegerRoundTrip(n, rest);
    PrintStarts(Num(n));
    var t := PrintInteger(n) + rest;
    assert t[0] == PrintInteger(n)[0];
    SkipsNothing(t);
  }

  lemma LiteralRoundTrip(j: Json, rest: Text)
    requires j.Null? || j.Bool?
    ensures ParseValue(Print(j) + rest) == Some(Read(j, rest))
  {
    hide ParseString, ParseArray, ParseObject, ParseInteger;
    var t := Print(j) + rest;
    SkipsNothing(t);
    assert t[..|Print(j)|] == Print(j) && t[|Print(j)|..] == rest;
  }

  lemma StringValueRoundTrip(s: Text, rest: Text)
    ensures ParseValue(PrintString(s) + rest) == Some(Read(Str(s), rest))
  {
    hide ParseString, ParseArray, ParseObject, ParseInteger, ParseLiteral, Escaped;
    SkipsNothing(PrintString(s) + rest);
    StringRoundTrip(s, rest);
  }

  lemma ArrayValue(items: Items, inner: Text, rest: Text)
    requires ParseArray(inner) == Some(Read(items, rest))
    ensures ParseValue([OPEN_ARRAY] + inner) == Some(Read(Arr(items), rest))
  {
    hide ParseString, ParseArray, ParseObject, ParseInteger, ParseLiteral;
    SkipsNothing([OPEN_ARRAY] + inner);
    assert ([OPEN_ARRAY] + inner)[1..] == inner;
  }

  lemma ObjectValue(members: Members, inner: Text, rest: Text)
    requires ParseObject(inner) == Some(Read(members, rest))
    ensures ParseValue([OPEN_OBJECT] + inner) == Some(Read(Obj(members), rest))
  {
    hide ParseString, ParseArray, ParseObject, ParseInteger, ParseLiteral;
    SkipsNothing([OPEN_OBJECT] + inner);
    assert ([OPEN_OBJECT] + inner)[1..] == inner;
  }

  /** Any text may follow a printed value, as long as it does not prolong a number. */
  lemma {:induction false} ValueRoundTrip(j: Json, rest: Text)
    requires Canonical(j) && Ends(rest)
    ensures ParseValue(Print(j) + rest) == Some(Read(j, rest))
    decreases j, 1
  {
    hide ParseValue, PrintItems, PrintMembers, ParseArray, ParseObject, PrintInteger, PrintString;
    match j
    case Num(n) => NumberRoundTrip(n, rest);
    case Str(s) => StringValueRoundTrip(s, rest);
    case Arr(items) =>
      ArrayRoundTrip(items, rest);
      ArrayValue(items, PrintItems(items) + [CLOSE_ARRAY] + rest, rest);
      assert Print(j) + rest == [OPEN_ARRAY] + (PrintItems(items) + [CLOSE_ARRAY] + rest);
    case Obj(members) =>
      ObjectRoundTrip(members, rest);
      ObjectValue(members, PrintMembers(members) + [CLOSE_OBJECT] + rest, rest);
      assert Print(j) + rest == [OPEN_OBJECT] + (PrintMembers(members) + [CLOSE_OBJECT] + rest);
    case _ => LiteralRoundTrip(j, rest);
  }

  lemma {:induction false} ArrayRoundTrip(items: Items, rest: Text)
    requires CanonicalItems(items)
    ensures ParseArray(PrintItems(items) + [CLOSE_ARRAY] + rest) == Some(Read(items, rest))
    decreases items, 1
  {
    hide ParseItems;
    var t := PrintItems(items) + [CLOSE_ARRAY] + rest;
    if items.NoItems? {
      assert t == [CLOSE_ARRAY] + rest;
      SkipsNothing(t);
      assert t[1..] == rest;
    } else {
      PrintItemsStarts(items);
      assert t[0] == PrintItems(items)[0];
      SkipsNothing(t);
      ItemsRoundTrip(items, rest);
    }
  }

  lemma PrintItemsStarts(items: Items)
    requires items.Item?
    ensures |PrintItems(items)| > 0 && Start(PrintItems(items)[0])
  {
    hide Print, Start;
    PrintStarts(items.head);
  }

  lemma {:induction false} ItemsRoundTrip(items: Items, rest: Text)
    requires CanonicalItems(items) && items.Item?
    ensures ParseItems(PrintItems(items) + [CLOSE_ARRAY] + rest) == Some(Read(items, rest))
    decreases items, 0
  {
    hide ParseValue, Print;
    var t := PrintItems(items) + [CLOSE_ARRAY] + rest;
    if items.tail.NoItems? {
      var after := [CLOSE_ARRAY] + rest;
      ValueRoundTrip(items.head, after);
      assert t == Print(items.head) + after;
      SkipsNothing(after);
      assert after[1..] == rest;
    } else {
      var more := PrintItems(items.tail) + [CLOSE_ARRAY] + rest;
      var after := [COMMA] + more;
      ValueRoundTrip(items.head, after);
      assert t == Print(items.head) + after;
      SkipsNothing(after);
      assert after[1..] == more;
      ItemsRoundTrip(items.tail, rest);
    }
  }

  lemma {:induction false} ObjectRoundTrip(members: Members, rest: Text)
    requires Increasing(members) && CanonicalMembers(members)
    ensures ParseObject(PrintMembers(members) + [CLOSE_OBJECT] + rest) == Some(Read(members, rest))
    decreases members, 1
  {
    hide ParseMembers;
    var t := PrintMembers(members) + [CLOSE_OBJECT] + rest;
    if members.NoMembers? {
      assert t == [CLOSE_OBJECT] + rest;
      SkipsNothing(t);
      assert t[1..] == rest;
    } else {
      assert t[0] == QUOTE;
      SkipsNothing(t);
      MembersRoundTrip(members, rest);
    }
  }

  lemma NameRoundTrip(key: Text, rest: Text)
    ensures ParseName(PrintString(key) + [COLON] + rest) == Some(Read(key, rest))
  {
    hide ParseString, Escaped;
    var after := [COLON] + rest;
    var t := PrintString(key) + after;
    assert PrintString(key) + [COLON] + rest == t;
    SkipsNothing(t);
    StringRoundTrip(key, after);
    SkipsNothing(after);
    assert after[1..] == rest;
  }

  lemma {:induction false} SmallerIsAbsent(key: Text, m: Members)
    requires Increasing(m) && (m.Member? ==> Less(key, m.key))
    ensures !Has(m, key)
  {
    if m.Member? {
      LessIsIrreflexive(key);
      if m.rest.Member? { LessIsTransitive(key, m.key, m.rest.key); }
      SmallerIsAbsent(key, m.rest);
    }
  }

  lemma AddInFront(key: Text, value: Json, m: Members)
    requires Increasing(m) && (m.Member? ==> Less(key, m.key))
    ensures Add(key, value, m) == Member(key, value, m)
  {
    SmallerIsAbsent(key, m);
  }

  lemma {:induction false} MembersRoundTrip(members: Members, rest: Text)
    requires Increasing(members) && CanonicalMembers(members) && members.Member?
    ensures ParseMembers(PrintMembers(members) + [CLOSE_OBJECT] + rest) == Some(Read(members, rest))
    decreases members, 0
  {
    hide ParseValue, Print, ParseName, PrintString, Add, Less;
    var t := PrintMembers(members) + [CLOSE_OBJECT] + rest;
    if members.rest.NoMembers? {
      var after := [CLOSE_OBJECT] + rest;
      ValueRoundTrip(members.value, after);
      NameRoundTrip(members.key, Print(members.value) + after);
      assert t == PrintString(members.key) + [COLON] + (Print(members.value) + after);
      SkipsNothing(after);
      assert after[1..] == rest;
    } else {
      var more := PrintMembers(members.rest) + [CLOSE_OBJECT] + rest;
      var after := [COMMA] + more;
      ValueRoundTrip(members.value, after);
      NameRoundTrip(members.key, Print(members.value) + after);
      assert t == PrintString(members.key) + [COLON] + (Print(members.value) + after);
      SkipsNothing(after);
      assert after[1..] == more;
      MembersRoundTrip(members.rest, rest);
      AddInFront(members.key, members.value, members.rest);
    }
  }

  /* ---- Main results about text ---- */

  /** Parsing the printed text of a canonical value gives the value back. */
  lemma RoundTrip(j: Json)
    requires Canonical(j)
    ensures Parse(Print(j)) == Some(j)
  {
    hide ParseValue, Print;
    ValueRoundTrip(j, []);
    assert Print(j) + [] == Print(j);
  }

  /** Equal canonical texts mean equal values. */
  lemma PrintIsInjective(j: Json, k: Json)
    requires Canonical(j) && Canonical(k) && Print(j) == Print(k)
    ensures j == k
  {
    RoundTrip(j);
    RoundTrip(k);
  }

  /* ---- Every accepted text has one canonical text ---- */

  lemma {:induction false} InsertKeepsIncreasing(key: Text, value: Json, m: Members)
    requires Increasing(m) && !Has(m, key)
    ensures Increasing(Insert(key, value, m))
  {
    if m.Member? && !Less(key, m.key) {
      LessIsTotal(key, m.key);
      InsertKeepsIncreasing(key, value, m.rest);
    }
  }

  lemma {:induction false} InsertKeepsCanonical(key: Text, value: Json, m: Members)
    requires CanonicalMembers(m) && Canonical(value)
    ensures CanonicalMembers(Insert(key, value, m))
  {
    if m.Member? && !Less(key, m.key) { InsertKeepsCanonical(key, value, m.rest); }
  }

  lemma AddKeepsCanonical(key: Text, value: Json, m: Members)
    requires Increasing(m) && CanonicalMembers(m) && Canonical(value)
    ensures Increasing(Add(key, value, m)) && CanonicalMembers(Add(key, value, m))
  {
    hide Insert, Increasing, CanonicalMembers;
    if !Has(m, key) {
      InsertKeepsIncreasing(key, value, m);
      InsertKeepsCanonical(key, value, m);
    }
  }

  lemma {:induction false} ParsedValueIsCanonical(s: Text)
    ensures var r := ParseValue(s); r.Some? ==> Canonical(r.value.value)
    decreases |s|, 1
  {
    hide ParseArray, ParseObject, ParseString, ParseInteger;
    var t := Skip(s);
    if t != [] && t[0] == OPEN_ARRAY {
      ParsedArrayIsCanonical(t[1..]);
    } else if t != [] && t[0] == OPEN_OBJECT {
      ParsedObjectIsCanonical(t[1..]);
    }
  }

  lemma {:induction false} ParsedArrayIsCanonical(s: Text)
    ensures var r := ParseArray(s); r.Some? ==> CanonicalItems(r.value.value)
    decreases |s|, 3
  {
    hide ParseItems;
    ParsedItemsAreCanonical(s);
  }

  lemma {:induction false} ParsedItemsAreCanonical(s: Text)
    ensures var r := ParseItems(s); r.Some? ==> CanonicalItems(r.value.value)
    decreases |s|, 2
  {
    hide ParseValue;
    ParsedValueIsCanonical(s);
    var first := ParseValue(s);
    if first.Some? {
      var t := Skip(first.value.rest);
      if t != [] && t[0] == COMMA { ParsedItemsAreCanonical(t[1..]); }
    }
  }

  lemma {:induction false} ParsedObjectIsCanonical(s: Text)
    ensures var r := ParseObject(s); r.Some? ==> Increasing(r.value.value) && CanonicalMembers(r.value.value)
    decreases |s|, 3
  {
    hide ParseMembers;
    ParsedMembersAreCanonical(s);
  }

  lemma {:induction false} ParsedMembersAreCanonical(s: Text)
    ensures var r := ParseMembers(s); r.Some? ==> Increasing(r.value.value) && CanonicalMembers(r.value.value)
    decreases |s|, 2
  {
    hide ParseValue, ParseName, Add;
    var name := ParseName(s);
    if name.Some? {
      ParsedValueIsCanonical(name.value.rest);
      var first := ParseValue(name.value.rest);
      if first.Some? {
        var t := Skip(first.value.rest);
        if t != [] && t[0] == COMMA {
          ParsedMembersAreCanonical(t[1..]);
          var others := ParseMembers(t[1..]);
          if others.Some? { AddKeepsCanonical(name.value.value, first.value.value, others.value.value); }
        }
      }
    }
  }

  /** The canonical text of any JSON text, whatever its white space, escapes and member order. */
  function Normalize(s: Text): Option<Text> {
    var j := Parse(s);
    if j.Some? then Some(Print(j.value)) else None
  }

  /** Normalizing keeps the value, and normalizing again changes nothing. */
  lemma NormalizeIsIdempotent(s: Text)
    requires Parse(s).Some?
    ensures Canonical(Parse(s).value)
    ensures Parse(Normalize(s).value) == Parse(s)
    ensures Normalize(Normalize(s).value) == Normalize(s)
  {
    hide ParseValue, Print;
    ParsedValueIsCanonical(s);
    RoundTrip(Parse(s).value);
  }
}
