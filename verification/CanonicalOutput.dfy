/** What canonical texts look like, unit by unit: the order of names, the quoting, and one text in full. */
module CanonicalOutput {
  import opened Wrappers
  import opened CanonicalJson
  import opened CanonicalValue
  import opened CanonicalGraph

  /* ---- The order of names ---- */

  /** At the first place where the texts differ, the first has the smaller code unit, or it has ended there. */
  ghost predicate ByCodeUnits(a: Text, b: Text) {
    || (|a| < |b| && b[..|a|] == a)
    || exists i :: 0 <= i < |a| && i < |b| && a[..i] == b[..i] && a[i] < b[i]
  }

  lemma {:induction false} LessIsByCodeUnits(a: Text, b: Text)
    requires Less(a, b)
    ensures ByCodeUnits(a, b)
  {
    if a == [] {
      assert b[..|a|] == a;
    } else if a[0] < b[0] {
      assert a[..0] == b[..0];
    } else {
      LessIsByCodeUnits(a[1..], b[1..]);
      OneUnitMore(a, b);
    }
  }

  lemma OneUnitMore(a: Text, b: Text)
    requires a != [] && b != [] && a[0] == b[0] && ByCodeUnits(a[1..], b[1..])
    ensures ByCodeUnits(a, b)
  {
    if |a| < |b| && b[1..][..|a| - 1] == a[1..] {
      assert b[..|a|] == [b[0]] + b[1..][..|a| - 1] && a == [a[0]] + a[1..];
    } else {
      var i :| 0 <= i < |a| - 1 && i < |b| - 1 && a[1..][..i] == b[1..][..i] && a[1..][i] < b[1..][i];
      assert a[..i + 1] == [a[0]] + a[1..][..i] && b[..i + 1] == [b[0]] + b[1..][..i];
    }
  }

  lemma {:induction false} NeighboursIncrease(m: Members, i: nat)
    requires Increasing(m) && i + 1 < |Names(m)|
    ensures ByCodeUnits(Names(m)[i], Names(m)[i + 1])
  {
    hide Less, ByCodeUnits;
    if i == 0 {
      LessIsByCodeUnits(m.key, m.rest.key);
    } else {
      NeighboursIncrease(m.rest, i - 1);
    }
  }

  /**
   The text of an accepted object is that of the members it stands for, and their names are in the order
   of their code units: of two neighbours either the first is a proper prefix of the second, or it has the
   smaller unit where they first differ.
   */
  lemma NamesArePrintedInOrder(h: Heap, v: Value, j: Json)
    requires Formed(h) && Refers(h, v) && CanonicalText(h, v).Some? && Denotes(h, v, j)
    ensures j.Obj? && CanonicalText(h, v) == Some([123] + PrintMembers(j.members) + [125])
    ensures forall i: nat :: i + 1 < |Names(j.members)| ==> ByCodeUnits(Names(j.members)[i], Names(j.members)[i + 1])
  {
    hide Canonicalize, Less, ByCodeUnits, PrintMembers, PrintInteger;
    WalkYieldsTheMeaning(h, v, j);
    MeaningIsCanonical(h, v, j);
    forall i: nat | i + 1 < |Names(j.members)|
      ensures ByCodeUnits(Names(j.members)[i], Names(j.members)[i + 1])
    {
      NeighboursIncrease(j.members, i);
    }
  }

  /* ---- Quoting ---- */

  /** The digit of a hexadecimal escape. */
  predicate IsHexOf(u: Unit, d: int) { (0 <= d < 10 && u == 48 + d) || (10 <= d < 16 && u == 97 + (d - 10)) }

  /**
   Quotation marks, backslashes and five control units have short escapes; other control units and
   surrogates without their other half are escaped in lower-case hexadecimal; everything else, surrogate
   pairs included, is printed as it is.
   */
  lemma TextsAreQuotedUnitByUnit(s: Text)
    requires s != []
    ensures if 0xD800 <= s[0] < 0xDC00 && |s| > 1 && 0xDC00 <= s[1] < 0xE000
            then Escaped(s) == [s[0], s[1]] + Escaped(s[2..])
            else exists e :: Escaped(s) == e + Escaped(s[1..]) && QuotedAs(s[0], e)
  {
    hide PrintUnit, QuotedAs;
    if Paired(s) {
      assert s[..2] == [s[0], s[1]];
    } else {
      UnitIsQuoted(s[0]);
      assert Escaped(s) == PrintUnit(s[0]) + Escaped(s[1..]);
    }
  }

  lemma UnitIsQuoted(u: Unit)
    ensures QuotedAs(u, PrintUnit(u))
  {
    hide Hex4, IsHexOf;
    HexIsOfTheUnit(u);
    var e := [BACKSLASH, LETTER_U] + Hex4(u);
    assert e[..2] == [92, 117];
    assert e[2] == Hex4(u)[0] && e[3] == Hex4(u)[1] && e[4] == Hex4(u)[2] && e[5] == Hex4(u)[3];
  }

  predicate QuotedAs(u: Unit, e: Text) {
    if u == 34 then e == [92, 34]
    else if u == 92 then e == [92, 92]
    else if u == 8 then e == [92, 98]
    else if u == 9 then e == [92, 116]
    else if u == 10 then e == [92, 110]
    else if u == 12 then e == [92, 102]
    else if u == 13 then e == [92, 114]
    else if u < 32 || 0xD800 <= u < 0xE000 then
      && |e| == 6 && e[..2] == [92, 117]
      && IsHexOf(e[2], u / 0x1000) && IsHexOf(e[3], u / 0x100 % 16) && IsHexOf(e[4], u / 16 % 16)
      && IsHexOf(e[5], u % 16)
    else e == [u]
  }

  lemma HexIsOfTheUnit(u: Unit)
    ensures var e := Hex4(u);
      && |e| == 4
      && IsHexOf(e[0], u / 0x1000) && IsHexOf(e[1], u / 0x100 % 16) && IsHexOf(e[2], u / 16 % 16)
      && IsHexOf(e[3], u % 16)
  {
    assert u / 16 / 16 == u / 0x100 && u / 16 / 16 / 16 == u / 0x1000;
  }

  /* ---- Numbers ---- */

  /** Decimal digits, the last of them the remainder by ten, after a minus sign if there is one. */
  lemma NumbersArePrintedInDecimal(n: int)
    ensures n < 0 ==> PrintInteger(n) == [45] + PrintInteger(-n)
    ensures 0 <= n < 10 ==> PrintInteger(n) == [48 + n]
    ensures 10 <= n ==> PrintInteger(n) == PrintInteger(n / 10) + [48 + n % 10]
  {
  }

  /* ---- What is read ---- */

  /** White space, digits, hexadecimal digits of either case, and the eight two-character escapes. */
  lemma UnitsRead(u: Unit)
    ensures IsSpace(u) <==> u == 9 || u == 10 || u == 13 || u == 32
    ensures IsDigit(u) <==> 47 < u < 58
    ensures FromHex(u) ==
      if 47 < u < 58 then Some(u - 48)
      else if 64 < u < 71 then Some(u - 55)
      else if 96 < u < 103 then Some(u - 87)
      else None
    ensures Unescape(u).Some? <==>
      u == 34 || u == 92 || u == 47 || u == 98 || u == 102 || u == 110 || u == 114 || u == 116
    ensures u == 34 || u == 92 || u == 47 ==> Unescape(u) == Some(u)
    ensures Unescape(98) == Some(8) && Unescape(102) == Some(12) && Unescape(110) == Some(10)
    ensures Unescape(114) == Some(13) && Unescape(116) == Some(9)
  {
  }

  lemma {:induction false} DigitsAreCounted(s: Text)
    ensures forall i :: 0 <= i < DigitCount(s) ==> 47 < s[i] < 58
    ensures DigitCount(s) < |s| ==> s[DigitCount(s)] <= 47 || 58 <= s[DigitCount(s)]
  {
    if s != [] && IsDigit(s[0]) { DigitsAreCounted(s[1..]); }
  }

  /** A number is read from all its digits, the first zero only alone; no fraction or exponent may follow. */
  lemma NumbersAreReadExactlyWhen(s: Text)
    ensures var n := DigitCount(s);
      ParseNatural(s).Some? <==>
        && n > 0 && (s[0] == 48 ==> n == 1)
        && (n < |s| ==> s[n] != 46 && s[n] != 69 && s[n] != 101)
  {
  }

  /* ---- One text in full ---- */

  const A: Text := [97]
  const B: Text := [98]

  /** An object with the names b, a and c, where c is undefined and b an array of a hole and a negative zero. */
  function Sample(): Heap {
    map[
      0 := ObjectNode(true, false, [B, A, [99]], map[B := Object(1), A := BigInt(-7), [99] := Undefined]),
      1 := ArrayNode(false, [None, Some(Numeric(NegativeZero))])]
  }

  function SampleItems(): Items { Item(Null, Item(Num(0), NoItems)) }

  function SampleMembers(): Members { Member(A, Str([45, 55]), Member(B, Arr(SampleItems()), NoMembers)) }

  lemma SampleIsFormed()
    ensures Formed(Sample())
  {
    assert Distinct([B, A, [99]]);
    forall r | r in Sample()
      ensures NodeFormed(Sample(), Sample()[r])
    {
    }
  }

  lemma SampleArray()
    requires Formed(Sample())
    ensures Denotes(Sample(), Object(1), Arr(SampleItems()))
  {
    hide Print;
    var h, xs := Sample(), Sample()[1].elements;
    assert xs[1..][1..] == [] && DenotesItems(h, xs[1..][1..], NoItems);
    assert DenotesItems(h, xs[1..], Item(Num(0), NoItems));
  }

  lemma SampleObject()
    requires Formed(Sample())
    ensures Denotes(Sample(), Object(0), Obj(SampleMembers()))
  {
    hide DenotesItems;
    SampleArray();
    var h, f, b := Sample(), Sample()[0].fields, Member(B, Arr(SampleItems()), NoMembers);
    assert PrintInteger(-7) == [45, 55];
    assert Less(A, B);
    assert DenotesMembers(h, f, b);
    assert DenotesMembers(h, f, SampleMembers());
    assert Has(b, B) && Has(SampleMembers(), A);
  }

  lemma WordsArePrinted()
    ensures Print(Null) == [110, 117, 108, 108] && Print(Bool(true)) == [116, 114, 117, 101]
    ensures Print(Bool(false)) == [102, 97, 108, 115, 101] && Print(Num(0)) == [48]
  {
  }

  lemma ItemsArePrinted()
    ensures PrintItems(SampleItems()) == [110, 117, 108, 108, 44, 48]
  {
    WordsArePrinted();
    assert PrintItems(Item(Num(0), NoItems)) == [48];
  }

  lemma MembersArePrinted(key: Text, value: Json, rest: Members)
    ensures PrintMembers(Member(key, value, NoMembers)) == PrintString(key) + [58] + Print(value)
    ensures rest.Member? ==>
      PrintMembers(Member(key, value, rest)) == PrintString(key) + [58] + Print(value) + [44] + PrintMembers(rest)
  {
    hide Print, PrintString;
  }

  lemma LastMemberIsPrinted()
    ensures PrintMembers(Member(B, Arr(SampleItems()), NoMembers)) ==
      [34, 98, 34, 58, 91, 110, 117, 108, 108, 44, 48, 93]
  {
    hide PrintString, PrintItems, PrintMembers;
    OneUnitPrints(98);
    ItemsArePrinted();
    assert Print(Arr(SampleItems())) == [91, 110, 117, 108, 108, 44, 48, 93];
    MembersArePrinted(B, Arr(SampleItems()), NoMembers);
  }

  lemma SampleMembersArePrinted()
    ensures PrintMembers(SampleMembers()) ==
      [34, 97, 34, 58, 34, 45, 55, 34, 44, 34, 98, 34, 58, 91, 110, 117, 108, 108, 44, 48, 93]
  {
    hide PrintString, PrintMembers, PrintItems;
    OneUnitPrints(97);
    TwoUnitsPrint();
    assert Print(Str([45, 55])) == [34, 45, 55, 34];
    LastMemberIsPrinted();
    MembersArePrinted(A, Str([45, 55]), Member(B, Arr(SampleItems()), NoMembers));
  }

  lemma OneUnitPrints(u: Unit)
    requires 97 <= u <= 98
    ensures PrintString([u]) == [34, u, 34]
  {
    assert [u][1..] == [] && Escaped([]) == [] && PrintUnit(u) == [u];
    assert Escaped([u]) == [u];
  }

  lemma TwoUnitsPrint()
    ensures PrintString([45, 55]) == [34, 45, 55, 34]
  {
    assert [55][1..] == [] && Escaped([55]) == [55];
    assert [45, 55][1..] == [55] && Escaped([45, 55]) == [45] + Escaped([55]);
  }

  lemma SampleIsPrinted()
    ensures Print(Obj(SampleMembers())) ==
      [123, 34, 97, 34, 58, 34, 45, 55, 34, 44, 34, 98, 34, 58, 91, 110, 117, 108, 108, 44, 48, 93, 125]
  {
    hide PrintMembers, SampleMembers;
    SampleMembersArePrinted();
  }

  /** The text is {"a":"-7","b":[null,0]}: names sorted, the undefined property left out. */
  lemma SampleText()
    ensures Formed(Sample()) && CanonicalText(Sample(), Object(0)) == Some(
      [123, 34, 97, 34, 58, 34, 45, 55, 34, 44, 34, 98, 34, 58, 91, 110, 117, 108, 108, 44, 48, 93, 125])
  {
    hide Canonicalize, Denotes, Print, SampleMembers;
    SampleIsFormed();
    SampleObject();
    SampleIsPrinted();
    WalkYieldsTheMeaning(Sample(), Object(0), Obj(SampleMembers()));
  }
}
