/**
 Canonicalization of a caller's value: a walk over an object graph, which may share objects
 or be cyclic, that either rejects it or produces a canonical JSON value.
 */
module CanonicalValue {
  import opened Wrappers
  import opened CanonicalJson
  import Sorting

  type Ref = nat

  datatype Number = Integer(n: int) | NegativeZero | NotFinite

  datatype Value =
    | Undefined
    | NullValue
    | Boolean(b: bool)
    | BigInt(n: int)
    | Numeric(number: Number)
    | Textual(s: Text)
    | Object(ref: Ref)
    | Other // a function or a symbol

  /** `hasAccessor`: some own property, enumerable or not, is a getter or setter. */
  datatype Node =
    | DateNode(hasAccessor: bool, iso: Option<Text>)
    | ArrayNode(hasAccessor: bool, elements: seq<Option<Value>>) // None is a hole
    | ObjectNode(plain: bool, hasAccessor: bool, order: seq<Text>, fields: map<Text, Value>)

  type Heap = map<Ref, Node>

  predicate Refers(h: Heap, v: Value) { v.Object? ==> v.ref in h }

  predicate Distinct<T(==)>(s: seq<T>) { forall i, j :: 0 <= i < j < |s| ==> s[i] != s[j] }

  ghost predicate NodeFormed(h: Heap, node: Node) {
    match node
    case DateNode(_, _) => true
    case ArrayNode(_, elements) =>
      forall i :: 0 <= i < |elements| && elements[i].Some? ==> Refers(h, elements[i].value)
    case ObjectNode(_, _, order, fields) =>
      && Distinct(order)
      && (forall k :: k in order <==> k in fields)
      && (forall k :: k in fields ==> Refers(h, fields[k]))
  }

  /** No dangling references; `order` lists exactly the enumerable own keys, in insertion order. */
  ghost predicate Formed(h: Heap) { forall r :: r in h ==> NodeFormed(h, h[r]) }

  /* ---- Sorting keys ---- */

  function KeyOrder(): (Text, Text) -> bool { (a: Text, b: Text) => Less(a, b) }

  function SortKeys(s: seq<Text>): seq<Text> { Sorting.Sort(s, KeyOrder()) }

  predicate IncreasingKeys(s: seq<Text>) { Sorting.Increasing(s, KeyOrder()) }

  lemma SortKeepsElements(s: seq<Text>)
    ensures forall x :: x in SortKeys(s) <==> x in s
  {
    Sorting.SortKeepsElements(s, KeyOrder());
  }

  lemma SortIsIncreasing(s: seq<Text>)
    requires Distinct(s)
    ensures IncreasingKeys(SortKeys(s))
  {
    hide Less;
    forall i, j | 0 <= i < j < |s|
      ensures KeyOrder()(s[i], s[j]) || KeyOrder()(s[j], s[i])
    {
      LessIsTotal(s[i], s[j]);
    }
    Sorting.SortIsIncreasing(s, KeyOrder());
  }

  /** The first of increasing keys is before all the others. */
  lemma {:induction false} FirstIsLeast(s: seq<Text>, k: Text)
    requires s != [] && IncreasingKeys(s) && k in s[1..]
    ensures Less(s[0], k)
  {
    if k != s[1] {
      FirstIsLeast(s[1..], k);
      LessIsTransitive(s[0], s[1], k);
    }
  }

  /* ---- The walk ---- */

  datatype Reason = NonFiniteNumber | InvalidDate | UnsupportedType | Cycle | NotPlain | AccessorProperty

  datatype Canon = Omitted | Value(j: Json) | Rejected(reason: Reason)

  function Elem(element: Option<Value>): Value {
    if element.Some? then element.value else Undefined
  }

  /** `ancestors` are the objects on the path from the root; each step down takes one off the rest. */
  function Canonicalize(h: Heap, v: Value, ancestors: set<Ref>): Canon
    requires Formed(h) && Refers(h, v)
    decreases h.Keys - ancestors, 0, 0
  {
    match v
    case Undefined => Omitted
    case NullValue => Value(Null)
    case Boolean(b) => Value(Bool(b))
    case Textual(s) => Value(Str(s))
    case BigInt(n) => Value(Str(PrintInteger(n)))
    case Numeric(number) =>
      (match number
       case NotFinite => Rejected(NonFiniteNumber)
       case NegativeZero => Value(Num(0))
       case Integer(n) => Value(Num(n)))
    case Other => Rejected(UnsupportedType)
    case Object(r) =>
      var node := h[r];
      if node.DateNode? then
        if node.hasAccessor then Rejected(AccessorProperty)
        else if node.iso.None? then Rejected(InvalidDate)
        else Value(Str(node.iso.value))
      else if r in ancestors then Rejected(Cycle)
      else if node.ArrayNode? then
        if node.hasAccessor then Rejected(AccessorProperty)
        else
          var items := CanonicalizeElements(h, node.elements, ancestors + {r});
          if items.Failure? then Rejected(items.error) else Value(Arr(items.value))
      else if !node.plain then Rejected(NotPlain)
      else if node.hasAccessor then Rejected(AccessorProperty)
      else
        SortKeepsElements(node.order);
        var members := CanonicalizeFields(h, SortKeys(node.order), node.fields, ancestors + {r});
        if members.Failure? then Rejected(members.error) else Value(Obj(members.value))
  }

  /** Elements in order; a hole or undefined element holds its place as null. */
  function CanonicalizeElements(h: Heap, elements: seq<Option<Value>>, ancestors: set<Ref>): Result<Items, Reason>
    requires Formed(h) && forall i :: 0 <= i < |elements| ==> Refers(h, Elem(elements[i]))
    decreases h.Keys - ancestors, 1, |elements|
  {
    if elements == [] then Success(NoItems)
    else
      var first := Canonicalize(h, Elem(elements[0]), ancestors);
      if first.Rejected? then Failure(first.reason)
      else
        var others := CanonicalizeElements(h, elements[1..], ancestors);
        if others.Failure? then others
        else Success(Item(if first.Omitted? then Null else first.j, others.value))
  }

  /** Fields in key order; an undefined field is left out. */
  function CanonicalizeFields(h: Heap, keys: seq<Text>, fields: map<Text, Value>, ancestors: set<Ref>)
    : Result<Members, Reason>
    requires Formed(h) && forall k :: k in keys ==> k in fields && Refers(h, fields[k])
    decreases h.Keys - ancestors, 1, |keys|
  {
    if keys == [] then Success(NoMembers)
    else
      var first := Canonicalize(h, fields[keys[0]], ancestors);
      if first.Rejected? then Failure(first.reason)
      else
        var others := CanonicalizeFields(h, keys[1..], fields, ancestors);
        if others.Failure? || first.Omitted? then others
        else Success(Member(keys[0], first.j, others.value))
  }

  /** The whole printer: the root must be an object, and not an array or a date. */
  function CanonicalText(h: Heap, v: Value): Option<Text>
    requires Formed(h) && Refers(h, v)
  {
    if !v.Object? || h[v.ref].ArrayNode? then None
    else
      var canon := Canonicalize(h, v, {});
      if canon.Value? && canon.j.Obj? then Some(Print(canon.j)) else None
  }

  /* ---- What the walk means ---- */

  /**
   `v` stands for `j`: said without any order of keys, identity of objects or path from a root.
   Recursion is on `j`, so only finite unfoldings stand for anything.
   */
  ghost predicate Denotes(h: Heap, v: Value, j: Json)
    requires Formed(h) && Refers(h, v)
    decreases j
  {
    match v
    case Undefined => false
    case NullValue => j == Null
    case Boolean(b) => j == Bool(b)
    case Textual(s) => j == Str(s)
    case BigInt(n) => j == Str(PrintInteger(n))
    case Numeric(number) =>
      (match number
       case NotFinite => false
       case NegativeZero => j == Num(0)
       case Integer(n) => j == Num(n))
    case Other => false
    case Object(r) =>
      var node := h[r];
      && !node.hasAccessor
      && match node
         case DateNode(_, iso) => iso.Some? && j == Str(iso.value)
         case ArrayNode(_, elements) => j.Arr? && DenotesItems(h, elements, j.items)
         case ObjectNode(plain, _, _, fields) =>
           && plain && j.Obj? && Increasing(j.members)
           && DenotesMembers(h, fields, j.members)
           && (forall k :: k in fields && fields[k] != Undefined ==> Has(j.members, k))
  }

  ghost predicate DenotesItems(h: Heap, elements: seq<Option<Value>>, items: Items)
    requires Formed(h) && forall i :: 0 <= i < |elements| ==> Refers(h, Elem(elements[i]))
    decreases items
  {
    match items
    case NoItems => elements == []
    case Item(head, tail) =>
      && elements != []
      && (if Elem(elements[0]).Undefined? then head == Null else Denotes(h, Elem(elements[0]), head))
      && DenotesItems(h, elements[1..], tail)
  }

  ghost predicate DenotesMembers(h: Heap, fields: map<Text, Value>, m: Members)
    requires Formed(h) && forall k :: k in fields ==> Refers(h, fields[k])
    decreases m
  {
    m.Member? ==> m.key in fields && Denotes(h, fields[m.key], m.value) && DenotesMembers(h, fields, m.rest)
  }

  /* ---- A walk that succeeds produces what the value stands for ---- */

  lemma {:induction false} WalkIsSound(h: Heap, v: Value, ancestors: set<Ref>)
    requires Formed(h) && Refers(h, v)
    ensures Canonicalize(h, v, ancestors).Value? ==> Denotes(h, v, Canonicalize(h, v, ancestors).j)
    ensures Canonicalize(h, v, ancestors).Omitted? <==> v.Undefined?
    decreases h.Keys - ancestors, 0, 0
  {
    hide CanonicalizeElements, CanonicalizeFields, SortKeys, PrintInteger;
    if v.Object? && v.ref !in ancestors {
      var node := h[v.ref];
      if node.ArrayNode? {
        ElementsAreSound(h, node.elements, ancestors + {v.ref});
      } else if node.ObjectNode? {
        SortKeepsElements(node.order);
        SortIsIncreasing(node.order);
        FieldsAreSound(h, SortKeys(node.order), node.fields, ancestors + {v.ref});
      }
    }
  }

  lemma {:induction false} ElementsAreSound(h: Heap, elements: seq<Option<Value>>, ancestors: set<Ref>)
    requires Formed(h) && forall i :: 0 <= i < |elements| ==> Refers(h, Elem(elements[i]))
    ensures var items := CanonicalizeElements(h, elements, ancestors);
      items.Success? ==> DenotesItems(h, elements, items.value)
    decreases h.Keys - ancestors, 1, |elements|
  {
    hide Canonicalize, Denotes;
    if elements != [] {
      WalkIsSound(h, Elem(elements[0]), ancestors);
      ElementsAreSound(h, elements[1..], ancestors);
    }
  }

  lemma {:induction false} FieldsAreSound(h: Heap, keys: seq<Text>, fields: map<Text, Value>, ancestors: set<Ref>)
    requires Formed(h) && forall k :: k in keys ==> k in fields
    requires forall k :: k in fields ==> Refers(h, fields[k])
    requires IncreasingKeys(keys)
    ensures var members := CanonicalizeFields(h, keys, fields, ancestors);
      members.Success? ==>
        && DenotesMembers(h, fields, members.value) && Increasing(members.value)
        && (forall k :: Has(members.value, k) <==> k in keys && fields[k] != Undefined)
    decreases h.Keys - ancestors, 1, |keys|
  {
    hide Canonicalize, Denotes, Less;
    if keys != [] {
      WalkIsSound(h, fields[keys[0]], ancestors);
      FieldsAreSound(h, keys[1..], fields, ancestors);
      assert keys == [keys[0]] + keys[1..];
      var others := CanonicalizeFields(h, keys[1..], fields, ancestors);
      if others.Success? && others.value.Member? {
        assert Has(others.value, others.value.key);
        FirstIsLeast(keys, others.value.key);
      }
    }
  }

  /* ---- A value stands for at most one canonical value ---- */

  lemma {:induction false} MeaningIsUnique(h: Heap, v: Value, j: Json, k: Json)
    requires Formed(h) && Refers(h, v) && Denotes(h, v, j) && Denotes(h, v, k)
    ensures j == k
    decreases j
  {
    hide DenotesItems, DenotesMembers, Increasing, PrintInteger;
    if v.Object? && h[v.ref].ArrayNode? {
      ItemsAreUnique(h, h[v.ref].elements, j.items, k.items);
    } else if v.Object? && h[v.ref].ObjectNode? {
      var fields := h[v.ref].fields;
      SameNames(h, fields, j.members, k.members);
      MembersAreUnique(h, fields, j.members, k.members);
    }
  }

  /** The names in the members a value stands for are exactly its defined fields. */
  lemma {:induction false} DenotedNamesAreFields(h: Heap, fields: map<Text, Value>, m: Members, k: Text)
    requires Formed(h) && (forall x :: x in fields ==> Refers(h, fields[x])) && DenotesMembers(h, fields, m)
    ensures Has(m, k) ==> k in fields && fields[k] != Undefined
  {
    hide Less;
    if m.Member? { DenotedNamesAreFields(h, fields, m.rest, k); }
  }

  lemma SameNames(h: Heap, fields: map<Text, Value>, m: Members, n: Members)
    requires Formed(h) && (forall x :: x in fields ==> Refers(h, fields[x]))
    requires DenotesMembers(h, fields, m) && DenotesMembers(h, fields, n)
    requires forall k :: k in fields && fields[k] != Undefined ==> Has(m, k) && Has(n, k)
    ensures forall k :: Has(m, k) <==> Has(n, k)
  {
    hide Denotes, DenotesMembers, Has;
    forall k
      ensures Has(m, k) <==> Has(n, k)
    {
      DenotedNamesAreFields(h, fields, m, k);
      DenotedNamesAreFields(h, fields, n, k);
    }
  }

  lemma {:induction false} ItemsAreUnique(h: Heap, elements: seq<Option<Value>>, a: Items, b: Items)
    requires Formed(h) && forall i :: 0 <= i < |elements| ==> Refers(h, Elem(elements[i]))
    requires DenotesItems(h, elements, a) && DenotesItems(h, elements, b)
    ensures a == b
    decreases a
  {
    hide Denotes;
    if a.Item? {
      if !Elem(elements[0]).Undefined? { MeaningIsUnique(h, Elem(elements[0]), a.head, b.head); }
      ItemsAreUnique(h, elements[1..], a.tail, b.tail);
    }
  }

  /** A name of increasing members is the first or after it. */
  lemma {:induction false} FirstNameIsLeast(m: Members, k: Text)
    requires m.Member? && Increasing(m) && Has(m, k)
    ensures k == m.key || Less(m.key, k)
  {
    if k != m.key {
      FirstNameIsLeast(m.rest, k);
      if k != m.rest.key { LessIsTransitive(m.key, m.rest.key, k); }
    }
  }

  lemma SameFirstName(m: Members, n: Members)
    requires Increasing(m) && Increasing(n) && forall k :: Has(m, k) <==> Has(n, k)
    ensures m.Member? <==> n.Member?
    ensures m.Member? ==> m.key == n.key
    ensures m.Member? ==> forall k :: Has(m.rest, k) <==> Has(n.rest, k)
  {
    hide Less;
    if m.Member? {
      assert Has(m, m.key) && Has(n, m.key);
      FirstNameIsLeast(n, m.key);
    }
    if n.Member? {
      assert Has(n, n.key) && Has(m, n.key);
      FirstNameIsLeast(m, n.key);
    }
    if m.Member? {
      if m.key != n.key {
        LessIsTransitive(m.key, n.key, m.key);
        LessIsIrreflexive(m.key);
        assert false;
      }
      NotAgain(m);
      NotAgain(n);
      forall k
        ensures Has(m.rest, k) <==> Has(n.rest, k)
      {
        assert Has(m, k) <==> Has(n, k);
      }
    }
  }

  lemma NotAgain(m: Members)
    requires m.Member? && Increasing(m)
    ensures !Has(m.rest, m.key)
  {
    SmallerIsAbsent(m.key, m.rest);
  }

  lemma {:induction false} MembersAreUnique(h: Heap, fields: map<Text, Value>, m: Members, n: Members)
    requires Formed(h) && forall k :: k in fields ==> Refers(h, fields[k])
    requires DenotesMembers(h, fields, m) && DenotesMembers(h, fields, n)
    requires Increasing(m) && Increasing(n) && forall k :: Has(m, k) <==> Has(n, k)
    ensures m == n
    decreases m
  {
    hide Denotes, Has, Less;
    SameFirstName(m, n);
    if m.Member? {
      MeaningIsUnique(h, fields[m.key], m.value, n.value);
      MembersAreUnique(h, fields, m.rest, n.rest);
    }
  }

  /* ---- A walk over a value that stands for something succeeds ---- */

  function Size(j: Json): nat {
    match j
    case Arr(items) => 1 + SizeOfItems(items)
    case Obj(members) => 1 + SizeOfMembers(members)
    case _ => 1
  }

  function SizeOfItems(items: Items): nat {
    if items.NoItems? then 0 else Size(items.head) + SizeOfItems(items.tail)
  }

  function SizeOfMembers(m: Members): nat {
    if m.NoMembers? then 0 else Size(m.value) + SizeOfMembers(m.rest)
  }

  ghost predicate Above(h: Heap, a: Ref, n: nat)
    requires Formed(h) && a in h
  {
    exists k :: Denotes(h, Object(a), k) && Size(k) > n
  }

  /** Every object on the path stands for something larger, so the path cannot close. */
  ghost predicate AllAbove(h: Heap, ancestors: set<Ref>, n: nat)
    requires Formed(h)
  {
    forall a :: a in ancestors ==> a in h && Above(h, a, n)
  }

  lemma AboveOneMore(h: Heap, ancestors: set<Ref>, r: Ref, j: Json)
    requires Formed(h) && r in h && Denotes(h, Object(r), j) && AllAbove(h, ancestors, Size(j))
    ensures r !in ancestors
    ensures forall n: nat :: n < Size(j) ==> AllAbove(h, ancestors + {r}, n)
  {
    hide Denotes, Size;
    if r in ancestors {
      var k :| Denotes(h, Object(r), k) && Size(k) > Size(j);
      MeaningIsUnique(h, Object(r), j, k);
      assert false;
    }
    forall n: nat | n < Size(j)
      ensures AllAbove(h, ancestors + {r}, n)
    {
      assert Above(h, r, n);
      forall a | a in ancestors
        ensures Above(h, a, n)
      {
        var k :| Denotes(h, Object(a), k) && Size(k) > Size(j);
      }
    }
  }

  lemma {:induction false} WalkIsComplete(h: Heap, v: Value, j: Json, ancestors: set<Ref>)
    requires Formed(h) && Refers(h, v) && Denotes(h, v, j) && AllAbove(h, ancestors, Size(j))
    ensures Canonicalize(h, v, ancestors) == Value(j)
    decreases j, 0
  {
    hide DenotesItems, DenotesMembers, CanonicalizeElements, CanonicalizeFields, SortKeys, PrintInteger, AllAbove;
    hide SizeOfItems, SizeOfMembers, Increasing;
    if v.Object? && !h[v.ref].DateNode? {
      AboveOneMore(h, ancestors, v.ref, j);
      if h[v.ref].ArrayNode? {
        ElementsAreComplete(h, h[v.ref].elements, j.items, ancestors + {v.ref});
      } else {
        ObjectIsComplete(h, v.ref, j.members, ancestors + {v.ref});
      }
    }
  }

  lemma AllAboveLess(h: Heap, ancestors: set<Ref>, n: nat, m: nat)
    requires Formed(h) && AllAbove(h, ancestors, n) && m <= n
    ensures AllAbove(h, ancestors, m)
  {
    hide Denotes, Size;
    forall a | a in ancestors
      ensures Above(h, a, m)
    {
      var k :| Denotes(h, Object(a), k) && Size(k) > n;
    }
  }

  lemma {:induction false} ElementsAreComplete(
    h: Heap, elements: seq<Option<Value>>, items: Items, ancestors: set<Ref>)
    requires Formed(h) && forall i :: 0 <= i < |elements| ==> Refers(h, Elem(elements[i]))
    requires DenotesItems(h, elements, items) && AllAbove(h, ancestors, SizeOfItems(items))
    ensures CanonicalizeElements(h, elements, ancestors) == Success(items)
    decreases items, 0
  {
    hide Denotes, Canonicalize, AllAbove;
    if items.Item? {
      AllAboveLess(h, ancestors, SizeOfItems(items), Size(items.head));
      AllAboveLess(h, ancestors, SizeOfItems(items), SizeOfItems(items.tail));
      if !Elem(elements[0]).Undefined? {
        WalkIsComplete(h, Elem(elements[0]), items.head, ancestors);
      } else {
        UndefinedIsOmitted(h, ancestors);
      }
      ElementsAreComplete(h, elements[1..], items.tail, ancestors);
    }
  }

  lemma UndefinedIsOmitted(h: Heap, ancestors: set<Ref>)
    requires Formed(h)
    ensures Canonicalize(h, Undefined, ancestors) == Omitted
  {
  }

  lemma ObjectIsComplete(h: Heap, r: Ref, m: Members, ancestors: set<Ref>)
    requires Formed(h) && r in h && h[r].ObjectNode? && Increasing(m) && DenotesMembers(h, h[r].fields, m)
    requires forall k :: k in h[r].fields && h[r].fields[k] != Undefined ==> Has(m, k)
    requires AllAbove(h, ancestors, SizeOfMembers(m))
    ensures (forall k :: k in SortKeys(h[r].order) ==> k in h[r].fields)
    ensures CanonicalizeFields(h, SortKeys(h[r].order), h[r].fields, ancestors) == Success(m)
    decreases m, 1
  {
    hide Denotes, Canonicalize, AllAbove, DenotesMembers, Increasing, Less, CanonicalizeFields;
    var node := h[r];
    SortKeepsElements(node.order);
    SortIsIncreasing(node.order);
    forall k
      ensures Has(m, k) <==> k in SortKeys(node.order) && node.fields[k] != Undefined
    {
      DenotedNamesAreFields(h, node.fields, m, k);
    }
    FieldsAreComplete(h, SortKeys(node.order), node.fields, m, ancestors);
  }

  /** The first key with a defined field is the first name. */
  lemma FirstKeyIsFirstName(keys: seq<Text>, fields: map<Text, Value>, m: Members)
    requires keys != [] && IncreasingKeys(keys) && Increasing(m)
    requires forall k :: k in keys ==> k in fields
    requires forall k :: Has(m, k) <==> k in keys && fields[k] != Undefined
    ensures fields[keys[0]] != Undefined ==> m.Member? && m.key == keys[0]
    ensures fields[keys[0]] != Undefined ==>
      forall k :: Has(m.rest, k) <==> k in keys[1..] && fields[k] != Undefined
    ensures fields[keys[0]] == Undefined ==>
      forall k :: Has(m, k) <==> k in keys[1..] && fields[k] != Undefined
  {
    hide Less;
    assert keys == [keys[0]] + keys[1..];
    if fields[keys[0]] != Undefined {
      assert Has(m, keys[0]) && Has(m, m.key);
      FirstNameIsLeast(m, keys[0]);
      if m.key != keys[0] {
        FirstIsLeast(keys, m.key);
        LessIsTransitive(m.key, keys[0], m.key);
        LessIsIrreflexive(m.key);
        assert false;
      }
      NotAgain(m);
      NotTwice(keys);
    }
  }

  lemma NotTwice(keys: seq<Text>)
    requires keys != [] && IncreasingKeys(keys)
    ensures keys[0] !in keys[1..]
  {
    if keys[0] in keys[1..] {
      FirstIsLeast(keys, keys[0]);
      LessIsIrreflexive(keys[0]);
    }
  }

  lemma {:induction false} FieldsAreComplete(
    h: Heap, keys: seq<Text>, fields: map<Text, Value>, m: Members, ancestors: set<Ref>)
    requires Formed(h) && forall k :: k in keys ==> k in fields
    requires forall k :: k in fields ==> Refers(h, fields[k])
    requires IncreasingKeys(keys) && Increasing(m) && DenotesMembers(h, fields, m)
    requires forall k :: Has(m, k) <==> k in keys && fields[k] != Undefined
    requires AllAbove(h, ancestors, SizeOfMembers(m))
    ensures CanonicalizeFields(h, keys, fields, ancestors) == Success(m)
    decreases m, 0, |keys|
  {
    hide Denotes, Canonicalize, AllAbove, Less, Has;
    if keys == [] {
      if m.Member? { HasFirst(m); }
    } else {
      FirstKeyIsFirstName(keys, fields, m);
      if fields[keys[0]] == Undefined {
        UndefinedIsOmitted(h, ancestors);
        FieldsAreComplete(h, keys[1..], fields, m, ancestors);
      } else {
        AllAboveLess(h, ancestors, SizeOfMembers(m), Size(m.value));
        AllAboveLess(h, ancestors, SizeOfMembers(m), SizeOfMembers(m.rest));
        WalkIsComplete(h, fields[keys[0]], m.value, ancestors);
        FieldsAreComplete(h, keys[1..], fields, m.rest, ancestors);
      }
    }
  }

  lemma HasFirst(m: Members)
    requires m.Member?
    ensures Has(m, m.key)
  {
  }

  /** The walk yields a value exactly when the root stands for it. */
  lemma WalkYieldsTheMeaning(h: Heap, v: Value, j: Json)
    requires Formed(h) && Refers(h, v)
    ensures Canonicalize(h, v, {}) == Value(j) <==> Denotes(h, v, j)
  {
    hide Canonicalize, Denotes, Size;
    WalkIsSound(h, v, {});
    if Denotes(h, v, j) { WalkIsComplete(h, v, j, {}); }
  }
}
