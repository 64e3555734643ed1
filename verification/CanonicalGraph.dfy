/**
 What canonicalization accepts and what it ignores: it succeeds exactly on well-made acyclic
 graphs, however much they share, and the order of keys, undefined properties and holes never
 show in the text.
 */
module CanonicalGraph {
  import opened Wrappers
  import opened CanonicalJson
  import opened CanonicalValue

  /* ---- Acceptance ---- */

  ghost predicate Edge(h: Heap, r: Ref, c: Ref)
    requires r in h
  {
    match h[r]
    case DateNode(_, _) => false
    case ArrayNode(_, elements) => Some(Object(c)) in elements
    case ObjectNode(_, _, _, fields) => exists k :: k in fields && fields[k] == Object(c)
  }

  predicate LeafFine(v: Value) {
    !v.Other? && (v.Numeric? ==> !v.number.NotFinite?)
  }

  /** An object with nothing wrong in itself, whatever it refers to. */
  ghost predicate Fine(h: Heap, r: Ref)
    requires r in h
  {
    && !h[r].hasAccessor
    && match h[r]
       case DateNode(_, iso) => iso.Some?
       case ArrayNode(_, elements) => forall i :: 0 <= i < |elements| ==> LeafFine(Elem(elements[i]))
       case ObjectNode(plain, _, _, fields) => plain && forall k :: k in fields ==> LeafFine(fields[k])
  }

  ghost predicate Path(h: Heap, p: seq<Ref>) {
    && p != []
    && (forall i :: 0 <= i < |p| ==> p[i] in h)
    && (forall i :: 0 < i < |p| ==> Edge(h, p[i - 1], p[i]))
  }

  /** The path meets no object twice, none of the given ancestors, and nothing wrong. */
  ghost predicate Clean(h: Heap, p: seq<Ref>, ancestors: set<Ref>) {
    Distinct(p) && forall i :: 0 <= i < |p| ==> p[i] in h && Fine(h, p[i]) && p[i] !in ancestors
  }

  ghost predicate AllClean(h: Heap, v: Value, ancestors: set<Ref>) {
    && LeafFine(v)
    && (v.Object? ==> forall p :: Path(h, p) && p[0] == v.ref ==> Clean(h, p, ancestors))
  }

  ghost predicate NoDates(h: Heap, ancestors: set<Ref>) {
    forall a :: a in ancestors ==> a in h && !h[a].DateNode?
  }

  /* Accepted values have only clean paths. */

  lemma {:induction false} ElementAccepted(h: Heap, elements: seq<Option<Value>>, ancestors: set<Ref>, i: nat)
    requires Formed(h) && forall x :: 0 <= x < |elements| ==> Refers(h, Elem(elements[x]))
    requires CanonicalizeElements(h, elements, ancestors).Success? && i < |elements|
    ensures !Canonicalize(h, Elem(elements[i]), ancestors).Rejected?
    decreases i
  {
    hide Canonicalize;
    if i > 0 { ElementAccepted(h, elements[1..], ancestors, i - 1); }
  }

  lemma {:induction false} FieldAccepted(
    h: Heap, keys: seq<Text>, fields: map<Text, Value>, ancestors: set<Ref>, k: Text)
    requires Formed(h) && forall x :: x in keys ==> x in fields && Refers(h, fields[x])
    requires CanonicalizeFields(h, keys, fields, ancestors).Success? && k in keys
    ensures !Canonicalize(h, fields[k], ancestors).Rejected?
    decreases |keys|
  {
    hide Canonicalize;
    if k != keys[0] { FieldAccepted(h, keys[1..], fields, ancestors, k); }
  }

  lemma AcceptedIsFine(h: Heap, r: Ref, ancestors: set<Ref>)
    requires Formed(h) && r in h && !Canonicalize(h, Object(r), ancestors).Rejected? && NoDates(h, ancestors)
    ensures Fine(h, r) && r !in ancestors
  {
    hide CanonicalizeElements, CanonicalizeFields, SortKeys;
    var node := h[r];
    if node.ArrayNode? {
      forall i | 0 <= i < |node.elements|
        ensures LeafFine(Elem(node.elements[i]))
      {
        ElementAccepted(h, node.elements, ancestors + {r}, i);
      }
    } else if node.ObjectNode? {
      SortKeepsElements(node.order);
      forall k | k in node.fields
        ensures LeafFine(node.fields[k])
      {
        FieldAccepted(h, SortKeys(node.order), node.fields, ancestors + {r}, k);
      }
    }
  }

  lemma ChildAccepted(h: Heap, r: Ref, c: Ref, ancestors: set<Ref>)
    requires Formed(h) && r in h && c in h && Edge(h, r, c)
    requires !Canonicalize(h, Object(r), ancestors).Rejected?
    ensures !Canonicalize(h, Object(c), ancestors + {r}).Rejected? && !h[r].DateNode?
  {
    hide CanonicalizeElements, CanonicalizeFields, SortKeys;
    var node := h[r];
    if node.ArrayNode? {
      var i :| 0 <= i < |node.elements| && node.elements[i] == Some(Object(c));
      ElementAccepted(h, node.elements, ancestors + {r}, i);
    } else if node.ObjectNode? {
      SortKeepsElements(node.order);
      var k :| k in node.fields && node.fields[k] == Object(c);
      FieldAccepted(h, SortKeys(node.order), node.fields, ancestors + {r}, k);
    }
  }

  lemma {:induction false} AcceptedPathIsClean(h: Heap, p: seq<Ref>, ancestors: set<Ref>)
    requires Formed(h) && Path(h, p) && NoDates(h, ancestors)
    requires !Canonicalize(h, Object(p[0]), ancestors).Rejected?
    ensures Clean(h, p, ancestors)
    decreases |p|
  {
    hide Canonicalize, Fine, Edge;
    AcceptedIsFine(h, p[0], ancestors);
    if |p| > 1 {
      var q := p[1..];
      assert Edge(h, p[0], p[1]);
      ChildAccepted(h, p[0], p[1], ancestors);
      TailIsPath(h, p);
      AcceptedPathIsClean(h, q, ancestors + {p[0]});
      CleanTail(h, p, ancestors);
    }
  }

  lemma TailIsPath(h: Heap, p: seq<Ref>)
    requires Path(h, p) && |p| > 1
    ensures Path(h, p[1..])
  {
    hide Edge;
    var q := p[1..];
    forall i | 0 < i < |q|
      ensures Edge(h, q[i - 1], q[i])
    {
      assert Edge(h, p[i + 1 - 1], p[i + 1]);
    }
  }

  lemma CleanTail(h: Heap, p: seq<Ref>, ancestors: set<Ref>)
    requires p != [] && p[0] in h && Fine(h, p[0]) && p[0] !in ancestors
    requires Clean(h, p[1..], ancestors + {p[0]})
    ensures Clean(h, p, ancestors)
  {
    hide Fine;
    forall i | 0 < i < |p|
      ensures p[i] in h && Fine(h, p[i]) && p[i] !in ancestors && p[i] != p[0]
    {
      assert p[i] == p[1..][i - 1];
    }
    forall i, j | 0 <= i < j < |p|
      ensures p[i] != p[j]
    {
      if i > 0 { assert p[i] == p[1..][i - 1] && p[j] == p[1..][j - 1]; }
    }
  }

  /* Values with only clean paths are accepted. */

  lemma ChildIsClean(h: Heap, r: Ref, v: Value, ancestors: set<Ref>)
    requires Formed(h) && r in h && AllClean(h, Object(r), ancestors)
    requires LeafFine(v) && (v.Object? ==> v.ref in h && Edge(h, r, v.ref))
    ensures AllClean(h, v, ancestors + {r})
  {
    hide Fine, Edge, LeafFine;
    if v.Object? {
      forall q | Path(h, q) && q[0] == v.ref
        ensures Clean(h, q, ancestors + {r})
      {
        var p := [r] + q;
        LongerPath(h, r, q);
        assert Clean(h, p, ancestors);
        forall i | 0 <= i < |q|
          ensures q[i] in h && Fine(h, q[i]) && q[i] !in ancestors + {r}
        {
          assert q[i] == p[i + 1] && p[0] != p[i + 1];
        }
        forall i, j | 0 <= i < j < |q|
          ensures q[i] != q[j]
        {
          assert q[i] == p[i + 1] && q[j] == p[j + 1];
        }
      }
    }
  }

  lemma LongerPath(h: Heap, r: Ref, q: seq<Ref>)
    requires r in h && Path(h, q) && Edge(h, r, q[0])
    ensures Path(h, [r] + q)
  {
    hide Edge;
    var p := [r] + q;
    forall i | 0 < i < |p|
      ensures Edge(h, p[i - 1], p[i])
    {
      if i > 1 { assert Edge(h, q[i - 1 - 1], q[i - 1]); }
    }
  }

  lemma {:induction false} CleanIsAccepted(h: Heap, v: Value, ancestors: set<Ref>)
    requires Formed(h) && Refers(h, v) && AllClean(h, v, ancestors)
    ensures !Canonicalize(h, v, ancestors).Rejected?
    decreases h.Keys - ancestors, 0, 0
  {
    hide CanonicalizeElements, CanonicalizeFields, SortKeys, AllClean;
    assert LeafFine(v) by { AllCleanMeans(h, v, ancestors); }
    if v.Object? {
      AllCleanMeans(h, v, ancestors);
      var node := h[v.ref];
      if node.ArrayNode? {
        forall i | 0 <= i < |node.elements|
          ensures AllClean(h, Elem(node.elements[i]), ancestors + {v.ref})
        {
          ChildIsClean(h, v.ref, Elem(node.elements[i]), ancestors);
        }
        CleanElementsAreAccepted(h, node.elements, ancestors + {v.ref});
      } else if node.ObjectNode? {
        SortKeepsElements(node.order);
        forall k | k in node.fields
          ensures AllClean(h, node.fields[k], ancestors + {v.ref})
        {
          ChildIsClean(h, v.ref, node.fields[k], ancestors);
        }
        CleanFieldsAreAccepted(h, SortKeys(node.order), node.fields, ancestors + {v.ref});
      }
    }
  }

  lemma AllCleanMeans(h: Heap, v: Value, ancestors: set<Ref>)
    requires AllClean(h, v, ancestors) && Refers(h, v)
    ensures LeafFine(v)
    ensures v.Object? ==> Fine(h, v.ref) && v.ref !in ancestors
  {
    hide Fine, LeafFine;
    if v.Object? {
      var p := [v.ref];
      assert Path(h, p);
      assert Clean(h, p, ancestors);
      assert p[0] == v.ref;
    }
  }

  lemma {:induction false} CleanElementsAreAccepted(h: Heap, elements: seq<Option<Value>>, ancestors: set<Ref>)
    requires Formed(h) && forall i :: 0 <= i < |elements| ==> Refers(h, Elem(elements[i]))
    requires forall i :: 0 <= i < |elements| ==> AllClean(h, Elem(elements[i]), ancestors)
    ensures CanonicalizeElements(h, elements, ancestors).Success?
    decreases h.Keys - ancestors, 1, |elements|
  {
    hide Canonicalize, AllClean;
    if elements != [] {
      CleanIsAccepted(h, Elem(elements[0]), ancestors);
      CleanElementsAreAccepted(h, elements[1..], ancestors);
    }
  }

  lemma {:induction false} CleanFieldsAreAccepted(
    h: Heap, keys: seq<Text>, fields: map<Text, Value>, ancestors: set<Ref>)
    requires Formed(h) && forall k :: k in keys ==> k in fields && Refers(h, fields[k])
    requires forall k :: k in keys ==> AllClean(h, fields[k], ancestors)
    ensures CanonicalizeFields(h, keys, fields, ancestors).Success?
    decreases h.Keys - ancestors, 1, |keys|
  {
    hide Canonicalize, AllClean;
    if keys != [] {
      CleanIsAccepted(h, fields[keys[0]], ancestors);
      CleanFieldsAreAccepted(h, keys[1..], fields, ancestors);
    }
  }

  /**
   Canonicalization accepts a value exactly when no path from it meets the same object twice and
   every object it reaches is well made: cycles are rejected, sharing is not.
   */
  lemma AcceptsExactlyAcyclicGraphs(h: Heap, v: Value)
    requires Formed(h) && Refers(h, v)
    ensures !Canonicalize(h, v, {}).Rejected? <==> AllClean(h, v, {})
  {
    hide Canonicalize, Clean;
    if !Canonicalize(h, v, {}).Rejected? {
      if !LeafFine(v) { RejectsBadLeaf(h, v); }
      if v.Object? {
        forall p | Path(h, p) && p[0] == v.ref
          ensures Clean(h, p, {})
        {
          AcceptedPathIsClean(h, p, {});
        }
      }
    }
    if AllClean(h, v, {}) { CleanIsAccepted(h, v, {}); }
  }

  lemma RejectsBadLeaf(h: Heap, v: Value)
    requires Formed(h) && Refers(h, v) && !LeafFine(v)
    ensures Canonicalize(h, v, {}).Rejected?
  {
  }

  /* ---- What does not show in the text ---- */

  ghost predicate SimilarNode(a: Node, b: Node) {
    match (a, b)
    case (DateNode(p, iso), DateNode(q, iso')) => p == q && iso == iso'
    case (ArrayNode(p, xs), ArrayNode(q, ys)) =>
      p == q && |xs| == |ys| && forall i :: 0 <= i < |xs| ==> Elem(xs[i]) == Elem(ys[i])
    case (ObjectNode(plain, p, _, f), ObjectNode(plain', q, _, g)) =>
      && plain == plain' && p == q
      && (forall k :: k in f && f[k] != Undefined ==> k in g && f[k] == g[k])
      && (forall k :: k in g && g[k] != Undefined ==> k in f && f[k] == g[k])
    case _ => false
  }

  /** Two heaps that differ only in the order of keys, in undefined properties, and in holes for undefined elements. */
  ghost predicate Similar(h: Heap, g: Heap) {
    h.Keys == g.Keys && forall r :: r in h ==> SimilarNode(h[r], g[r])
  }

  lemma {:induction false} SimilarMeaning(h: Heap, g: Heap, v: Value, j: Json)
    requires Formed(h) && Formed(g) && Similar(h, g) && Refers(h, v) && Denotes(h, v, j)
    ensures Denotes(g, v, j)
    decreases j
  {
    hide DenotesItems, DenotesMembers, Increasing, PrintInteger;
    if v.Object? {
      assert SimilarNode(h[v.ref], g[v.ref]);
      match h[v.ref]
      case DateNode(_, _) =>
      case ArrayNode(_, elements) => SimilarItems(h, g, elements, g[v.ref].elements, j.items);
      case ObjectNode(_, _, _, fields) => SimilarMembers(h, g, fields, g[v.ref].fields, j.members);
    }
  }

  lemma {:induction false} SimilarItems(
    h: Heap, g: Heap, xs: seq<Option<Value>>, ys: seq<Option<Value>>, items: Items)
    requires Formed(h) && Formed(g) && Similar(h, g)
    requires |xs| == |ys| && forall i :: 0 <= i < |xs| ==> Refers(h, Elem(xs[i])) && Elem(xs[i]) == Elem(ys[i])
    requires DenotesItems(h, xs, items)
    ensures DenotesItems(g, ys, items)
    decreases items
  {
    hide Denotes, Similar;
    assert h.Keys == g.Keys by { SimilarKeys(h, g); }
    if items.Item? {
      if !Elem(xs[0]).Undefined? { SimilarMeaning(h, g, Elem(xs[0]), items.head); }
      SimilarItems(h, g, xs[1..], ys[1..], items.tail);
    }
  }

  lemma SimilarKeys(h: Heap, g: Heap)
    requires Similar(h, g)
    ensures h.Keys == g.Keys
  {
  }

  lemma {:induction false} SimilarMembers(
    h: Heap, g: Heap, f: map<Text, Value>, f': map<Text, Value>, m: Members)
    requires Formed(h) && Formed(g) && Similar(h, g)
    requires forall k :: k in f ==> Refers(h, f[k])
    requires forall k :: k in f' ==> Refers(g, f'[k])
    requires forall k :: k in f && f[k] != Undefined ==> k in f' && f[k] == f'[k]
    requires DenotesMembers(h, f, m)
    ensures DenotesMembers(g, f', m)
    decreases m
  {
    hide Similar, SimilarNode;
    if m.Member? {
      SimilarMeaning(h, g, f[m.key], m.value);
      SimilarMembers(h, g, f, f', m.rest);
    }
  }

  lemma SimilarIsSymmetric(h: Heap, g: Heap)
    requires Similar(h, g)
    ensures Similar(g, h)
  {
    hide Elem;
    forall r | r in g
      ensures SimilarNode(g[r], h[r])
    {
      assert SimilarNode(h[r], g[r]);
    }
  }

  lemma SimilarTextGiven(h: Heap, g: Heap, v: Value)
    requires Formed(h) && Formed(g) && Similar(h, g) && Refers(h, v)
    requires CanonicalText(h, v).Some?
    ensures Refers(g, v) && CanonicalText(g, v) == CanonicalText(h, v)
  {
    hide Canonicalize, Denotes, Print;
    var j := Canonicalize(h, v, {}).j;
    assert SimilarNode(h[v.ref], g[v.ref]);
    WalkYieldsTheMeaning(h, v, j);
    SimilarMeaning(h, g, v, j);
    WalkYieldsTheMeaning(g, v, j);
  }

  /** The order of keys, undefined properties and holes never change the canonical text. */
  lemma OnlyTheMeaningShows(h: Heap, g: Heap, v: Value)
    requires Formed(h) && Formed(g) && Similar(h, g) && Refers(h, v)
    ensures Refers(g, v) && CanonicalText(h, v) == CanonicalText(g, v)
  {
    hide CanonicalText, SimilarNode;
    SimilarIsSymmetric(h, g);
    if CanonicalText(h, v).Some? {
      SimilarTextGiven(h, g, v);
    } else if CanonicalText(g, v).Some? {
      SimilarTextGiven(g, h, v);
    }
  }

  /* ---- Building the value of a text, and normalizing twice ---- */

  /** A heap with the objects JSON.parse makes for a value; `next` is the first unused reference. */
  datatype Built<T> = Built(heap: Heap, next: Ref, made: T)

  function Build(h: Heap, next: Ref, j: Json): Built<Value>
    decreases j
  {
    match j
    case Null => Built(h, next, NullValue)
    case Bool(b) => Built(h, next, Boolean(b))
    case Num(n) => Built(h, next, Numeric(Integer(n)))
    case Str(s) => Built(h, next, Textual(s))
    case Arr(items) =>
      var parts := BuildItems(h, next, items);
      Built(parts.heap[parts.next := ArrayNode(false, parts.made)], parts.next + 1, Object(parts.next))
    case Obj(members) =>
      var parts := BuildMembers(h, next, members);
      Built(parts.heap[parts.next := ObjectNode(true, false, Names(members), parts.made)],
            parts.next + 1, Object(parts.next))
  }

  function BuildItems(h: Heap, next: Ref, items: Items): Built<seq<Option<Value>>>
    decreases items
  {
    match items
    case NoItems => Built(h, next, [])
    case Item(head, tail) =>
      var first := Build(h, next, head);
      var others := BuildItems(first.heap, first.next, tail);
      Built(others.heap, others.next, [Some(first.made)] + others.made)
  }

  function BuildMembers(h: Heap, next: Ref, m: Members): Built<map<Text, Value>>
    decreases m
  {
    match m
    case NoMembers => Built(h, next, map[])
    case Member(key, value, rest) =>
      var first := Build(h, next, value);
      var others := BuildMembers(first.heap, first.next, rest);
      Built(others.heap, others.next, others.made[key := first.made])
  }

  function Names(m: Members): seq<Text> {
    if m.NoMembers? then [] else [m.key] + Names(m.rest)
  }

  /** Every used reference is below `next`. */
  ghost predicate Below(h: Heap, next: Ref) {
    Formed(h) && forall r :: r in h ==> r < next
  }

  ghost predicate Extends(g: Heap, h: Heap) {
    forall r :: r in h ==> r in g && g[r] == h[r]
  }

  lemma {:induction false} MeaningExtends(h: Heap, g: Heap, v: Value, j: Json)
    requires Formed(h) && Formed(g) && Extends(g, h) && Refers(h, v) && Denotes(h, v, j)
    ensures Refers(g, v) && Denotes(g, v, j)
    decreases j
  {
    hide DenotesItems, DenotesMembers, Increasing, PrintInteger;
    if v.Object? {
      match h[v.ref]
      case DateNode(_, _) =>
      case ArrayNode(_, elements) => ItemsExtend(h, g, elements, j.items);
      case ObjectNode(_, _, _, fields) => MembersExtend(h, g, fields, j.members);
    }
  }

  lemma {:induction false} ItemsExtend(h: Heap, g: Heap, xs: seq<Option<Value>>, items: Items)
    requires Formed(h) && Formed(g) && Extends(g, h)
    requires forall i :: 0 <= i < |xs| ==> Refers(h, Elem(xs[i])) && Refers(g, Elem(xs[i]))
    requires DenotesItems(h, xs, items)
    ensures DenotesItems(g, xs, items)
    decreases items
  {
    hide Denotes, Extends;
    if items.Item? {
      if !Elem(xs[0]).Undefined? { MeaningExtends(h, g, Elem(xs[0]), items.head); }
      ItemsExtend(h, g, xs[1..], items.tail);
    }
  }

  lemma {:induction false} MembersExtend(h: Heap, g: Heap, f: map<Text, Value>, m: Members)
    requires Formed(h) && Formed(g) && Extends(g, h)
    requires forall k :: k in f ==> Refers(h, f[k]) && Refers(g, f[k])
    requires DenotesMembers(h, f, m)
    ensures DenotesMembers(g, f, m)
    decreases m
  {
    hide Denotes, Extends;
    if m.Member? {
      MeaningExtends(h, g, f[m.key], m.value);
      MembersExtend(h, g, f, m.rest);
    }
  }

  /* Adding one well-formed node keeps the heap well formed. */

  lemma NodeStaysFormed(h: Heap, g: Heap, node: Node)
    requires NodeFormed(h, node) && Extends(g, h)
    ensures NodeFormed(g, node)
  {
  }

  lemma AddNode(h: Heap, next: Ref, node: Node)
    requires Below(h, next) && NodeFormed(h, node)
    ensures var g := h[next := node]; Below(g, next + 1) && Extends(g, h)
  {
    hide NodeFormed;
    var g := h[next := node];
    forall r | r in g
      ensures NodeFormed(g, g[r])
    {
      NodeStaysFormed(h, g, if r == next then node else h[r]);
    }
  }

  lemma {:induction false} NamesAreMembers(m: Members, k: Text)
    ensures k in Names(m) <==> Has(m, k)
  {
    hide Less;
    if m.Member? { NamesAreMembers(m.rest, k); }
  }

  lemma {:induction false} NamesAreDistinct(m: Members)
    requires Increasing(m)
    ensures Distinct(Names(m))
  {
    hide Less;
    if m.Member? {
      NamesAreDistinct(m.rest);
      NotAgain(m);
      NamesAreMembers(m.rest, m.key);
    }
  }

  lemma {:induction false} BuildDenotes(h: Heap, next: Ref, j: Json)
    requires Below(h, next) && Canonical(j)
    ensures var b := Build(h, next, j);
      && Below(b.heap, b.next) && Extends(b.heap, h)
      && Refers(b.heap, b.made) && Denotes(b.heap, b.made, j)
    decreases j, 1
  {
    hide BuildItems, BuildMembers, Below, Extends, DenotesItems, DenotesMembers, Canonical;
    CanonicalParts(j);
    match j
    case Arr(items) => BuildArrayDenotes(h, next, items);
    case Obj(members) => BuildObjectDenotes(h, next, members);
    case _ => LeafBuilt(h, next, j);
  }

  lemma CanonicalParts(j: Json)
    requires Canonical(j)
    ensures j.Arr? ==> CanonicalItems(j.items)
    ensures j.Obj? ==> Increasing(j.members) && CanonicalMembers(j.members)
  {
  }

  lemma LeafBuilt(h: Heap, next: Ref, j: Json)
    requires Below(h, next) && !j.Arr? && !j.Obj?
    ensures var b := Build(h, next, j);
      b.heap == h && b.next == next && Refers(h, b.made) && Denotes(h, b.made, j) && Extends(h, h)
  {
  }

  lemma ExtendsTransitively(h: Heap, g: Heap, f: Heap)
    requires Extends(g, h) && Extends(f, g)
    ensures Extends(f, h)
  {
  }

  lemma {:induction false} BuildArrayDenotes(h: Heap, next: Ref, items: Items)
    requires Below(h, next) && CanonicalItems(items)
    ensures var b := Build(h, next, Arr(items));
      && Below(b.heap, b.next) && Extends(b.heap, h)
      && Refers(b.heap, b.made) && Denotes(b.heap, b.made, Arr(items))
    decreases items, 1
  {
    hide BuildItems, DenotesItems, Extends, Formed;
    BuildItemsDenotes(h, next, items);
    var parts := BuildItems(h, next, items);
    var node := ArrayNode(false, parts.made);
    var g := parts.heap[parts.next := node];
    assert NodeFormed(parts.heap, node);
    AddNode(parts.heap, parts.next, node);
    ExtendsTransitively(h, parts.heap, g);
    ElementsReferBeyond(parts.heap, g, parts.made);
    ItemsExtend(parts.heap, g, parts.made, items);
  }

  lemma ElementsReferBeyond(h: Heap, g: Heap, xs: seq<Option<Value>>)
    requires Extends(g, h) && forall i :: 0 <= i < |xs| ==> Refers(h, Elem(xs[i]))
    ensures forall i :: 0 <= i < |xs| ==> Refers(g, Elem(xs[i]))
  {
  }

  lemma FieldsReferBeyond(h: Heap, g: Heap, f: map<Text, Value>)
    requires Extends(g, h) && forall k :: k in f ==> Refers(h, f[k])
    ensures forall k :: k in f ==> Refers(g, f[k])
  {
  }

  lemma {:induction false} BuildItemsDenotes(h: Heap, next: Ref, items: Items)
    requires Below(h, next) && CanonicalItems(items)
    ensures var b := BuildItems(h, next, items);
      && Below(b.heap, b.next) && Extends(b.heap, h)
      && (forall i :: 0 <= i < |b.made| ==> b.made[i].Some? && Refers(b.heap, Elem(b.made[i])))
      && DenotesItems(b.heap, b.made, items)
    decreases items, 0
  {
    hide Build, Denotes, Extends, Formed, Canonical;
    if items.NoItems? {
      ExtendsItself(h);
    } else {
      BuildDenotes(h, next, items.head);
      var first := Build(h, next, items.head);
      BuildItemsDenotes(first.heap, first.next, items.tail);
      var others := BuildItems(first.heap, first.next, items.tail);
      ExtendsTransitively(h, first.heap, others.heap);
      MeaningExtends(first.heap, others.heap, first.made, items.head);
      MeansSomething(others.heap, first.made, items.head);
      assert ([Some(first.made)] + others.made)[1..] == others.made;
    }
  }

  lemma ExtendsItself(h: Heap)
    ensures Extends(h, h)
  {
  }

  lemma MeansSomething(h: Heap, v: Value, j: Json)
    requires Formed(h) && Refers(h, v) && Denotes(h, v, j)
    ensures v != Undefined
  {
  }

  lemma {:induction false} BuildMembersDenotes(h: Heap, next: Ref, m: Members)
    requires Below(h, next) && CanonicalMembers(m) && Increasing(m)
    ensures var b := BuildMembers(h, next, m);
      && Below(b.heap, b.next) && Extends(b.heap, h)
      && (forall k :: k in b.made ==> Refers(b.heap, b.made[k]))
      && (forall k :: k in b.made <==> Has(m, k))
      && DenotesMembers(b.heap, b.made, m)
    decreases m, 0
  {
    hide Build, Denotes, Extends, Formed, Canonical, Less;
    if m.NoMembers? {
      ExtendsItself(h);
    } else {
      BuildDenotes(h, next, m.value);
      var first := Build(h, next, m.value);
      BuildMembersDenotes(first.heap, first.next, m.rest);
      var others := BuildMembers(first.heap, first.next, m.rest);
      ExtendsTransitively(h, first.heap, others.heap);
      MeaningExtends(first.heap, others.heap, first.made, m.value);
      NotAgain(m);
      OneMoreField(others.heap, others.made, others.made[m.key := first.made], m.rest, m.key, first.made);
    }
  }

  /** A field whose name is not among the members does not disturb them. */
  lemma {:induction false} OneMoreField(
    h: Heap, f: map<Text, Value>, g: map<Text, Value>, m: Members, key: Text, v: Value)
    requires g == f[key := v]
    requires Formed(h) && Refers(h, v) && (forall k :: k in f ==> Refers(h, f[k]))
    requires DenotesMembers(h, f, m) && !Has(m, key)
    ensures forall k :: k in g ==> Refers(h, g[k])
    ensures DenotesMembers(h, g, m)
    decreases m
  {
    hide Denotes, Formed;
    if m.Member? { OneMoreField(h, f, g, m.rest, key, v); }
  }

  lemma {:induction false} BuildObjectDenotes(h: Heap, next: Ref, m: Members)
    requires Below(h, next) && CanonicalMembers(m) && Increasing(m)
    ensures var b := Build(h, next, Obj(m));
      && Below(b.heap, b.next) && Extends(b.heap, h)
      && Refers(b.heap, b.made) && Denotes(b.heap, b.made, Obj(m))
    decreases m, 1
  {
    hide BuildMembers, DenotesMembers, Extends, Formed, Less, Increasing, Names, Has, Distinct;
    BuildMembersDenotes(h, next, m);
    var parts := BuildMembers(h, next, m);
    var node := ObjectNode(true, false, Names(m), parts.made);
    var g := parts.heap[parts.next := node];
    NamesAreDistinct(m);
    forall k
      ensures k in Names(m) <==> k in parts.made
    {
      NamesAreMembers(m, k);
    }
    AddNode(parts.heap, parts.next, node);
    ExtendsTransitively(h, parts.heap, g);
    FieldsReferBeyond(parts.heap, g, parts.made);
    MembersExtend(parts.heap, g, parts.made, m);
  }

  /**
   Normalizing a snapshot (print it canonically and parse the text into fresh objects) gives a
   value with the same canonical text: normalizing twice is normalizing once.
   */
  lemma NormalizingTwiceIsNormalizingOnce(h: Heap, next: Ref, v: Value)
    requires Below(h, next) && Refers(h, v) && CanonicalText(h, v).Some?
    ensures var text := CanonicalText(h, v).value;
      && Parse(text).Some?
      && var b := Build(h, next, Parse(text).value);
         Formed(b.heap) && Refers(b.heap, b.made) && CanonicalText(b.heap, b.made) == Some(text)
  {
    hide Canonicalize, Denotes, Print, Parse, Build;
    var j := Canonicalize(h, v, {}).j;
    WalkYieldsTheMeaning(h, v, j);
    MeaningIsCanonical(h, v, j);
    RoundTrip(j);
    BuildDenotes(h, next, j);
    var b := Build(h, next, j);
    WalkYieldsTheMeaning(b.heap, b.made, j);
    ObjectIsBuilt(h, next, j);
  }

  lemma ObjectIsBuilt(h: Heap, next: Ref, j: Json)
    requires j.Obj?
    ensures var b := Build(h, next, j); b.made.Object? && b.made.ref in b.heap && b.heap[b.made.ref].ObjectNode?
  {
  }

  lemma {:induction false} MeaningIsCanonical(h: Heap, v: Value, j: Json)
    requires Formed(h) && Refers(h, v) && Denotes(h, v, j)
    ensures Canonical(j)
    decreases j
  {
    hide DenotesItems, DenotesMembers, Increasing, PrintInteger, CanonicalItems, CanonicalMembers;
    if v.Object? {
      match h[v.ref]
      case DateNode(_, _) =>
      case ArrayNode(_, elements) => ItemsAreCanonical(h, elements, j.items);
      case ObjectNode(_, _, _, fields) => MembersAreCanonical(h, fields, j.members);
    }
  }

  lemma {:induction false} ItemsAreCanonical(h: Heap, xs: seq<Option<Value>>, items: Items)
    requires Formed(h) && (forall i :: 0 <= i < |xs| ==> Refers(h, Elem(xs[i]))) && DenotesItems(h, xs, items)
    ensures CanonicalItems(items)
    decreases items
  {
    hide Denotes, Canonical;
    if items.Item? {
      if Elem(xs[0]).Undefined? { NullIsCanonical(); } else { MeaningIsCanonical(h, Elem(xs[0]), items.head); }
      ItemsAreCanonical(h, xs[1..], items.tail);
    }
  }

  lemma NullIsCanonical()
    ensures Canonical(Null)
  {
  }

  lemma {:induction false} MembersAreCanonical(h: Heap, f: map<Text, Value>, m: Members)
    requires Formed(h) && (forall k :: k in f ==> Refers(h, f[k])) && DenotesMembers(h, f, m)
    ensures CanonicalMembers(m)
    decreases m
  {
    hide Denotes, Canonical;
    if m.Member? {
      MeaningIsCanonical(h, f[m.key], m.value);
      MembersAreCanonical(h, f, m.rest);
    }
  }

  /** Two snapshots have the same canonical text exactly when they stand for the same value. */
  lemma TextIdentifiesTheMeaning(h: Heap, v: Value, g: Heap, w: Value, j: Json, k: Json)
    requires Formed(h) && Refers(h, v) && CanonicalText(h, v).Some? && Denotes(h, v, j)
    requires Formed(g) && Refers(g, w) && CanonicalText(g, w).Some? && Denotes(g, w, k)
    ensures CanonicalText(h, v) == CanonicalText(g, w) <==> j == k
  {
    hide Canonicalize, Denotes, Print;
    WalkYieldsTheMeaning(h, v, j);
    WalkYieldsTheMeaning(g, w, k);
    MeaningIsCanonical(h, v, j);
    MeaningIsCanonical(g, w, k);
    if Print(j) == Print(k) { PrintIsInjective(j, k); }
  }
}
