/** Sorting by an order that tells any two of the elements apart. */
module Sorting {
  function Insert<T>(x: T, s: seq<T>, less: (T, T) -> bool): seq<T> {
    if s == [] || less(x, s[0]) then [x] + s else [s[0]] + Insert(x, s[1..], less)
  }

  function Sort<T>(s: seq<T>, less: (T, T) -> bool): seq<T> {
    if s == [] then [] else Insert(s[0], Sort(s[1..], less), less)
  }

  /** Each element is before the next. */
  predicate Increasing<T>(s: seq<T>, less: (T, T) -> bool) {
    |s| > 1 ==> less(s[0], s[1]) && Increasing(s[1..], less)
  }

  ghost predicate ToldApart<T>(s: seq<T>, less: (T, T) -> bool) {
    forall i, j :: 0 <= i < j < |s| ==> less(s[i], s[j]) || less(s[j], s[i])
  }

  lemma {:induction false} InsertKeepsElements<T(!new)>(x: T, s: seq<T>, less: (T, T) -> bool)
    ensures forall y :: y in Insert(x, s, less) <==> y == x || y in s
  {
    if s != [] && !less(x, s[0]) {
      InsertKeepsElements(x, s[1..], less);
      assert s == [s[0]] + s[1..];
    }
  }

  lemma {:induction false} SortKeepsElements<T(!new)>(s: seq<T>, less: (T, T) -> bool)
    ensures forall y :: y in Sort(s, less) <==> y in s
    ensures Sort(s, less) == [] <==> s == []
  {
    if s != [] {
      SortKeepsElements(s[1..], less);
      InsertKeepsElements(s[0], Sort(s[1..], less), less);
      assert s == [s[0]] + s[1..];
    }
  }

  lemma {:induction false} InsertKeepsIncreasing<T(!new)>(x: T, s: seq<T>, less: (T, T) -> bool)
    requires Increasing(s, less) && forall y :: y in s ==> less(x, y) || less(y, x)
    ensures Increasing(Insert(x, s, less), less)
    ensures Insert(x, s, less)[0] == x || (s != [] && Insert(x, s, less)[0] == s[0])
  {
    if s != [] && !less(x, s[0]) {
      assert s[0] in s;
      InsertKeepsIncreasing(x, s[1..], less);
      assert Insert(x, s, less)[1..] == Insert(x, s[1..], less);
    } else {
      assert ([x] + s)[1..] == s;
    }
  }

  lemma FirstToldApart<T(!new)>(s: seq<T>, less: (T, T) -> bool, y: T)
    requires ToldApart(s, less) && s != [] && y in s[1..]
    ensures less(s[0], y) || less(y, s[0])
  {
    var i :| 0 <= i < |s[1..]| && s[1..][i] == y;
    assert s[i + 1] == y;
  }

  lemma {:induction false} SortIsIncreasing<T(!new)>(s: seq<T>, less: (T, T) -> bool)
    requires ToldApart(s, less)
    ensures Increasing(Sort(s, less), less)
  {
    if s != [] {
      var others := Sort(s[1..], less);
      SortIsIncreasing(s[1..], less);
      SortKeepsElements(s[1..], less);
      forall y | y in others
        ensures less(s[0], y) || less(y, s[0])
      {
        FirstToldApart(s, less, y);
      }
      InsertKeepsIncreasing(s[0], others, less);
    }
  }

  /** Under a transitive order, an earlier element is before every later one. */
  lemma {:induction false} IncreasingThroughout<T(!new)>(s: seq<T>, less: (T, T) -> bool, i: nat, j: nat)
    requires Increasing(s, less) && i < j < |s|
    requires forall x, y, z :: less(x, y) && less(y, z) ==> less(x, z)
    ensures less(s[i], s[j])
    decreases j
  {
    if i > 0 {
      IncreasingThroughout(s[1..], less, i - 1, j - 1);
    } else if j > 1 {
      IncreasingThroughout(s[1..], less, 0, j - 1);
    }
  }
}
