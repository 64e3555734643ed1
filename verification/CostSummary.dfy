/**
 What the ledger promises about its summaries: they never fail, they conserve money and
 entries in every dimension, every bucket is the sum of the originals not reversed, and the
 order of a listing is irrelevant.
 */
module CostSummary {
  import opened Wrappers
  import opened AssetTypes
  import opened CostLedger

  /* ---- Sums over finite sets ---- */

  ghost function SetSum<T(!new)>(s: set<T>, f: T -> int): int {
    if s == {} then 0
    else
      var x :| x in s;
      f(x) + SetSum(s - {x}, f)
  }

  lemma {:induction false} SetSumTake<T(!new)>(s: set<T>, x: T, f: T -> int)
    requires x in s
    ensures SetSum(s, f) == f(x) + SetSum(s - {x}, f)
    decreases |s|
  {
    var y :| y in s && SetSum(s, f) == f(y) + SetSum(s - {y}, f);
    if y != x {
      SetSumTake(s - {y}, x, f);
      SetSumTake(s - {x}, y, f);
      assert s - {y} - {x} == s - {x} - {y};
    }
  }

  lemma {:induction false} SetSumSame<T(!new)>(s: set<T>, f: T -> int, g: T -> int)
    requires forall x :: x in s ==> f(x) == g(x)
    ensures SetSum(s, f) == SetSum(s, g)
    decreases |s|
  {
    if s != {} {
      var x :| x in s;
      SetSumTake(s, x, f);
      SetSumTake(s, x, g);
      SetSumSame(s - {x}, f, g);
    }
  }

  lemma {:induction false} SetSumUnion<T(!new)>(a: set<T>, b: set<T>, f: T -> int)
    requires a !! b
    ensures SetSum(a + b, f) == SetSum(a, f) + SetSum(b, f)
    decreases |a|
  {
    if a == {} {
      assert a + b == b;
    } else {
      var x :| x in a;
      SetSumTake(a, x, f);
      SetSumTake(a + b, x, f);
      assert a + b - {x} == (a - {x}) + b;
      SetSumUnion(a - {x}, b, f);
    }
  }

  lemma {:induction false} SetSumNonNegative<T(!new)>(s: set<T>, f: T -> int)
    requires forall x :: x in s ==> f(x) >= 0
    ensures SetSum(s, f) >= 0
    decreases |s|
  {
    if s != {} {
      var x :| x in s;
      SetSumTake(s, x, f);
      SetSumNonNegative(s - {x}, f);
    }
  }

  /** Changing the summand at one element changes the sum by as much. */
  lemma SetSumAt<T(!new)>(s: set<T>, x: T, f: T -> int, g: T -> int)
    requires x in s && forall y :: y in s && y != x ==> f(y) == g(y)
    ensures SetSum(s, f) - f(x) == SetSum(s, g) - g(x)
  {
    SetSumTake(s, x, f);
    SetSumTake(s, x, g);
    SetSumSame(s - {x}, f, g);
  }

  /* ---- Conservation in each dimension ---- */

  ghost function Amounts<K(!new)>(buckets: map<K, Bucket>): int {
    SetSum(buckets.Keys, k => if k in buckets then buckets[k].amount else 0)
  }

  ghost function Counts<K(!new)>(buckets: map<K, Bucket>): int {
    SetSum(buckets.Keys, k => if k in buckets then buckets[k].count else 0)
  }

  lemma {:induction false} DimensionTotals<K(!new)>(entries: seq<Entry>, key: Entry -> K, keys: set<K>)
    requires KeysIn(entries, key) <= keys
    ensures SetSum(keys, k => BucketIn(entries, key, k).amount) == Total(entries)
    ensures SetSum(keys, k => BucketIn(entries, key, k).count) == |entries|
    decreases |entries|
  {
    if entries == [] {
      AllZero(keys, k => BucketIn(entries, key, k).amount);
      AllZero(keys, k => BucketIn(entries, key, k).count);
    } else {
      var n := |entries| - 1;
      var less, last := entries[..n], entries[n];
      assert entries == less + [last];
      KeysOneMore(less, last, key);
      DimensionTotals(less, key, keys);
      SetSumAt(keys, key(last), k => BucketIn(entries, key, k).amount, k => BucketIn(less, key, k).amount);
      SetSumAt(keys, key(last), k => BucketIn(entries, key, k).count, k => BucketIn(less, key, k).count);
    }
  }

  lemma {:induction false} AllZero<T(!new)>(s: set<T>, f: T -> int)
    requires forall x :: x in s ==> f(x) == 0
    ensures SetSum(s, f) == 0
    decreases |s|
  {
    if s != {} {
      var x :| x in s;
      SetSumTake(s, x, f);
      AllZero(s - {x}, f);
    }
  }

  lemma TallyConserves<K(!new)>(entries: seq<Entry>, key: Entry -> K, initial: set<K>)
    ensures Amounts(Tally(entries, key, initial)) == Total(entries)
    ensures Counts(Tally(entries, key, initial)) == |entries|
  {
    hide BucketIn, Total;
    var tally := Tally(entries, key, initial);
    var keys := initial + KeysIn(entries, key);
    assert tally.Keys == keys;
    DimensionTotals(entries, key, keys);
    SetSumSame(keys, k => if k in tally then tally[k].amount else 0, k => BucketIn(entries, key, k).amount);
    SetSumSame(keys, k => if k in tally then tally[k].count else 0, k => BucketIn(entries, key, k).count);
  }

  /** In each of the four dimensions the amounts add up to the total and the counts to the number of entries. */
  lemma SummaryConserves(entries: seq<Entry>)
    ensures var s := SummaryOf(entries);
      && s.total == Total(entries)
      && Amounts(s.byActionType) == s.total && Counts(s.byActionType) == |entries|
      && Amounts(s.byResponsibility) == s.total && Counts(s.byResponsibility) == |entries|
      && Amounts(s.byResponsibleParty) == s.total && Counts(s.byResponsibleParty) == |entries|
      && Amounts(s.byCategory) == s.total && Counts(s.byCategory) == |entries|
  {
    hide Tally, Total, Amounts, Counts, ById;
    var byId := ById(entries);
    TallyConserves(entries, ActionKey(byId), ACTION_TYPES);
    TallyConserves(entries, ResponsibilityKey(byId), PARTY_TYPES);
    TallyConserves(entries, ResponsibleKey(byId), {});
    TallyConserves(entries, CategoryKey(byId), CATEGORIES);
  }

  /* ---- The ledger ---- */

  type Ledger = map<Id, Entry>

  ghost predicate ReversesProperly(ledger: Ledger, e: Entry) {
    e.kind.Reversal? ==>
      && e.reversalOf.Some? && e.reversalOf.value in ledger
      && var o := ledger[e.reversalOf.value];
         o.kind.Original? && e.facts == o.facts && e.amount == -o.amount
  }

  ghost predicate SameTarget(ledger: Ledger, a: Id, b: Id) {
    && a in ledger && b in ledger && ledger[a].kind.Reversal? && ledger[b].kind.Reversal?
    && ledger[a].reversalOf == ledger[b].reversalOf
  }

  /** Entries are well formed and indexed by id; a reversal cancels one original, and no two the same. */
  ghost predicate LedgerInv(ledger: Ledger) {
    && (forall id :: id in ledger ==>
          ledger[id].id == id && WellFormed(ledger[id]) && ReversesProperly(ledger, ledger[id]))
    && (forall a, b :: SameTarget(ledger, a, b) ==> a == b)
  }

  predicate IsReversed(ledger: Ledger, id: Id) {
    exists r :: r in ledger && ledger[r].kind.Reversal? && ledger[r].reversalOf == Some(id)
  }

  /** A new entry keeps the ledger if it is well formed and reverses, if anything, an original not yet reversed. */
  lemma AddingKeepsLedger(ledger: Ledger, e: Entry)
    requires LedgerInv(ledger) && e.id !in ledger && WellFormed(e) && ReversesProperly(ledger, e)
    requires e.kind.Reversal? ==> !IsReversed(ledger, e.reversalOf.value)
    ensures LedgerInv(ledger[e.id := e])
  {
    hide NonBlank, ValidPeriod;
    var after := ledger[e.id := e];
    forall id | id in after
      ensures after[id].id == id && WellFormed(after[id]) && ReversesProperly(after, after[id])
    {
      if id != e.id { assert ReversesProperly(ledger, ledger[id]); }
    }
    forall a, b | SameTarget(after, a, b)
      ensures a == b
    {
      assert a != e.id && b != e.id ==> SameTarget(ledger, a, b);
      OnlyReversal(ledger, e, a);
      OnlyReversal(ledger, e, b);
    }
  }

  /** No entry already there reverses what a new reversal reverses. */
  lemma OnlyReversal(ledger: Ledger, e: Entry, other: Id)
    requires e.kind.Reversal? ==> e.reversalOf.Some? && !IsReversed(ledger, e.reversalOf.value)
    ensures !(other in ledger && ledger[other].kind.Reversal? && e.kind.Reversal?
              && ledger[other].reversalOf == e.reversalOf)
  {
  }

  datatype Filter = All | OfVehicle(id: Id) | OfOrder(id: Id) | OfWorkOrder(id: Id)

  predicate Matches(filter: Filter, f: Facts) {
    match filter
    case All => true
    case OfVehicle(id) => f.vehicleId == id
    case OfOrder(id) => f.orderId == Some(id)
    case OfWorkOrder(id) => f.workOrderId == Some(id)
  }

  function Listed(ledger: Ledger, filter: Filter): set<Entry> {
    set id | id in ledger && Matches(filter, ledger[id].facts) :: ledger[id]
  }

  /** A listing shows each matching entry once, in whatever order. */
  ghost predicate Lists(entries: seq<Entry>, ledger: Ledger, filter: Filter) {
    && DistinctIds(entries)
    && (forall e :: e in entries <==> e in Listed(ledger, filter))
  }

  lemma {:induction false} ByIdFinds(entries: seq<Entry>, e: Entry)
    requires DistinctIds(entries) && e in entries
    ensures e.id in ById(entries) && ById(entries)[e.id] == e
  {
    var m := ById(entries)[e.id];
    var i :| 0 <= i < |entries| && entries[i] == e;
    var j :| 0 <= j < |entries| && entries[j] == m;
  }

  /** The original of a listed reversal is listed too: it has the same facts. */
  lemma OriginalIsListed(entries: seq<Entry>, ledger: Ledger, filter: Filter, e: Entry)
    requires LedgerInv(ledger) && Lists(entries, ledger, filter) && e in entries && e.kind.Reversal?
    ensures ledger[e.id] == e && e.reversalOf.Some? && e.reversalOf.value in ledger
    ensures var o := ledger[e.reversalOf.value]; o in entries && o.id == e.reversalOf.value
  {
    hide WellFormed;
    assert e in Listed(ledger, filter);
    assert ReversesProperly(ledger, e);
    var o := ledger[e.reversalOf.value];
    assert o in Listed(ledger, filter);
  }

  lemma ListedIsAcceptable(entries: seq<Entry>, ledger: Ledger, filter: Filter, e: Entry)
    requires LedgerInv(ledger) && Lists(entries, ledger, filter) && e in entries
    ensures Acceptable(e, ById(entries)) && NonBlank(e.id)
    ensures CountedAs(e, ById(entries)) == e.facts
  {
    hide ById, DistinctIds, NonBlank, ValidPeriod;
    assert e in Listed(ledger, filter);
    if e.kind.Reversal? {
      OriginalIsListed(entries, ledger, filter, e);
      var o := ledger[e.reversalOf.value];
      ByIdFinds(entries, o);
      assert ReversesProperly(ledger, e);
    }
  }

  /** No listing of the ledger, by vehicle, order, work order or of everything, makes the summary fail. */
  lemma ListingsAreSummable(entries: seq<Entry>, ledger: Ledger, filter: Filter)
    requires LedgerInv(ledger) && Lists(entries, ledger, filter)
    ensures Summable(entries)
  {
    hide LedgerInv, Acceptable, NonBlank, ById;
    forall e | e in entries
      ensures Acceptable(e, ById(entries)) && NonBlank(e.id)
    {
      ListedIsAcceptable(entries, ledger, filter, e);
    }
  }

  /* ---- Every bucket is the sum of the originals not reversed ---- */

  /** A dimension seen from the facts of an entry. */
  ghost predicate SeesFacts<K(!new)>(entries: seq<Entry>, key: Entry -> K, dimension: Facts -> K) {
    forall e :: e in entries ==> key(e) == dimension(e.facts)
  }

  ghost function ElementsUnder<K(!new)>(entries: seq<Entry>, key: Entry -> K, k: K): set<Entry> {
    set e | e in entries && key(e) == k
  }

  function ElementsOf(entries: seq<Entry>): set<Entry> { set e | e in entries }

  function Amount(): Entry -> int { (e: Entry) => e.amount }
  function One(): Entry -> int { (e: Entry) => 1 }

  lemma {:induction false} BucketIsSetSum<K(!new)>(entries: seq<Entry>, key: Entry -> K, k: K)
    requires DistinctIds(entries)
    ensures BucketIn(entries, key, k).amount == SetSum(ElementsUnder(entries, key, k), Amount())
    ensures BucketIn(entries, key, k).count == SetSum(ElementsUnder(entries, key, k), One())
    decreases |entries|
  {
    if entries == [] {
      assert ElementsUnder(entries, key, k) == {};
    } else {
      var n := |entries| - 1;
      var less, last := entries[..n], entries[n];
      BucketIsSetSum(less, key, k);
      ElementsOneMore(less, last, key, k);
      assert entries == less + [last];
      if key(last) == k {
        SetSumTake(ElementsUnder(entries, key, k), last, Amount());
        SetSumTake(ElementsUnder(entries, key, k), last, One());
      }
    }
  }

  lemma ElementsOneMore<K(!new)>(less: seq<Entry>, last: Entry, key: Entry -> K, k: K)
    requires DistinctIds(less + [last])
    ensures key(last) == k ==>
      last in ElementsUnder(less + [last], key, k)
      && ElementsUnder(less + [last], key, k) - {last} == ElementsUnder(less, key, k)
    ensures key(last) != k ==> ElementsUnder(less + [last], key, k) == ElementsUnder(less, key, k)
  {
    var entries := less + [last];
    assert entries[|less|] == last;
    forall e | e in less
      ensures e != last
    {
      var i :| 0 <= i < |less| && less[i] == e;
      assert entries[i] == e;
    }
  }

  lemma {:induction false} TotalIsSetSum(entries: seq<Entry>)
    requires DistinctIds(entries)
    ensures Total(entries) == SetSum(ElementsOf(entries), Amount())
    decreases |entries|
  {
    if entries == [] {
      assert ElementsOf(entries) == {};
    } else {
      var n := |entries| - 1;
      var less, last := entries[..n], entries[n];
      TotalIsSetSum(less);
      ElementsOneMore(less, last, e => true, true);
      assert entries == less + [last];
      assert ElementsUnder(entries, e => true, true) == ElementsOf(entries);
      assert ElementsUnder(less, e => true, true) == ElementsOf(less);
      SetSumTake(ElementsOf(entries), last, Amount());
    }
  }

  function Reversals(s: set<Entry>): set<Entry> { set e | e in s && e.kind.Reversal? }
  function Originals(s: set<Entry>): set<Entry> { set e | e in s && e.kind.Original? }

  /** The originals that reversals cancel. */
  function Targets(s: set<Entry>, ledger: Ledger): set<Entry> {
    set e | e in s && e.reversalOf.Some? && e.reversalOf.value in ledger :: ledger[e.reversalOf.value]
  }

  ghost predicate InLedger(s: set<Entry>, ledger: Ledger) {
    forall e :: e in s ==> e.id in ledger && ledger[e.id] == e
  }

  lemma {:induction false} ReversalsCancelTargets(s: set<Entry>, ledger: Ledger)
    requires LedgerInv(ledger) && InLedger(s, ledger) && forall e :: e in s ==> e.kind.Reversal?
    ensures SetSum(s, Amount()) == -SetSum(Targets(s, ledger), Amount())
    decreases |s|
  {
    hide WellFormed;
    if s == {} {
      assert Targets(s, ledger) == {};
    } else {
      var e :| e in s;
      assert ReversesProperly(ledger, e);
      var o := ledger[e.reversalOf.value];
      ReversalsCancelTargets(s - {e}, ledger);
      TargetsWithout(s, ledger, e);
      SetSumTake(s, e, Amount());
      SetSumTake(Targets(s, ledger), o, Amount());
    }
  }

  lemma TargetsWithout(s: set<Entry>, ledger: Ledger, e: Entry)
    requires LedgerInv(ledger) && InLedger(s, ledger) && (forall x :: x in s ==> x.kind.Reversal?) && e in s
    ensures e.reversalOf.Some? && e.reversalOf.value in ledger
    ensures ledger[e.reversalOf.value] in Targets(s, ledger)
    ensures Targets(s - {e}, ledger) == Targets(s, ledger) - {ledger[e.reversalOf.value]}
  {
    hide WellFormed;
    assert ReversesProperly(ledger, e);
    var o := ledger[e.reversalOf.value];
    forall x | x in s && x != e
      ensures x.reversalOf.Some? && x.reversalOf.value in ledger && ledger[x.reversalOf.value] != o
    {
      assert ReversesProperly(ledger, x);
      assert ledger[x.id] == x && ledger[e.id] == e && !SameTarget(ledger, x.id, e.id);
      assert ledger[x.reversalOf.value].id == x.reversalOf.value && o.id == e.reversalOf.value;
    }
  }

  /** Originals of `s` that no entry of the ledger reverses. */
  ghost function Unreversed(s: set<Entry>, ledger: Ledger): set<Entry> {
    set e | e in s && e.kind.Original? && !IsReversed(ledger, e.id)
  }

  /** A set of ledger entries that holds a reversal exactly when it holds its original. */
  ghost predicate ClosedUnderReversal(s: set<Entry>, ledger: Ledger) {
    && InLedger(s, ledger)
    && forall r :: (r in ledger && ledger[r].kind.Reversal?
                    && ledger[r].reversalOf.Some? && ledger[r].reversalOf.value in ledger) ==>
         (ledger[r] in s <==> ledger[ledger[r].reversalOf.value] in s)
  }

  lemma TargetsAreTheReversed(s: set<Entry>, ledger: Ledger)
    requires LedgerInv(ledger) && ClosedUnderReversal(s, ledger)
    ensures Targets(Reversals(s), ledger) <= Originals(s)
    ensures Originals(s) - Targets(Reversals(s), ledger) == Unreversed(s, ledger)
  {
    hide WellFormed;
    forall e | e in Reversals(s)
      ensures e.reversalOf.Some? && e.reversalOf.value in ledger && ledger[e.reversalOf.value] in Originals(s)
      ensures IsReversed(ledger, e.reversalOf.value)
    {
      assert ReversesProperly(ledger, e);
      assert ledger[e.id] == e;
    }
    forall o | o in Originals(s) && IsReversed(ledger, o.id)
      ensures o in Targets(Reversals(s), ledger)
    {
      var r :| r in ledger && ledger[r].kind.Reversal? && ledger[r].reversalOf == Some(o.id);
      assert ledger[o.id] == o;
      assert ledger[r] in Reversals(s);
    }
  }

  /** Over a set closed under reversal, signed amounts add up to what is not reversed. */
  lemma SignedSumIsUnreversedSum(s: set<Entry>, ledger: Ledger)
    requires LedgerInv(ledger) && ClosedUnderReversal(s, ledger)
    ensures SetSum(s, Amount()) == SetSum(Unreversed(s, ledger), Amount()) >= 0
  {
    hide WellFormed, LedgerInv;
    var reversals, originals := Reversals(s), Originals(s);
    var targets := Targets(reversals, ledger);
    assert s == reversals + originals;
    SetSumUnion(reversals, originals, Amount());
    ReversalsCancelTargets(reversals, ledger);
    TargetsAreTheReversed(s, ledger);
    SetSumUnion(originals - targets, targets, Amount());
    assert originals == (originals - targets) + targets;
    UnreversedArePositive(s, ledger);
    SetSumNonNegative(Unreversed(s, ledger), Amount());
  }

  lemma UnreversedArePositive(s: set<Entry>, ledger: Ledger)
    requires LedgerInv(ledger) && InLedger(s, ledger)
    ensures forall e :: e in Unreversed(s, ledger) ==> e.amount >= 0
  {
    hide NonBlank, ValidPeriod, ReversesProperly, IsReversed;
  }

  /** The entries of one bucket of a listing are closed under reversal. */
  lemma BucketIsClosed<K(!new)>(
    entries: seq<Entry>, ledger: Ledger, filter: Filter, key: Entry -> K, dimension: Facts -> K, k: K)
    requires LedgerInv(ledger) && Lists(entries, ledger, filter) && SeesFacts(entries, key, dimension)
    ensures ClosedUnderReversal(ElementsUnder(entries, key, k), ledger)
  {
    hide WellFormed, DistinctIds;
    var s := ElementsUnder(entries, key, k);
    forall r | r in ledger && ledger[r].kind.Reversal?
               && ledger[r].reversalOf.Some? && ledger[r].reversalOf.value in ledger
      ensures ledger[r] in s <==> ledger[ledger[r].reversalOf.value] in s
    {
      assert ReversesProperly(ledger, ledger[r]);
      var o := ledger[ledger[r].reversalOf.value];
      assert ledger[r] in Listed(ledger, filter) <==> o in Listed(ledger, filter);
    }
  }

  lemma BucketIsUnreversed<K(!new)>(
    entries: seq<Entry>, ledger: Ledger, filter: Filter, key: Entry -> K, dimension: Facts -> K, k: K)
    requires LedgerInv(ledger) && Lists(entries, ledger, filter) && SeesFacts(entries, key, dimension)
    ensures BucketIn(entries, key, k).amount
      == SetSum(Unreversed(ElementsUnder(entries, key, k), ledger), Amount()) >= 0
  {
    hide LedgerInv, Lists;
    assert DistinctIds(entries) by { ListingIsDistinct(entries, ledger, filter); }
    BucketIsSetSum(entries, key, k);
    BucketIsClosed(entries, ledger, filter, key, dimension, k);
    SignedSumIsUnreversedSum(ElementsUnder(entries, key, k), ledger);
  }

  lemma ListingIsDistinct(entries: seq<Entry>, ledger: Ledger, filter: Filter)
    requires Lists(entries, ledger, filter)
    ensures DistinctIds(entries)
  {
  }

  /** The entries of a listing that one bucket stands for. */
  ghost function Standing<K(!new)>(ledger: Ledger, filter: Filter, dimension: Facts -> K, k: K): set<Entry> {
    set e | e in Unreversed(Listed(ledger, filter), ledger) && dimension(e.facts) == k
  }

  lemma StandingIsUnreversed<K(!new)>(
    entries: seq<Entry>, ledger: Ledger, filter: Filter, key: Entry -> K, dimension: Facts -> K, k: K)
    requires Lists(entries, ledger, filter) && SeesFacts(entries, key, dimension)
    ensures Unreversed(ElementsUnder(entries, key, k), ledger) == Standing(ledger, filter, dimension, k)
  {
    hide IsReversed, DistinctIds;
  }

  lemma TallyIsStanding<K(!new)>(
    entries: seq<Entry>, ledger: Ledger, filter: Filter, key: Entry -> K, dimension: Facts -> K, initial: set<K>)
    requires LedgerInv(ledger) && Lists(entries, ledger, filter) && SeesFacts(entries, key, dimension)
    ensures var tally := Tally(entries, key, initial);
      forall k :: k in tally ==> tally[k].amount == SetSum(Standing(ledger, filter, dimension, k), Amount()) >= 0
  {
    hide LedgerInv, Lists, BucketIn, SetSum, Standing;
    forall k
      ensures BucketIn(entries, key, k).amount == SetSum(Standing(ledger, filter, dimension, k), Amount()) >= 0
    {
      BucketIsUnreversed(entries, ledger, filter, key, dimension, k);
      StandingIsUnreversed(entries, ledger, filter, key, dimension, k);
    }
  }

  function ActionOf(): Facts -> ActionType { (f: Facts) => f.actionType }
  function PartyTypeOf(): Facts -> PartyType { (f: Facts) => f.partyType }
  function PartyOf(): Facts -> string { (f: Facts) => PartyKey(f) }
  function CategoryOf(): Facts -> CostCategory { (f: Facts) => f.costCategory }

  lemma KeysSeeFacts(entries: seq<Entry>, ledger: Ledger, filter: Filter)
    requires LedgerInv(ledger) && Lists(entries, ledger, filter)
    ensures var byId := ById(entries);
      && SeesFacts(entries, ActionKey(byId), ActionOf())
      && SeesFacts(entries, ResponsibilityKey(byId), PartyTypeOf())
      && SeesFacts(entries, ResponsibleKey(byId), PartyOf())
      && SeesFacts(entries, CategoryKey(byId), CategoryOf())
  {
    hide LedgerInv, Lists, ById, CountedAs, PartyKey;
    forall e | e in entries
      ensures CountedAs(e, ById(entries)) == e.facts
    {
      ListedIsAcceptable(entries, ledger, filter, e);
    }
  }

  /** In every dimension, each bucket is the sum of the listed originals not reversed, so never negative. */
  lemma BucketsStandForUnreversedOriginals(entries: seq<Entry>, ledger: Ledger, filter: Filter)
    requires LedgerInv(ledger) && Lists(entries, ledger, filter)
    ensures var s := SummaryOf(entries);
      && (forall k :: k in s.byActionType ==>
            s.byActionType[k].amount == SetSum(Standing(ledger, filter, ActionOf(), k), Amount()) >= 0)
      && (forall k :: k in s.byResponsibility ==>
            s.byResponsibility[k].amount == SetSum(Standing(ledger, filter, PartyTypeOf(), k), Amount()) >= 0)
      && (forall k :: k in s.byResponsibleParty ==>
            s.byResponsibleParty[k].amount == SetSum(Standing(ledger, filter, PartyOf(), k), Amount()) >= 0)
      && (forall k :: k in s.byCategory ==>
            s.byCategory[k].amount == SetSum(Standing(ledger, filter, CategoryOf(), k), Amount()) >= 0)
  {
    hide LedgerInv, Lists, Tally, SetSum, Standing, SeesFacts, ById, Total;
    var byId := ById(entries);
    KeysSeeFacts(entries, ledger, filter);
    TallyIsStanding(entries, ledger, filter, ActionKey(byId), ActionOf(), ACTION_TYPES);
    TallyIsStanding(entries, ledger, filter, ResponsibilityKey(byId), PartyTypeOf(), PARTY_TYPES);
    TallyIsStanding(entries, ledger, filter, ResponsibleKey(byId), PartyOf(), {});
    TallyIsStanding(entries, ledger, filter, CategoryKey(byId), CategoryOf(), CATEGORIES);
  }

  /* ---- The order of a listing does not matter ---- */

  lemma TallyIgnoresOrder<K(!new)>(
    a: seq<Entry>, b: seq<Entry>, keyA: Entry -> K, keyB: Entry -> K, initial: set<K>)
    requires DistinctIds(a) && DistinctIds(b) && (forall e :: e in a <==> e in b)
    requires forall e :: e in a ==> keyA(e) == keyB(e)
    ensures Tally(a, keyA, initial) == Tally(b, keyB, initial)
  {
    hide BucketIn, SetSum, DistinctIds;
    assert KeysIn(a, keyA) == KeysIn(b, keyB);
    forall k
      ensures BucketIn(a, keyA, k) == BucketIn(b, keyB, k)
    {
      BucketIsSetSum(a, keyA, k);
      BucketIsSetSum(b, keyB, k);
      assert ElementsUnder(a, keyA, k) == ElementsUnder(b, keyB, k);
    }
  }

  /** Two listings of the same entries have the same summary, whatever their order. */
  lemma SummaryIgnoresOrder(a: seq<Entry>, b: seq<Entry>, ledger: Ledger, filter: Filter)
    requires LedgerInv(ledger) && Lists(a, ledger, filter) && Lists(b, ledger, filter)
    ensures SummaryOf(a) == SummaryOf(b)
  {
    hide LedgerInv, Tally, Total, ById, SetSum;
    var m, n := ById(a), ById(b);
    KeysSeeFacts(a, ledger, filter);
    KeysSeeFacts(b, ledger, filter);
    TallyIgnoresOrder(a, b, ActionKey(m), ActionKey(n), ACTION_TYPES);
    TallyIgnoresOrder(a, b, ResponsibilityKey(m), ResponsibilityKey(n), PARTY_TYPES);
    TallyIgnoresOrder(a, b, ResponsibleKey(m), ResponsibleKey(n), {});
    TallyIgnoresOrder(a, b, CategoryKey(m), CategoryKey(n), CATEGORIES);
    TotalIsSetSum(a);
    TotalIsSetSum(b);
    assert ElementsOf(a) == ElementsOf(b);
  }
}
