/**
 Entries of the vehicle cost ledger and their summary. An original states a positive amount; a
 reversal repeats the facts of the original it cancels and the opposite amount. The summary
 groups signed amounts by four dimensions, a reversal counting where its original does.
 */
module CostLedger {
  import opened Wrappers
  import opened AssetTypes

  datatype ActionType = ActualCost | ResponsibilityConfirmed | RecoveryExposure | RecoveryReceived | Waiver | WriteOff
  datatype PartyType = Customer | Insurer | Supplier | AssetOwner | Platform | OtherParty
  datatype CostCategory =
    | Damage | Cleaning | Repair | Maintenance | ExcessMileage | Violation | Towing | Insurance | Baas
    | Depreciation | OtherCost
  datatype EntryKind = Original | Reversal

  /** The statements a reversal takes over from its original unchanged. */
  datatype Facts = Facts(
    vehicleId: Id, orderId: Option<Id>, workOrderId: Option<Id>, contractId: Option<Id>, customerId: Option<Id>,
    actionType: ActionType, costCategory: CostCategory, partyType: PartyType, partyId: Option<Id>,
    accountingPeriod: string, occurredOn: Moment, assetOwnerId: Option<Id>, evidenceId: Option<Id>,
    snapshots: string)

  datatype Entry = Entry(
    id: Id, kind: EntryKind, facts: Facts, amount: int, reversalOf: Option<Id>,
    confirmedAt: Moment, confirmedBy: Id, source: Source)

  /* ---- What an entry must look like ---- */

  predicate IsDigit(c: char) { '0' <= c <= '9' }

  /** YYYY-MM with a month from 01 to 12. */
  predicate ValidPeriod(s: string) {
    && |s| == 7 && s[4] == '-'
    && (forall i :: 0 <= i < 4 ==> IsDigit(s[i]))
    && ((s[5] == '0' && '1' <= s[6] <= '9') || (s[5] == '1' && '0' <= s[6] <= '2'))
  }

  predicate WellFormed(e: Entry) {
    && NonBlank(e.id) && NonBlank(e.facts.vehicleId) && ValidPeriod(e.facts.accountingPeriod)
    && match e.kind
       case Original => e.amount > 0 && e.reversalOf.None?
       case Reversal => e.amount < 0 && e.reversalOf.Some? && NonBlank(e.reversalOf.value)
  }

  /** An entry among others, which it may refer to. */
  predicate Acceptable(e: Entry, byId: map<Id, Entry>) {
    && WellFormed(e)
    && (e.kind.Reversal? ==>
          && e.reversalOf.value in byId
          && byId[e.reversalOf.value].kind.Original?
          && e.amount == -byId[e.reversalOf.value].amount)
  }

  /* ---- The summary ---- */

  datatype Bucket = Bucket(amount: int, count: nat)

  datatype Summary = Summary(
    total: int,
    byActionType: map<ActionType, Bucket>, byResponsibility: map<PartyType, Bucket>,
    byResponsibleParty: map<string, Bucket>, byCategory: map<CostCategory, Bucket>)

  const ACTION_TYPES: set<ActionType> :=
    {ActualCost, ResponsibilityConfirmed, RecoveryExposure, RecoveryReceived, Waiver, WriteOff}
  const PARTY_TYPES: set<PartyType> := {Customer, Insurer, Supplier, AssetOwner, Platform, OtherParty}
  const CATEGORIES: set<CostCategory> :=
    {Damage, Cleaning, Repair, Maintenance, ExcessMileage, Violation, Towing, Insurance, Baas, Depreciation, OtherCost}

  /** The facts an entry is counted under: its original's, for a reversal whose original is known. */
  function CountedAs(e: Entry, byId: map<Id, Entry>): Facts {
    if e.kind.Reversal? && e.reversalOf.Some? && e.reversalOf.value in byId
    then byId[e.reversalOf.value].facts
    else e.facts
  }

  function PartyName(p: PartyType): string {
    match p
    case Customer => "CUSTOMER"
    case Insurer => "INSURER"
    case Supplier => "SUPPLIER"
    case AssetOwner => "ASSET_OWNER"
    case Platform => "PLATFORM"
    case OtherParty => "OTHER"
  }

  function PartyKey(f: Facts): string {
    PartyName(f.partyType) + ":" + if f.partyId.Some? then f.partyId.value else ""
  }

  /** The sum and number of the entries under one key of a dimension. */
  function BucketIn<K(==)>(entries: seq<Entry>, key: Entry -> K, k: K): Bucket {
    if entries == [] then Bucket(0, 0)
    else
      var others := BucketIn(entries[..|entries| - 1], key, k);
      var last := entries[|entries| - 1];
      if key(last) == k then Bucket(others.amount + last.amount, others.count + 1) else others
  }

  function Total(entries: seq<Entry>): int {
    if entries == [] then 0 else Total(entries[..|entries| - 1]) + entries[|entries| - 1].amount
  }

  function KeysIn<K(==)>(entries: seq<Entry>, key: Entry -> K): set<K> {
    set e | e in entries :: key(e)
  }

  /** Every initial key and every key that occurs has its bucket. */
  function Tally<K(==)>(entries: seq<Entry>, key: Entry -> K, initial: set<K>): map<K, Bucket> {
    map k | k in initial + KeysIn(entries, key) :: BucketIn(entries, key, k)
  }

  predicate DistinctIds(entries: seq<Entry>) {
    forall i, j :: 0 <= i < j < |entries| ==> entries[i].id != entries[j].id
  }

  /** The map by id of entries whose ids are distinct. */
  function ById(entries: seq<Entry>): (m: map<Id, Entry>)
    ensures forall id :: id in m ==> m[id] in entries && m[id].id == id
    ensures forall e :: e in entries ==> e.id in m
  {
    if entries == [] then map[]
    else
      var last := entries[|entries| - 1];
      assert entries == entries[..|entries| - 1] + [last];
      ById(entries[..|entries| - 1])[last.id := last]
  }

  predicate Indexable(entries: seq<Entry>) {
    DistinctIds(entries) && forall e :: e in entries ==> NonBlank(e.id)
  }

  predicate Summable(entries: seq<Entry>) {
    && Indexable(entries)
    && (forall e :: e in entries ==> Acceptable(e, ById(entries)))
  }

  function ActionKey(byId: map<Id, Entry>): Entry -> ActionType { (e: Entry) => CountedAs(e, byId).actionType }
  function ResponsibilityKey(byId: map<Id, Entry>): Entry -> PartyType { (e: Entry) => CountedAs(e, byId).partyType }
  function ResponsibleKey(byId: map<Id, Entry>): Entry -> string { (e: Entry) => PartyKey(CountedAs(e, byId)) }
  function CategoryKey(byId: map<Id, Entry>): Entry -> CostCategory { (e: Entry) => CountedAs(e, byId).costCategory }

  function SummaryOf(entries: seq<Entry>): Summary {
    var byId := ById(entries);
    Summary(Total(entries),
            Tally(entries, ActionKey(byId), ACTION_TYPES),
            Tally(entries, ResponsibilityKey(byId), PARTY_TYPES),
            Tally(entries, ResponsibleKey(byId), {}),
            Tally(entries, CategoryKey(byId), CATEGORIES))
  }

  function EmptyBuckets<K(==)>(keys: set<K>): map<K, Bucket> {
    map k | k in keys :: Bucket(0, 0)
  }

  function AddBucket<K(==)>(buckets: map<K, Bucket>, k: K, amount: int): map<K, Bucket> {
    if k in buckets
    then buckets[k := Bucket(buckets[k].amount + amount, buckets[k].count + 1)]
    else buckets[k := Bucket(amount, 1)]
  }

  lemma {:induction false} AbsentKey<K>(entries: seq<Entry>, key: Entry -> K, k: K)
    requires k !in KeysIn(entries, key)
    ensures BucketIn(entries, key, k) == Bucket(0, 0)
  {
    if entries != [] {
      var n := |entries| - 1;
      assert key(entries[n]) in KeysIn(entries, key);
      assert forall e :: e in entries[..n] ==> e in entries;
      AbsentKey(entries[..n], key, k);
    }
  }

  lemma TallyNothing<K>(key: Entry -> K, initial: set<K>)
    ensures Tally([], key, initial) == EmptyBuckets(initial)
  {
  }

  /** Adding one entry to its bucket is what one more entry does to the tally. */
  lemma TallyOneMore<K>(entries: seq<Entry>, e: Entry, key: Entry -> K, initial: set<K>)
    ensures Tally(entries + [e], key, initial) == AddBucket(Tally(entries, key, initial), key(e), e.amount)
  {
    var more := entries + [e];
    assert more[..|more| - 1] == entries;
    if key(e) !in KeysIn(entries, key) { AbsentKey(entries, key, key(e)); }
    KeysOneMore(entries, e, key);
  }

  lemma KeysOneMore<K>(entries: seq<Entry>, e: Entry, key: Entry -> K)
    ensures KeysIn(entries + [e], key) == KeysIn(entries, key) + {key(e)}
  {
    assert e in entries + [e];
  }

  lemma IndexableOneMore(entries: seq<Entry>, e: Entry)
    ensures Indexable(entries + [e]) <==> Indexable(entries) && NonBlank(e.id) && e.id !in ById(entries)
    ensures ById(entries + [e]) == ById(entries)[e.id := e]
  {
    hide NonBlank, ById;
    var more := entries + [e];
    assert more[..|entries|] == entries && more[|entries|] == e;
    if Indexable(more) {
      assert e in more;
      forall x | x in entries
        ensures NonBlank(x.id) && x.id != e.id
      {
        assert x in more;
        var i :| 0 <= i < |entries| && entries[i] == x;
        assert more[i] == x;
      }
      forall i, j | 0 <= i < j < |entries|
        ensures entries[i].id != entries[j].id
      {
        assert more[i] == entries[i] && more[j] == entries[j];
      }
    }
    ByIdOneMore(entries, e);
  }

  lemma ByIdOneMore(entries: seq<Entry>, e: Entry)
    ensures ById(entries + [e]) == ById(entries)[e.id := e]
  {
    assert (entries + [e])[..|entries|] == entries;
  }

  lemma {:induction false} IndexablePrefix(entries: seq<Entry>, n: nat)
    requires n <= |entries| && Indexable(entries)
    ensures Indexable(entries[..n])
  {
  }

  /** Indexes the entries; a blank or repeated id is refused. */
  method IndexById(entries: seq<Entry>) returns (byId: Option<map<Id, Entry>>)
    ensures byId.Some? <==> Indexable(entries)
    ensures byId.Some? ==> byId.value == ById(entries)
  {
    hide Indexable, ById, NonBlank;
    var index: map<Id, Entry> := map[];
    assert Indexable([]) && ById([]) == map[] by { NothingIndexed(); }
    var i := 0;
    while i < |entries|
      invariant 0 <= i <= |entries|
      invariant index == ById(entries[..i]) && Indexable(entries[..i])
    {
      var entry := entries[i];
      IndexableOneMore(entries[..i], entry);
      assert entries[..i + 1] == entries[..i] + [entry];
      if !NonBlank(entry.id) || entry.id in index {
        if Indexable(entries) { IndexablePrefix(entries, i + 1); }
        return None;
      }
      index := index[entry.id := entry];
      i := i + 1;
    }
    assert entries[..i] == entries;
    return Some(index);
  }

  lemma NothingIndexed()
    ensures Indexable([]) && ById([]) == map[]
  {
  }

  method Summarize(entries: seq<Entry>) returns (summary: Option<Summary>)
    ensures summary.Some? <==> Summable(entries)
    ensures summary.Some? ==> summary.value == SummaryOf(entries)
  {
    hide Acceptable, Tally, ById, AddBucket, PartyKey, Indexable;
    var index := IndexById(entries);
    if index.None? { return None; }
    var byId := index.value;
    var total := 0;
    var byActionType, byResponsibility := EmptyBuckets(ACTION_TYPES), EmptyBuckets(PARTY_TYPES);
    var byResponsibleParty: map<string, Bucket> := map[];
    var byCategory := EmptyBuckets(CATEGORIES);
    TallyNothing(ActionKey(byId), ACTION_TYPES);
    TallyNothing(ResponsibilityKey(byId), PARTY_TYPES);
    TallyNothing(ResponsibleKey(byId), {});
    TallyNothing(CategoryKey(byId), CATEGORIES);
    var i := 0;
    while i < |entries|
      invariant 0 <= i <= |entries|
      invariant forall j :: 0 <= j < i ==> Acceptable(entries[j], byId)
      invariant total == Total(entries[..i])
      invariant byActionType == Tally(entries[..i], ActionKey(byId), ACTION_TYPES)
      invariant byResponsibility == Tally(entries[..i], ResponsibilityKey(byId), PARTY_TYPES)
      invariant byResponsibleParty == Tally(entries[..i], ResponsibleKey(byId), {})
      invariant byCategory == Tally(entries[..i], CategoryKey(byId), CATEGORIES)
    {
      var entry := entries[i];
      assert entry in entries;
      if !Acceptable(entry, byId) { return None; }
      var counted := CountedAs(entry, byId);
      assert entries[..i + 1] == entries[..i] + [entry];
      TallyOneMore(entries[..i], entry, ActionKey(byId), ACTION_TYPES);
      TallyOneMore(entries[..i], entry, ResponsibilityKey(byId), PARTY_TYPES);
      TallyOneMore(entries[..i], entry, ResponsibleKey(byId), {});
      TallyOneMore(entries[..i], entry, CategoryKey(byId), CATEGORIES);
      total := total + entry.amount;
      byActionType := AddBucket(byActionType, counted.actionType, entry.amount);
      byResponsibility := AddBucket(byResponsibility, counted.partyType, entry.amount);
      byResponsibleParty := AddBucket(byResponsibleParty, PartyKey(counted), entry.amount);
      byCategory := AddBucket(byCategory, counted.costCategory, entry.amount);
      i := i + 1;
    }
    assert entries[..i] == entries;
    return Some(Summary(total, byActionType, byResponsibility, byResponsibleParty, byCategory));
  }
}
