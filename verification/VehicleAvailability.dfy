/**
 Whether a vehicle may be allocated, delivered or marked available, and all the reasons why not;
 and the query that selects allocatable vehicles directly in the database.
 */
module VehicleAvailability {
  import opened Wrappers
  import opened AssetTypes
  import AssetFacts
  import Sorting

  datatype Purpose = Allocation | Delivery | MarkAvailable

  datatype Scope = ALLOCATION | DELIVERY | INVENTORY_RELEASE | OTHER_SCOPE

  datatype VehicleStatus = DRAFT | IN_PREPARATION | AVAILABLE | RESERVED | RETURNED | MAINTENANCE | OTHER_STATUS

  datatype Vehicle = Vehicle(id: Id, status: VehicleStatus, deleted: bool, priceEffective: bool, price: Option<int>)

  datatype OperationalRestriction = OperationalRestriction(
    id: Id, vehicleId: Id, blocking: bool, scopes: set<Scope>, active: bool, startedAt: Moment,
    sourceId: Id, sourceType: string, workOrderId: Option<Id>)

  datatype Snapshot = Snapshot(
    vehicle: Option<Vehicle>, activePeriods: seq<Id>, activeRestrictions: seq<OperationalRestriction>)

  /** In the order of their texts. */
  datatype Code =
    | ACTIVE_OPERATIONAL_RESTRICTION | ACTIVE_SUBSCRIPTION_PERIOD | LIFECYCLE_STATUS_BLOCKED
    | SALE_PRICE_NOT_EFFECTIVE | SALE_PRICE_NOT_POSITIVE | VEHICLE_DELETED | VEHICLE_NOT_FOUND

  function Rank(c: Code): int {
    match c
    case ACTIVE_OPERATIONAL_RESTRICTION => 0
    case ACTIVE_SUBSCRIPTION_PERIOD => 1
    case LIFECYCLE_STATUS_BLOCKED => 2
    case SALE_PRICE_NOT_EFFECTIVE => 3
    case SALE_PRICE_NOT_POSITIVE => 4
    case VEHICLE_DELETED => 5
    case VEHICLE_NOT_FOUND => 6
  }

  datatype Reason = Reason(
    code: Code, restrictionId: Id, sourceId: Option<Id>, sourceType: Option<string>, workOrderId: Option<Id>)

  datatype Decision = Decision(available: bool, purpose: Purpose, reasons: seq<Reason>)

  function Plain(code: Code): Reason { Reason(code, "", None, None, None) }

  function RestrictionReason(r: OperationalRestriction): Reason {
    Reason(ACTIVE_OPERATIONAL_RESTRICTION, r.id, Some(r.sourceId), Some(r.sourceType), r.workOrderId)
  }

  function PurposeStatuses(p: Purpose): set<VehicleStatus> {
    match p
    case Allocation => {AVAILABLE}
    case Delivery => {RESERVED}
    case MarkAvailable => {DRAFT, IN_PREPARATION, RETURNED, MAINTENANCE, AVAILABLE}
  }

  function PurposeScopes(p: Purpose): set<Scope> {
    match p
    case Allocation => {ALLOCATION}
    case Delivery => {DELIVERY}
    case MarkAvailable => {ALLOCATION, DELIVERY, INVENTORY_RELEASE}
  }

  predicate Blocks(p: Purpose, r: OperationalRestriction) { r.blocking && r.scopes * PurposeScopes(p) != {} }

  /* ---- What counts against the vehicle ---- */

  /** A reason that does not come from a restriction. */
  predicate AppliesPlainly(p: Purpose, s: Snapshot, code: Code) {
    match code
    case VEHICLE_NOT_FOUND => s.vehicle.None?
    case VEHICLE_DELETED => s.vehicle.Some? && s.vehicle.value.deleted
    case LIFECYCLE_STATUS_BLOCKED => s.vehicle.Some? && s.vehicle.value.status !in PurposeStatuses(p)
    case SALE_PRICE_NOT_EFFECTIVE => s.vehicle.Some? && !p.Delivery? && !s.vehicle.value.priceEffective
    case SALE_PRICE_NOT_POSITIVE =>
      s.vehicle.Some? && !p.Delivery? && (s.vehicle.value.price.None? || s.vehicle.value.price.value <= 0)
    case ACTIVE_SUBSCRIPTION_PERIOD => s.activePeriods != []
    case ACTIVE_OPERATIONAL_RESTRICTION => false
  }

  /** The first listed restriction of its id that blocks the purpose. */
  predicate FirstBlocking(p: Purpose, restrictions: seq<OperationalRestriction>, i: int) {
    && 0 <= i < |restrictions| && Blocks(p, restrictions[i])
    && forall j :: 0 <= j < i && Blocks(p, restrictions[j]) ==> restrictions[j].id != restrictions[i].id
  }

  /** Exactly the reasons of a decision. */
  predicate Applies(p: Purpose, s: Snapshot, r: Reason) {
    || (AppliesPlainly(p, s, r.code) && r == Plain(r.code))
    || exists i :: 0 <= i < |s.activeRestrictions| && FirstBlocking(p, s.activeRestrictions, i)
                   && r == RestrictionReason(s.activeRestrictions[i])
  }

  /* ---- The order of reasons ---- */

  predicate SameKey(r: Reason, q: Reason) { r.code == q.code && r.restrictionId == q.restrictionId }

  predicate Precedes(r: Reason, q: Reason) {
    Rank(r.code) < Rank(q.code) || (r.code == q.code && Before(r.restrictionId, q.restrictionId))
  }

  function ReasonOrder(): (Reason, Reason) -> bool { (r: Reason, q: Reason) => Precedes(r, q) }

  predicate Ordered(rs: seq<Reason>) { Sorting.Increasing(rs, ReasonOrder()) }

  predicate DistinctKeys(rs: seq<Reason>) { forall i, j :: 0 <= i < j < |rs| ==> !SameKey(rs[i], rs[j]) }

  lemma PrecedesIsTotal(r: Reason, q: Reason)
    ensures SameKey(r, q) || Precedes(r, q) || Precedes(q, r)
  {
    BeforeIsTotal(r.restrictionId, q.restrictionId);
  }

  function SortReasons(rs: seq<Reason>): seq<Reason> { Sorting.Sort(rs, ReasonOrder()) }

  lemma SortIsOrdered(rs: seq<Reason>)
    requires DistinctKeys(rs)
    ensures Ordered(SortReasons(rs))
    ensures forall q :: q in SortReasons(rs) <==> q in rs
    ensures SortReasons(rs) == [] <==> rs == []
  {
    hide Precedes, SameKey;
    forall i, j | 0 <= i < j < |rs|
      ensures ReasonOrder()(rs[i], rs[j]) || ReasonOrder()(rs[j], rs[i])
    {
      PrecedesIsTotal(rs[i], rs[j]);
    }
    Sorting.SortIsIncreasing(rs, ReasonOrder());
    Sorting.SortKeepsElements(rs, ReasonOrder());
  }

  /* ---- The evaluation ---- */

  /** Adds a reason unless one of its key is there. */
  function Add(rs: seq<Reason>, r: Reason): seq<Reason> {
    if exists q :: q in rs && SameKey(q, r) then rs else rs + [r]
  }

  /** The reasons found so far: the plain ones, and those of the first restrictions. */
  ghost predicate Collected(p: Purpose, s: Snapshot, rs: seq<Reason>, n: nat) {
    && n <= |s.activeRestrictions| && DistinctKeys(rs)
    && forall r :: r in rs <==> (AppliesPlainly(p, s, r.code) && r == Plain(r.code)) || FromFirst(p, s, r, n)
  }

  predicate FromFirst(p: Purpose, s: Snapshot, r: Reason, n: nat) {
    exists i :: 0 <= i < n && FirstBlocking(p, s.activeRestrictions, i)
      && r == RestrictionReason(s.activeRestrictions[i])
  }

  /** The plain reasons among the given codes. */
  ghost predicate PlainOnly(p: Purpose, s: Snapshot, rs: seq<Reason>, codes: set<Code>) {
    && DistinctKeys(rs)
    && forall r :: r in rs <==> r.code in codes && AppliesPlainly(p, s, r.code) && r == Plain(r.code)
  }

  lemma AddMeans(rs: seq<Reason>, r: Reason)
    requires DistinctKeys(rs)
    ensures DistinctKeys(Add(rs, r))
    ensures (exists q :: q in rs && SameKey(q, r)) ==> Add(rs, r) == rs
    ensures !(exists q :: q in rs && SameKey(q, r)) ==> forall q :: q in Add(rs, r) <==> q in rs || q == r
  {
    if !(exists q :: q in rs && SameKey(q, r)) {
      var more := rs + [r];
      forall i, j | 0 <= i < j < |more|
        ensures !SameKey(more[i], more[j])
      {
        assert more[i] == rs[i] && rs[i] in rs;
      }
    }
  }

  /** Looking at one more code: its reason is added if it applies. */
  lemma OneMoreCode(p: Purpose, s: Snapshot, rs: seq<Reason>, codes: set<Code>, code: Code)
    requires PlainOnly(p, s, rs, codes) && code !in codes
    ensures PlainOnly(p, s, if AppliesPlainly(p, s, code) then Add(rs, Plain(code)) else rs, codes + {code})
  {
    hide AppliesPlainly, DistinctKeys, Add;
    if AppliesPlainly(p, s, code) { AddMeans(rs, Plain(code)); }
  }

  /** Looking at one more restriction. */
  lemma OneMoreRestriction(p: Purpose, s: Snapshot, rs: seq<Reason>, n: nat)
    requires Collected(p, s, rs, n) && n < |s.activeRestrictions|
    ensures var r := s.activeRestrictions[n];
      Collected(p, s, if Blocks(p, r) then Add(rs, RestrictionReason(r)) else rs, n + 1)
  {
    hide Blocks, DistinctKeys, Add, AppliesPlainly;
    var r := s.activeRestrictions[n];
    if Blocks(p, r) {
      AddMeans(rs, RestrictionReason(r));
      KnownMeansNotFirst(p, s, rs, n);
    }
    forall q
      ensures FromFirst(p, s, q, n + 1)
        <==> FromFirst(p, s, q, n) || (FirstBlocking(p, s.activeRestrictions, n) && q == RestrictionReason(r))
    {
    }
    assert !Blocks(p, r) ==> !FirstBlocking(p, s.activeRestrictions, n);
  }

  /** A reason with this restriction's key is there exactly if an earlier restriction of its id blocks. */
  lemma KnownMeansNotFirst(p: Purpose, s: Snapshot, rs: seq<Reason>, n: nat)
    requires Collected(p, s, rs, n) && n < |s.activeRestrictions| && Blocks(p, s.activeRestrictions[n])
    ensures (exists q :: q in rs && SameKey(q, RestrictionReason(s.activeRestrictions[n])))
      <==> !FirstBlocking(p, s.activeRestrictions, n)
  {
    hide Blocks, DistinctKeys;
    var r := RestrictionReason(s.activeRestrictions[n]);
    if !FirstBlocking(p, s.activeRestrictions, n) {
      var j :| 0 <= j < n && Blocks(p, s.activeRestrictions[j])
        && s.activeRestrictions[j].id == s.activeRestrictions[n].id;
      var k := FirstOfId(p, s.activeRestrictions, j);
      assert FromFirst(p, s, RestrictionReason(s.activeRestrictions[k]), n);
      assert RestrictionReason(s.activeRestrictions[k]) in rs && SameKey(RestrictionReason(s.activeRestrictions[k]), r);
    }
  }

  lemma {:induction false} FirstOfId(p: Purpose, restrictions: seq<OperationalRestriction>, j: nat) returns (k: nat)
    requires j < |restrictions| && Blocks(p, restrictions[j])
    ensures k <= j && FirstBlocking(p, restrictions, k) && restrictions[k].id == restrictions[j].id
  {
    hide Blocks;
    if FirstBlocking(p, restrictions, j) {
      k := j;
    } else {
      var i :| 0 <= i < j && Blocks(p, restrictions[i]) && restrictions[i].id == restrictions[j].id;
      k := FirstOfId(p, restrictions, i);
    }
  }

  lemma PlainIsCollected(p: Purpose, s: Snapshot, rs: seq<Reason>, codes: set<Code>)
    requires PlainOnly(p, s, rs, codes)
    requires forall c: Code :: c in codes || c.ACTIVE_OPERATIONAL_RESTRICTION?
    ensures Collected(p, s, rs, 0)
  {
    hide DistinctKeys;
  }

  lemma CollectedIsAll(p: Purpose, s: Snapshot, rs: seq<Reason>, r: Reason)
    requires Collected(p, s, rs, |s.activeRestrictions|)
    ensures r in rs <==> Applies(p, s, r)
  {
    hide DistinctKeys, Blocks, AppliesPlainly;
  }

  /**
   The decision lists exactly the reasons that apply, each once, in order; the vehicle is
   available exactly if there are none.
   */
  method Evaluate(p: Purpose, s: Snapshot) returns (d: Decision)
    ensures d.purpose == p && (d.available <==> forall r :: !Applies(p, s, r))
    ensures forall r :: r in d.reasons <==> Applies(p, s, r)
    ensures Ordered(d.reasons)
  {
    hide DistinctKeys, Add, Applies, Blocks, Collected, PlainOnly;
    var rs: seq<Reason> := [];
    assert PlainOnly(p, s, rs, {}) by { NoReasonsYet(p, s); }
    if s.vehicle.None? { rs := Add(rs, Plain(VEHICLE_NOT_FOUND)); }
    OneMoreCode(p, s, [], {}, VEHICLE_NOT_FOUND);
    assert {} + {VEHICLE_NOT_FOUND} == {VEHICLE_NOT_FOUND};
    rs := AddVehicleReasons(p, s, rs);
    ghost var codes := {
      VEHICLE_NOT_FOUND, VEHICLE_DELETED, LIFECYCLE_STATUS_BLOCKED, SALE_PRICE_NOT_EFFECTIVE, SALE_PRICE_NOT_POSITIVE};
    OneMoreCode(p, s, rs, codes, ACTIVE_SUBSCRIPTION_PERIOD);
    if s.activePeriods != [] { rs := Add(rs, Plain(ACTIVE_SUBSCRIPTION_PERIOD)); }
    PlainIsCollected(p, s, rs, codes + {ACTIVE_SUBSCRIPTION_PERIOD});
    var n := 0;
    while n < |s.activeRestrictions|
      invariant 0 <= n <= |s.activeRestrictions| && Collected(p, s, rs, n)
    {
      var r := s.activeRestrictions[n];
      OneMoreRestriction(p, s, rs, n);
      if Blocks(p, r) { rs := Add(rs, RestrictionReason(r)); }
      n := n + 1;
    }
    forall r
      ensures r in rs <==> Applies(p, s, r)
    {
      CollectedIsAll(p, s, rs, r);
    }
    assert DistinctKeys(rs) by { CollectedIsDistinct(p, s, rs, n); }
    SortIsOrdered(rs);
    var sorted := SortReasons(rs);
    assert rs != [] ==> rs[0] in rs;
    d := Decision(sorted == [], p, sorted);
  }

  lemma NoReasonsYet(p: Purpose, s: Snapshot)
    ensures PlainOnly(p, s, [], {})
  {
  }

  lemma CollectedIsDistinct(p: Purpose, s: Snapshot, rs: seq<Reason>, n: nat)
    requires Collected(p, s, rs, n)
    ensures DistinctKeys(rs)
  {
  }

  /** The reasons read off the vehicle row; there are none for a missing vehicle. */
  method AddVehicleReasons(p: Purpose, s: Snapshot, before: seq<Reason>) returns (rs: seq<Reason>)
    requires PlainOnly(p, s, before, {VEHICLE_NOT_FOUND})
    ensures PlainOnly(p, s, rs, {VEHICLE_NOT_FOUND, VEHICLE_DELETED, LIFECYCLE_STATUS_BLOCKED,
                                 SALE_PRICE_NOT_EFFECTIVE, SALE_PRICE_NOT_POSITIVE})
  {
    hide PlainOnly, Add;
    rs := before;
    OneMoreCode(p, s, rs, {VEHICLE_NOT_FOUND}, VEHICLE_DELETED);
    if s.vehicle.Some? && s.vehicle.value.deleted { rs := Add(rs, Plain(VEHICLE_DELETED)); }
    ghost var codes := {VEHICLE_NOT_FOUND} + {VEHICLE_DELETED};
    OneMoreCode(p, s, rs, codes, LIFECYCLE_STATUS_BLOCKED);
    if s.vehicle.Some? && s.vehicle.value.status !in PurposeStatuses(p) {
      rs := Add(rs, Plain(LIFECYCLE_STATUS_BLOCKED));
    }
    codes := codes + {LIFECYCLE_STATUS_BLOCKED};
    OneMoreCode(p, s, rs, codes, SALE_PRICE_NOT_EFFECTIVE);
    if s.vehicle.Some? && !p.Delivery? && !s.vehicle.value.priceEffective {
      rs := Add(rs, Plain(SALE_PRICE_NOT_EFFECTIVE));
    }
    codes := codes + {SALE_PRICE_NOT_EFFECTIVE};
    OneMoreCode(p, s, rs, codes, SALE_PRICE_NOT_POSITIVE);
    if s.vehicle.Some? && !p.Delivery? && (s.vehicle.value.price.None? || s.vehicle.value.price.value <= 0) {
      rs := Add(rs, Plain(SALE_PRICE_NOT_POSITIVE));
    }
    assert codes + {SALE_PRICE_NOT_POSITIVE} == {VEHICLE_NOT_FOUND, VEHICLE_DELETED, LIFECYCLE_STATUS_BLOCKED,
                                                 SALE_PRICE_NOT_EFFECTIVE, SALE_PRICE_NOT_POSITIVE};
  }

  /* ---- The same question asked in the database ---- */

  datatype Tables = Tables(
    vehicles: map<Id, Vehicle>, periods: AssetFacts.Periods, restrictions: map<Id, OperationalRestriction>)

  /** What the availability snapshot of a vehicle holds at an instant. */
  ghost predicate Loads(s: Snapshot, t: Tables, v: Id, asOf: Moment) {
    && s.vehicle == (if v in t.vehicles then Some(t.vehicles[v]) else None)
    && (forall id :: id in s.activePeriods <==>
          id in t.periods && t.periods[id].vehicleId == v && AssetFacts.ActiveAt(t.periods[id], asOf))
    && (forall r :: r in s.activeRestrictions <==>
          r.id in t.restrictions && t.restrictions[r.id] == r && r.vehicleId == v && r.active && r.startedAt <= asOf)
  }

  /** The filter of the allocation query. */
  predicate AllocationQuery(t: Tables, v: Id, asOf: Moment) {
    && !(exists id :: id in t.restrictions && t.restrictions[id].vehicleId == v
           && ALLOCATION in t.restrictions[id].scopes && t.restrictions[id].blocking
           && t.restrictions[id].startedAt <= asOf && t.restrictions[id].active)
    && !(exists id :: id in t.periods && t.periods[id].vehicleId == v
           && (t.periods[id].ending.None? || t.periods[id].ending.value.at > asOf) && t.periods[id].startedAt <= asOf)
  }

  lemma {:induction false} SomeBlockingHasFirst(p: Purpose, s: Snapshot, i: nat)
    requires i < |s.activeRestrictions| && Blocks(p, s.activeRestrictions[i])
    ensures exists r :: Applies(p, s, r) && r.code.ACTIVE_OPERATIONAL_RESTRICTION?
  {
    hide Blocks, AppliesPlainly;
    var k := FirstOfId(p, s.activeRestrictions, i);
    assert Applies(p, s, RestrictionReason(s.activeRestrictions[k]));
  }

  /** What the evaluation says about periods and restrictions. */
  lemma EvaluationOfPeriodsAndRestrictions(p: Purpose, s: Snapshot)
    ensures (exists r :: Applies(p, s, r) && r.code.ACTIVE_SUBSCRIPTION_PERIOD?) <==> s.activePeriods != []
    ensures (exists r :: Applies(p, s, r) && r.code.ACTIVE_OPERATIONAL_RESTRICTION?)
      <==> exists i :: 0 <= i < |s.activeRestrictions| && Blocks(p, s.activeRestrictions[i])
  {
    hide Blocks;
    if s.activePeriods != [] { assert Applies(p, s, Plain(ACTIVE_SUBSCRIPTION_PERIOD)); }
    if i :| 0 <= i < |s.activeRestrictions| && Blocks(p, s.activeRestrictions[i]) { SomeBlockingHasFirst(p, s, i); }
  }

  /** Rows the query looks for are rows of the snapshot. */
  lemma QueryReadsTheSnapshot(s: Snapshot, t: Tables, v: Id, asOf: Moment)
    requires Loads(s, t, v, asOf) && forall id :: id in t.restrictions ==> t.restrictions[id].id == id
    ensures AllocationQuery(t, v, asOf)
      <==> s.activePeriods == []
           && forall i :: 0 <= i < |s.activeRestrictions| ==> !Blocks(Allocation, s.activeRestrictions[i])
  {
    if s.activePeriods != [] { assert s.activePeriods[0] in s.activePeriods; }
    if i :| 0 <= i < |s.activeRestrictions| && Blocks(Allocation, s.activeRestrictions[i]) {
      assert s.activeRestrictions[i] in s.activeRestrictions;
    }
    if id :| id in t.restrictions && t.restrictions[id].vehicleId == v && ALLOCATION in t.restrictions[id].scopes
             && t.restrictions[id].blocking && t.restrictions[id].startedAt <= asOf && t.restrictions[id].active {
      assert t.restrictions[id] in s.activeRestrictions;
      assert ALLOCATION in t.restrictions[id].scopes * PurposeScopes(Allocation);
    }
  }

  /**
   The allocation query selects a vehicle exactly when the evaluation of its snapshot for
   allocation gives neither a subscription-period reason nor a restriction reason.
   */
  lemma QueryAgreesWithEvaluation(s: Snapshot, t: Tables, v: Id, asOf: Moment)
    requires Loads(s, t, v, asOf) && forall id :: id in t.restrictions ==> t.restrictions[id].id == id
    ensures AllocationQuery(t, v, asOf)
      <==> forall r :: Applies(Allocation, s, r) ==>
             !r.code.ACTIVE_SUBSCRIPTION_PERIOD? && !r.code.ACTIVE_OPERATIONAL_RESTRICTION?
  {
    hide Loads, AllocationQuery, Applies, Blocks;
    QueryReadsTheSnapshot(s, t, v, asOf);
    EvaluationOfPeriodsAndRestrictions(Allocation, s);
  }
}
