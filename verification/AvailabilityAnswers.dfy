/** When a vehicle is available and why not, said of its row, its periods and its restrictions alone. */
module AvailabilityAnswers {
  import opened Wrappers
  import opened AssetTypes
  import opened VehicleAvailability
  import Sorting

  /** The vehicle's status admits the purpose. */
  predicate StatusAdmits(p: Purpose, status: VehicleStatus) {
    match status
    case AVAILABLE => p != Delivery
    case RESERVED => p == Delivery
    case OTHER_STATUS => false
    case _ => p == MarkAvailable // a draft, in preparation, returned or in maintenance
  }

  /** The restriction stands against the purpose: all scopes but others block making a vehicle available. */
  predicate StandsAgainst(p: Purpose, r: OperationalRestriction) {
    r.blocking && (if p == Allocation then ALLOCATION in r.scopes
                   else if p == Delivery then DELIVERY in r.scopes
                   else ALLOCATION in r.scopes || DELIVERY in r.scopes || INVENTORY_RELEASE in r.scopes)
  }

  lemma BlocksMeans(p: Purpose, r: OperationalRestriction)
    ensures Blocks(p, r) <==> StandsAgainst(p, r)
  {
    var common := r.scopes * PurposeScopes(p);
    if common != {} {
      var x :| x in common;
    }
    assert ALLOCATION in common <==> ALLOCATION in r.scopes && ALLOCATION in PurposeScopes(p);
    assert DELIVERY in common <==> DELIVERY in r.scopes && DELIVERY in PurposeScopes(p);
    assert INVENTORY_RELEASE in common <==> INVENTORY_RELEASE in r.scopes && INVENTORY_RELEASE in PurposeScopes(p);
  }

  /** Each reason and what it says. */
  lemma ReasonsMean(p: Purpose, s: Snapshot, r: Reason)
    ensures Applies(p, s, r) ==>
      match r.code
      case ACTIVE_OPERATIONAL_RESTRICTION =>
        exists i :: 0 <= i < |s.activeRestrictions| && StandsAgainst(p, s.activeRestrictions[i])
                    && r.restrictionId == s.activeRestrictions[i].id
                    && r.sourceId == Some(s.activeRestrictions[i].sourceId)
                    && r.sourceType == Some(s.activeRestrictions[i].sourceType)
                    && r.workOrderId == s.activeRestrictions[i].workOrderId
      case _ => r == Reason(r.code, "", None, None, None)
    ensures Applies(p, s, Reason(VEHICLE_NOT_FOUND, "", None, None, None)) <==> s.vehicle.None?
    ensures Applies(p, s, Reason(VEHICLE_DELETED, "", None, None, None)) <==> s.vehicle.Some? && s.vehicle.value.deleted
    ensures Applies(p, s, Reason(LIFECYCLE_STATUS_BLOCKED, "", None, None, None))
      <==> s.vehicle.Some? && !StatusAdmits(p, s.vehicle.value.status)
    ensures Applies(p, s, Reason(SALE_PRICE_NOT_EFFECTIVE, "", None, None, None))
      <==> s.vehicle.Some? && p != Delivery && !s.vehicle.value.priceEffective
    ensures Applies(p, s, Reason(SALE_PRICE_NOT_POSITIVE, "", None, None, None))
      <==> s.vehicle.Some? && p != Delivery && !(s.vehicle.value.price.Some? && 0 < s.vehicle.value.price.value)
    ensures Applies(p, s, Reason(ACTIVE_SUBSCRIPTION_PERIOD, "", None, None, None)) <==> |s.activePeriods| > 0
  {
    hide Blocks, StandsAgainst;
    forall i | 0 <= i < |s.activeRestrictions|
      ensures Blocks(p, s.activeRestrictions[i]) <==> StandsAgainst(p, s.activeRestrictions[i])
    {
      BlocksMeans(p, s.activeRestrictions[i]);
    }
  }

  /** Every restriction that stands against the purpose is named by a reason. */
  lemma EveryRestrictionIsNamed(p: Purpose, s: Snapshot, i: nat)
    requires i < |s.activeRestrictions| && StandsAgainst(p, s.activeRestrictions[i])
    ensures exists r :: Applies(p, s, r) && r.code == ACTIVE_OPERATIONAL_RESTRICTION
                        && r.restrictionId == s.activeRestrictions[i].id
  {
    hide Blocks, StandsAgainst, AppliesPlainly;
    BlocksMeans(p, s.activeRestrictions[i]);
    var k := FirstOfId(p, s.activeRestrictions, i);
    assert Applies(p, s, RestrictionReason(s.activeRestrictions[k]));
  }

  /**
   A vehicle is available for a purpose if and only if it exists and is not deleted, its status admits the
   purpose, it has an effective positive price (not asked for delivery), no period is active, and no active
   restriction stands against the purpose.
   */
  method AvailableExactlyWhen(p: Purpose, s: Snapshot) returns (d: Decision)
    ensures d.available <==>
      && s.vehicle.Some? && !s.vehicle.value.deleted && StatusAdmits(p, s.vehicle.value.status)
      && (p != Delivery ==>
            s.vehicle.value.priceEffective && s.vehicle.value.price.Some? && 0 < s.vehicle.value.price.value)
      && |s.activePeriods| == 0
      && (forall i :: 0 <= i < |s.activeRestrictions| ==> !StandsAgainst(p, s.activeRestrictions[i]))
    ensures d.available <==> d.reasons == []
    ensures forall i :: 0 < i < |d.reasons| ==> InTextOrder(d.reasons[i - 1], d.reasons[i])
  {
    hide Applies, StandsAgainst, StatusAdmits, InTextOrder;
    d := Evaluate(p, s);
    NoneExactlyWhen(p, s);
    assert d.reasons != [] ==> d.reasons[0] in d.reasons;
    ghost var reasons := d.reasons;
    forall i | 0 < i < |reasons|
      ensures InTextOrder(reasons[i - 1], reasons[i])
    {
      OrderedIsByText(reasons, i);
    }
  }

  lemma NoneExactlyWhen(p: Purpose, s: Snapshot)
    ensures (forall r :: !Applies(p, s, r)) <==>
      && s.vehicle.Some? && !s.vehicle.value.deleted && StatusAdmits(p, s.vehicle.value.status)
      && (p != Delivery ==>
            s.vehicle.value.priceEffective && s.vehicle.value.price.Some? && 0 < s.vehicle.value.price.value)
      && |s.activePeriods| == 0
      && (forall i :: 0 <= i < |s.activeRestrictions| ==> !StandsAgainst(p, s.activeRestrictions[i]))
  {
    hide Applies, StandsAgainst, StatusAdmits;
    ReasonsMean(p, s, Reason(VEHICLE_NOT_FOUND, "", None, None, None));
    if r :| Applies(p, s, r) { ReasonsMean(p, s, r); }
    forall i | 0 <= i < |s.activeRestrictions| && StandsAgainst(p, s.activeRestrictions[i])
      ensures exists r :: Applies(p, s, r)
    {
      EveryRestrictionIsNamed(p, s, i);
    }
  }

  /* ---- The order of reasons ---- */

  function Text(c: Code): string {
    match c
    case ACTIVE_OPERATIONAL_RESTRICTION => "ACTIVE_OPERATIONAL_RESTRICTION"
    case ACTIVE_SUBSCRIPTION_PERIOD => "ACTIVE_SUBSCRIPTION_PERIOD"
    case LIFECYCLE_STATUS_BLOCKED => "LIFECYCLE_STATUS_BLOCKED"
    case SALE_PRICE_NOT_EFFECTIVE => "SALE_PRICE_NOT_EFFECTIVE"
    case SALE_PRICE_NOT_POSITIVE => "SALE_PRICE_NOT_POSITIVE"
    case VEHICLE_DELETED => "VEHICLE_DELETED"
    case VEHICLE_NOT_FOUND => "VEHICLE_NOT_FOUND"
  }

  /** Where the texts first differ, the first has the smaller character, or it has ended there. */
  ghost predicate TextBefore(a: string, b: string) {
    || (|a| < |b| && b[..|a|] == a)
    || exists i :: 0 <= i < |a| && i < |b| && a[..i] == b[..i] && a[i] < b[i]
  }

  /** By code, and restrictions by their ids. */
  ghost predicate InTextOrder(r: Reason, q: Reason) {
    TextBefore(Text(r.code), Text(q.code)) || (r.code == q.code && TextBefore(r.restrictionId, q.restrictionId))
  }

  lemma {:induction false} BeforeIsByText(a: string, b: string)
    requires Before(a, b)
    ensures TextBefore(a, b)
  {
    if a == "" {
      assert b[..|a|] == a;
    } else if a[0] < b[0] {
      assert a[..0] == b[..0];
    } else {
      BeforeIsByText(a[1..], b[1..]);
      OneCharacterMore(a, b);
    }
  }

  lemma OneCharacterMore(a: string, b: string)
    requires a != "" && b != "" && a[0] == b[0] && TextBefore(a[1..], b[1..])
    ensures TextBefore(a, b)
  {
    if |a| < |b| && b[1..][..|a| - 1] == a[1..] {
      assert b[..|a|] == [b[0]] + b[1..][..|a| - 1] && a == [a[0]] + a[1..];
    } else {
      var i :| 0 <= i < |a| - 1 && i < |b| - 1 && a[1..][..i] == b[1..][..i] && a[1..][i] < b[1..][i];
      assert a[..i + 1] == [a[0]] + a[1..][..i] && b[..i + 1] == [b[0]] + b[1..][..i];
    }
  }

  lemma DiffersAt(a: string, b: string, i: nat)
    requires i < |a| && i < |b| && a[..i] == b[..i] && a[i] < b[i]
    ensures TextBefore(a, b)
  {
  }

  lemma SharedBeginnings()
    ensures TextBefore(Text(ACTIVE_OPERATIONAL_RESTRICTION), Text(ACTIVE_SUBSCRIPTION_PERIOD))
    ensures TextBefore(Text(SALE_PRICE_NOT_EFFECTIVE), Text(SALE_PRICE_NOT_POSITIVE))
    ensures TextBefore(Text(VEHICLE_DELETED), Text(VEHICLE_NOT_FOUND))
  {
    hide TextBefore;
    SharedActive();
    DiffersAt("SALE_PRICE_NOT_EFFECTIVE", "SALE_PRICE_NOT_POSITIVE", 15);
    DiffersAt("VEHICLE_DELETED", "VEHICLE_NOT_FOUND", 8);
  }

  lemma SharedActive()
    ensures TextBefore("ACTIVE_OPERATIONAL_RESTRICTION", "ACTIVE_SUBSCRIPTION_PERIOD")
  {
    hide TextBefore;
    DiffersAt("ACTIVE_OPERATIONAL_RESTRICTION", "ACTIVE_SUBSCRIPTION_PERIOD", 7);
  }

  function Initial(c: Code): char {
    match c
    case ACTIVE_OPERATIONAL_RESTRICTION => 'A'
    case ACTIVE_SUBSCRIPTION_PERIOD => 'A'
    case LIFECYCLE_STATUS_BLOCKED => 'L'
    case SALE_PRICE_NOT_EFFECTIVE => 'S'
    case SALE_PRICE_NOT_POSITIVE => 'S'
    case VEHICLE_DELETED => 'V'
    case VEHICLE_NOT_FOUND => 'V'
  }

  lemma TextsStart(c: Code)
    ensures Text(c) != "" && Text(c)[0] == Initial(c)
  {
  }

  lemma RankIsByText(a: Code, b: Code)
    requires Rank(a) < Rank(b)
    ensures TextBefore(Text(a), Text(b))
  {
    hide TextBefore, Text;
    SharedBeginnings();
    TextsStart(a);
    TextsStart(b);
    if Initial(a) < Initial(b) {
      assert Text(a)[..0] == Text(b)[..0];
      DiffersAt(Text(a), Text(b), 0);
    }
  }

  lemma OrderedIsByText(rs: seq<Reason>, i: nat)
    requires Ordered(rs) && 0 < i < |rs|
    ensures InTextOrder(rs[i - 1], rs[i])
  {
    hide TextBefore, Rank, Text;
    var r, q := rs[i - 1], rs[i];
    AdjacentIsOrdered(rs, i);
    if Rank(r.code) < Rank(q.code) {
      RankIsByText(r.code, q.code);
    } else {
      BeforeIsByText(r.restrictionId, q.restrictionId);
    }
  }

  lemma {:induction false} AdjacentIsOrdered(rs: seq<Reason>, i: nat)
    requires Ordered(rs) && 0 < i < |rs|
    ensures Precedes(rs[i - 1], rs[i])
  {
    hide Precedes;
    if i > 1 { AdjacentIsOrdered(rs[1..], i - 1); }
  }
}
