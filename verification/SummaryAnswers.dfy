/** What a summary shows and which listings it refuses, said of the entries alone. */
module SummaryAnswers {
  import opened Wrappers
  import opened AssetTypes
  import opened CostLedger
  import opened CostSummary

  /** Every action type, party type and category has its bucket, and so has every responsible party that occurs. */
  lemma EveryKeyIsThere(entries: seq<Entry>)
    ensures var s := SummaryOf(entries);
      && (forall t: ActionType :: t in s.byActionType) && (forall t: PartyType :: t in s.byResponsibility)
      && (forall t: CostCategory :: t in s.byCategory)
      && (forall k ::
            k in s.byResponsibleParty <==> exists e :: e in entries && PartyKey(CountedAs(e, ById(entries))) == k)
  {
    hide PartyKey, CountedAs, ById;
    var s, key := SummaryOf(entries), ResponsibleKey(ById(entries));
    forall t: ActionType
      ensures t in s.byActionType
    {
      assert t.ActualCost? || t.ResponsibilityConfirmed? || t.RecoveryExposure?
        || t.RecoveryReceived? || t.Waiver? || t.WriteOff?;
      assert t in ACTION_TYPES;
    }
    forall t: PartyType
      ensures t in s.byResponsibility
    {
      assert t.Customer? || t.Insurer? || t.Supplier? || t.AssetOwner? || t.Platform? || t.OtherParty?;
      assert t in PARTY_TYPES;
    }
    forall t: CostCategory
      ensures t in s.byCategory
    {
      assert t.Damage? || t.Cleaning? || t.Repair? || t.Maintenance? || t.ExcessMileage?
        || t.Violation? || t.Towing? || t.Insurance? || t.Baas? || t.Depreciation? || t.OtherCost?;
      assert t in CATEGORIES;
    }
    forall k
      ensures k in s.byResponsibleParty <==> exists e :: e in entries && PartyKey(CountedAs(e, ById(entries))) == k
    {
      assert k in s.byResponsibleParty <==> k in KeysIn(entries, key);
    }
  }

  /** The name of the party type, a colon, and the id of the party if there is one. */
  lemma PartiesAreNamed(f: Facts)
    ensures PartyKey(f) == (match f.partyType
        case Customer => "CUSTOMER:"
        case Insurer => "INSURER:"
        case Supplier => "SUPPLIER:"
        case AssetOwner => "ASSET_OWNER:"
        case Platform => "PLATFORM:"
        case OtherParty => "OTHER:") + (match f.partyId case Some(id) => id case None => "")
  {
  }

  /**
   A listing is refused exactly if an id is blank or there twice, a vehicle is blank, a period is none, an
   original is not positive or reverses something, or a reversal is not negative or does not cancel an original
   of the listing.
   */
  lemma AcceptedExactlyWhen(entries: seq<Entry>)
    ensures Summable(entries) <==>
      && (forall i, j :: 0 <= i < j < |entries| ==> entries[i].id != entries[j].id)
      && (forall e :: e in entries ==> Sound(entries, e))
  {
    hide NonBlank, ValidPeriod;
    if forall i, j :: 0 <= i < j < |entries| ==> entries[i].id != entries[j].id {
      forall e | e in entries
        ensures NonBlank(e.id) && Acceptable(e, ById(entries)) <==> Sound(entries, e)
      {
        SoundMeans(entries, e);
      }
    }
  }

  ghost predicate Sound(entries: seq<Entry>, e: Entry) {
    && NonBlank(e.id) && NonBlank(e.facts.vehicleId) && ValidPeriod(e.facts.accountingPeriod)
    && match (e.kind, e.reversalOf)
       case (Original, None) => 0 < e.amount
       case (Reversal, Some(id)) =>
         && e.amount < 0 && NonBlank(id)
         && exists o :: o in entries && o.id == id && o.kind == Original && e.amount + o.amount == 0
       case _ => false
  }

  lemma SoundMeans(entries: seq<Entry>, e: Entry)
    requires DistinctIds(entries) && e in entries
    ensures NonBlank(e.id) && Acceptable(e, ById(entries)) <==> Sound(entries, e)
  {
    hide NonBlank, ValidPeriod, ById;
    if e.reversalOf.Some? {
      var id := e.reversalOf.value;
      if o :| o in entries && o.id == id && o.kind == Original && e.amount + o.amount == 0 { ByIdFinds(entries, o); }
      if id in ById(entries) { assert ById(entries)[id] in entries; }
    }
  }

  /** The four dimensions, and what is added up. */
  lemma DimensionsMean(f: Facts, e: Entry)
    ensures ActionOf()(f) == f.actionType && PartyTypeOf()(f) == f.partyType && CategoryOf()(f) == f.costCategory
    ensures PartyOf()(f) == PartyKey(f) && Amount()(e) == e.amount
  {
  }

  /** What a bucket is the sum of: the listed originals under its key that nothing reverses. */
  lemma StandingMeans<K(!new)>(ledger: Ledger, filter: Filter, f: Facts -> K, k: K, e: Entry)
    ensures e in Standing(ledger, filter, f, k) <==>
      && (exists id :: id in ledger && ledger[id] == e) && e.kind == Original && f(e.facts) == k
      && (match filter
          case All => true
          case OfVehicle(id) => e.facts.vehicleId == id
          case OfOrder(id) => e.facts.orderId == Some(id)
          case OfWorkOrder(id) => e.facts.workOrderId == Some(id))
      && !exists r :: r in ledger && ledger[r].kind == Reversal && ledger[r].reversalOf == Some(e.id)
  {
  }
}
