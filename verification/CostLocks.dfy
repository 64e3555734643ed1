/** Which rows the cost commands lock, and in which order, table by table. */
module CostLocks {
  import opened Wrappers
  import opened AssetTypes
  import opened LockOrder

  /** The rows an append needs: all for sharing but the closure case. */
  predicate AppendNeeds(c: CostCommand, k: Lock)
    requires c.Append?
  {
    match k.table
    case SubscriptionClosureCase => k.update && c.closureCase == Some(k.id)
    case SubscriptionOrder => !k.update && (c.order == Some(k.id) || c.authoritativeOrder == Some(k.id))
    case Vehicle => !k.update && c.vehicle == k.id
    case Contract => !k.update && c.contract == Some(k.id)
    case AssetWorkOrder => !k.update && c.workOrder == Some(k.id)
    case AssetOwner => !k.update && (c.assetOwner == Some(k.id) || c.responsibleOwner == Some(k.id))
    case AssetWorkOrderEvidence => !k.update && c.evidence == Some(k.id)
    case Customer => !k.update && (c.customer == Some(k.id) || c.responsibleCustomer == Some(k.id))
    case User => !k.update && c.actor == k.id
  }

  /** The rows a reversal needs: the closure case and the work order for update, and the user. */
  predicate ReverseNeeds(c: CostCommand, k: Lock)
    requires c.Reverse?
  {
    match k.table
    case SubscriptionClosureCase => k.update && c.closureCase == Some(k.id)
    case AssetWorkOrder => k.update && c.workOrder == Some(k.id)
    case User => !k.update && c.actor == k.id
    case _ => false
  }

  lemma RequestsOfAppend(c: CostCommand, r: Option<Lock>)
    requires c.Append?
    ensures r in Requests(c) && r.Some? <==> r.Some? && AppendNeeds(c, r.value)
  {
    if r.Some? && AppendNeeds(c, r.value) {
      var n := match r.value.table
        case SubscriptionClosureCase => 0
        case SubscriptionOrder => if c.order == Some(r.value.id) then 8 else 7
        case Vehicle => 10
        case Contract => 4
        case AssetWorkOrder => 2
        case AssetOwner => if c.assetOwner == Some(r.value.id) then 1 else 11
        case AssetWorkOrderEvidence => 3
        case Customer => if c.customer == Some(r.value.id) then 6 else 5
        case User => 9;
      assert Requests(c)[n] == r;
    }
  }

  lemma RequestsOfReverse(c: CostCommand, r: Option<Lock>)
    requires c.Reverse?
    ensures r in Requests(c) && r.Some? <==> r.Some? && ReverseNeeds(c, r.value)
  {
    if r.Some? && ReverseNeeds(c, r.value) {
      var n := match r.value.table case SubscriptionClosureCase => 0 case AssetWorkOrder => 1 case _ => 2;
      assert Requests(c)[n] == r;
    }
  }

  lemma OneModeEach(c: CostCommand, table: Table, id: Id, update: bool)
    ensures Asks(Requests(c), table, id) && (update <==> AsksUpdate(Requests(c), table, id))
      <==> if c.Append? then AppendNeeds(c, Lock(table, id, update)) else ReverseNeeds(c, Lock(table, id, update))
  {
    hide Requests;
    var shared, updated := Some(Lock(table, id, false)), Some(Lock(table, id, true));
    if c.Append? {
      RequestsOfAppend(c, shared);
      RequestsOfAppend(c, updated);
    } else {
      RequestsOfReverse(c, shared);
      RequestsOfReverse(c, updated);
    }
    if Asks(Requests(c), table, id) {
      var r :| r in Requests(c) && r.Some? && r.value.table == table && r.value.id == id;
      assert r == shared || r == updated;
    }
    if shared in Requests(c) || updated in Requests(c) { assert Asks(Requests(c), table, id); }
  }

  /** A command locks exactly the rows it needs, each in the mode it needs. */
  method LocksExactly(c: CostCommand) returns (locks: seq<Lock>)
    ensures Takes(c, locks)
    ensures forall k :: k in locks <==> if c.Append? then AppendNeeds(c, k) else ReverseNeeds(c, k)
  {
    hide Asks, AsksUpdate, InOrder, AppendNeeds, ReverseNeeds;
    locks := LockCostRows(c);
    forall k
      ensures k in locks <==> if c.Append? then AppendNeeds(c, k) else ReverseNeeds(c, k)
    {
      OneModeEach(c, k.table, k.id, k.update);
    }
  }

  /* ---- The two orders ---- */

  /** The place of a table in the order of commands that join a caller's own locks. */
  function PlaceByRank(t: Table): nat {
    match t
    case SubscriptionClosureCase => 0
    case SubscriptionOrder => 1
    case Vehicle => 2
    case Contract => 3
    case AssetWorkOrder => 4
    case AssetOwner => 5
    case AssetWorkOrderEvidence => 6
    case Customer => 7
    case User => 8
  }

  /** The place of a table in the order of table names. */
  function PlaceByName(t: Table): nat {
    match t
    case AssetOwner => 0
    case AssetWorkOrder => 1
    case AssetWorkOrderEvidence => 2
    case Contract => 3
    case Customer => 4
    case SubscriptionClosureCase => 5
    case SubscriptionOrder => 6
    case User => 7
    case Vehicle => 8
  }

  lemma RankedTablesAreInOrder(a: Lock, b: Lock)
    ensures a.table != b.table ==> (Ahead(a, b, true) <==> PlaceByRank(a.table) < PlaceByRank(b.table))
  {
    hide Before, Name;
  }

  function NextByName(t: Table): Table
    requires t != Vehicle
  {
    match t
    case AssetOwner => AssetWorkOrder
    case AssetWorkOrder => AssetWorkOrderEvidence
    case AssetWorkOrderEvidence => Contract
    case Contract => Customer
    case Customer => SubscriptionClosureCase
    case SubscriptionClosureCase => SubscriptionOrder
    case SubscriptionOrder => User
    case User => Vehicle
  }

  lemma {:induction false} SharedBeginning(a: string, b: string, n: nat)
    requires n <= |a| && n <= |b| && a[..n] == b[..n] && Before(a[n..], b[n..])
    ensures Before(a, b)
    decreases n
  {
    if n > 0 {
      assert a[0] == a[..n][0] == b[..n][0] == b[0];
      assert a[1..][..n - 1] == a[..n][1..] == b[..n][1..] == b[1..][..n - 1];
      assert a[1..][n - 1..] == a[n..] && b[1..][n - 1..] == b[n..];
      SharedBeginning(a[1..], b[1..], n - 1);
    } else {
      assert a[0..] == a && b[0..] == b;
    }
  }

  lemma SmallerAt(a: string, b: string, n: nat)
    requires n < |a| && n < |b| && a[..n] == b[..n] && a[n] < b[n]
    ensures Before(a, b)
  {
    assert Before(a[n..], b[n..]);
    SharedBeginning(a, b, n);
  }

  lemma LongerIsLater(a: string, b: string)
    requires |a| < |b| && b[..|a|] == a
    ensures Before(a, b)
  {
    assert a[..|a|] == a && Before(a[|a|..], b[|a|..]);
    SharedBeginning(a, b, |a|);
  }

  lemma AssetNamesAscend()
    ensures Before("asset_owner", "asset_work_order")
    ensures Before("asset_work_order", "asset_work_order_evidence")
  {
    hide Before;
    SmallerAt("asset_owner", "asset_work_order", 6);
    LongerIsLater("asset_work_order", "asset_work_order_evidence");
  }

  lemma SubscriptionNamesAscend()
    ensures Before("subscription_closure_case", "subscription_order")
  {
    hide Before;
    SmallerAt("subscription_closure_case", "subscription_order", 13);
  }

  lemma NamesAscend(t: Table)
    requires t != Vehicle
    ensures Before(Name(t), Name(NextByName(t)))
  {
    hide Before;
    AssetNamesAscend();
    SubscriptionNamesAscend();
    match t
    case AssetWorkOrderEvidence => SmallerAt("asset_work_order_evidence", "contract", 0);
    case Contract => SmallerAt("contract", "customer", 1);
    case Customer => SmallerAt("customer", "subscription_closure_case", 0);
    case SubscriptionOrder => SmallerAt("subscription_order", "user", 0);
    case User => SmallerAt("user", "vehicle", 0);
    case _ =>
  }

  lemma {:induction false} LaterNames(a: Table, b: Table)
    requires PlaceByName(a) < PlaceByName(b)
    ensures Before(Name(a), Name(b))
    decreases PlaceByName(b) - PlaceByName(a)
  {
    hide Before, Name;
    NamesAscend(a);
    if NextByName(a) != b {
      LaterNames(NextByName(a), b);
      BeforeIsTransitive(Name(a), Name(NextByName(a)), Name(b));
    }
  }

  lemma UnrankedTablesAreInOrder(a: Lock, b: Lock)
    ensures a.table != b.table ==> (Ahead(a, b, false) <==> PlaceByName(a.table) < PlaceByName(b.table))
  {
    hide Before, Name;
    if a.table != b.table {
      PlacesDiffer(a.table, b.table);
      if PlaceByName(a.table) < PlaceByName(b.table) {
        LaterNames(a.table, b.table);
      } else {
        LaterNames(b.table, a.table);
        if Before(Name(a.table), Name(b.table)) {
          BeforeIsTransitive(Name(a.table), Name(b.table), Name(a.table));
          BeforeIsIrreflexive(Name(a.table));
        }
      }
    }
  }

  lemma PlacesDiffer(a: Table, b: Table)
    requires a != b
    ensures PlaceByName(a) != PlaceByName(b)
  {
  }

  /** Rows of one table are locked by their ids, and the order by rank is used under a closure case or a capability. */
  lemma RowsAreInOrder(a: Lock, b: Lock, ranked: bool, c: CostCommand)
    ensures a.table == b.table ==> (Ahead(a, b, ranked) <==> Before(a.id, b.id))
    ensures Ranked(c) <==> c.closureCase != None || (c.Append? && c.capability)
  {
    hide Before, Name;
  }

  /** Sharing a row excludes locking it for update, and locking it for update excludes everything. */
  lemma ConflictMeans(a: Lock, b: Lock)
    ensures Conflict(a, b) <==> a.table == b.table && a.id == b.id && !(!a.update && !b.update)
  {
  }
}
