/**
 The row locks a cost command takes: requests for the same row are merged, the stronger mode
 winning, and the rows are locked in one order.
 */
module LockOrder {
  import opened Wrappers
  import opened AssetTypes
  import Sorting

  datatype Table =
    | SubscriptionClosureCase | SubscriptionOrder | Vehicle | Contract | AssetWorkOrder | AssetOwner
    | AssetWorkOrderEvidence | Customer | User

  function Name(t: Table): string {
    match t
    case SubscriptionClosureCase => "subscription_closure_case"
    case SubscriptionOrder => "subscription_order"
    case Vehicle => "vehicle"
    case Contract => "contract"
    case AssetWorkOrder => "asset_work_order"
    case AssetOwner => "asset_owner"
    case AssetWorkOrderEvidence => "asset_work_order_evidence"
    case Customer => "customer"
    case User => "user"
  }

  /** The rank of tables in commands that join a caller's own locks. */
  function CallerOwnedRank(t: Table): int {
    match t
    case SubscriptionClosureCase => 10
    case SubscriptionOrder => 20
    case Vehicle => 30
    case Contract => 50
    case AssetWorkOrder => 120
    case AssetOwner => 140
    case AssetWorkOrderEvidence => 145
    case Customer => 180
    case User => 210
  }

  datatype Lock = Lock(table: Table, id: Id, update: bool)

  predicate SameRow(a: Lock, b: Lock) { a.table == b.table && a.id == b.id }

  /** By rank when there is one, then by table name, then by id. */
  predicate Ahead(a: Lock, b: Lock, ranked: bool) {
    if ranked && CallerOwnedRank(a.table) != CallerOwnedRank(b.table)
    then CallerOwnedRank(a.table) < CallerOwnedRank(b.table)
    else if a.table == b.table then Before(a.id, b.id)
    else Before(Name(a.table), Name(b.table))
  }

  function LockOrderOf(ranked: bool): (Lock, Lock) -> bool { (a: Lock, b: Lock) => Ahead(a, b, ranked) }

  lemma NamesDiffer(a: Table, b: Table)
    requires a != b
    ensures Name(a) != Name(b)
  {
    hide Before;
  }

  lemma AheadIsTotal(a: Lock, b: Lock, ranked: bool)
    ensures SameRow(a, b) || Ahead(a, b, ranked) || Ahead(b, a, ranked)
  {
    hide Name, Before;
    BeforeIsTotal(a.id, b.id);
    BeforeIsTotal(Name(a.table), Name(b.table));
    if a.table != b.table { NamesDiffer(a.table, b.table); }
  }

  lemma RanksDiffer(a: Table, b: Table)
    requires CallerOwnedRank(a) == CallerOwnedRank(b)
    ensures a == b
  {
  }

  lemma AheadIsTransitive(a: Lock, b: Lock, c: Lock, ranked: bool)
    requires Ahead(a, b, ranked) && Ahead(b, c, ranked)
    ensures Ahead(a, c, ranked)
  {
    hide Name, Before, CallerOwnedRank;
    if CallerOwnedRank(a.table) == CallerOwnedRank(b.table) { RanksDiffer(a.table, b.table); }
    if CallerOwnedRank(b.table) == CallerOwnedRank(c.table) { RanksDiffer(b.table, c.table); }
    if a.table == b.table == c.table {
      BeforeIsTransitive(a.id, b.id, c.id);
    } else if !ranked && a.table != b.table && b.table != c.table {
      BeforeIsTransitive(Name(a.table), Name(b.table), Name(c.table));
      BeforeIsIrreflexive(Name(a.table));
    }
  }

  lemma AheadIsIrreflexive(a: Lock, b: Lock, ranked: bool)
    requires SameRow(a, b)
    ensures !Ahead(a, b, ranked)
  {
    hide Name;
    BeforeIsIrreflexive(a.id);
  }

  /** Each lock is ahead of all that follow. */
  ghost predicate InOrder(locks: seq<Lock>, ranked: bool) {
    forall i, j :: 0 <= i < j < |locks| ==> Ahead(locks[i], locks[j], ranked)
  }

  /* ---- Merging ---- */

  predicate DistinctRows(locks: seq<Lock>) { forall i, j :: 0 <= i < j < |locks| ==> !SameRow(locks[i], locks[j]) }

  predicate Asks(requests: seq<Option<Lock>>, table: Table, id: Id) {
    exists r :: r in requests && r.Some? && r.value.table == table && r.value.id == id
  }

  predicate AsksUpdate(requests: seq<Option<Lock>>, table: Table, id: Id) {
    Some(Lock(table, id, true)) in requests
  }

  /** The locks are the rows asked for, each once, for update exactly if some request asks for that. */
  ghost predicate Merges(requests: seq<Option<Lock>>, locks: seq<Lock>) {
    && DistinctRows(locks)
    && forall k :: k in locks <==> Asks(requests, k.table, k.id) && (k.update <==> AsksUpdate(requests, k.table, k.id))
  }

  /** One more request: a new row is added, an update replaces what is there. */
  method Merge(locks: seq<Lock>, request: Lock, ghost requests: seq<Option<Lock>>) returns (merged: seq<Lock>)
    requires Merges(requests, locks)
    ensures Merges(requests + [Some(request)], merged)
  {
    hide Merges, DistinctRows;
    var i := 0;
    while i < |locks|
      invariant 0 <= i <= |locks|
      invariant forall j :: 0 <= j < i ==> !SameRow(locks[j], request)
    {
      if SameRow(locks[i], request) {
        MergeKnown(locks, request, requests, i);
        if request.update { return locks[i := request]; }
        return locks;
      }
      i := i + 1;
    }
    MergeNew(locks, request, requests);
    merged := locks + [request];
  }

  lemma AskedAgain(requests: seq<Option<Lock>>, request: Lock, table: Table, id: Id)
    ensures Asks(requests + [Some(request)], table, id)
      <==> Asks(requests, table, id) || (request.table == table && request.id == id)
    ensures AsksUpdate(requests + [Some(request)], table, id)
      <==> AsksUpdate(requests, table, id) || request == Lock(table, id, true)
  {
    var more := requests + [Some(request)];
    assert Some(request) in more;
    assert forall r :: r in requests ==> r in more;
  }

  lemma MergeNew(locks: seq<Lock>, request: Lock, requests: seq<Option<Lock>>)
    requires Merges(requests, locks) && forall j :: 0 <= j < |locks| ==> !SameRow(locks[j], request)
    ensures Merges(requests + [Some(request)], locks + [request])
  {
    hide Asks, AsksUpdate;
    var merged := locks + [request];
    NotAskedYet(locks, request, requests);
    forall k
      ensures k in merged <==> Asks(requests + [Some(request)], k.table, k.id)
                               && (k.update <==> AsksUpdate(requests + [Some(request)], k.table, k.id))
    {
      AskedAgain(requests, request, k.table, k.id);
    }
  }

  lemma NotAskedYet(locks: seq<Lock>, request: Lock, requests: seq<Option<Lock>>)
    requires Merges(requests, locks) && forall j :: 0 <= j < |locks| ==> !SameRow(locks[j], request)
    ensures !Asks(requests, request.table, request.id) && !AsksUpdate(requests, request.table, request.id)
  {
    var k := Lock(request.table, request.id, AsksUpdate(requests, request.table, request.id));
    assert k in locks <==> Asks(requests, request.table, request.id);
    assert SameRow(k, request);
    assert AsksUpdate(requests, request.table, request.id) ==> Asks(requests, request.table, request.id);
  }

  lemma MergeKnown(locks: seq<Lock>, request: Lock, requests: seq<Option<Lock>>, i: nat)
    requires Merges(requests, locks) && i < |locks| && SameRow(locks[i], request)
    ensures Merges(requests + [Some(request)], if request.update then locks[i := request] else locks)
  {
    hide Asks, AsksUpdate;
    var merged := if request.update then locks[i := request] else locks;
    assert locks[i] in locks;
    forall k
      ensures k in merged <==> Asks(requests + [Some(request)], k.table, k.id)
                               && (k.update <==> AsksUpdate(requests + [Some(request)], k.table, k.id))
    {
      AskedAgain(requests, request, k.table, k.id);
      InMerged(locks, request, i, k);
    }
  }

  /** The other rows stay, and the row of the request is there once. */
  lemma InMerged(locks: seq<Lock>, request: Lock, i: nat, k: Lock)
    requires DistinctRows(locks) && i < |locks| && SameRow(locks[i], request)
    ensures k in locks[i := request] <==> k == request || (k in locks && !SameRow(k, request))
    ensures k in locks && SameRow(k, request) ==> k == locks[i]
  {
    var merged := locks[i := request];
    if k in locks {
      var j :| 0 <= j < |locks| && locks[j] == k;
      assert j != i ==> merged[j] == k;
    }
    if k in merged {
      var j :| 0 <= j < |merged| && merged[j] == k;
    }
    assert merged[i] == request;
  }

  /**
   What is locked, and in which order: the rows asked for, each once, for update exactly if some
   request asks for that, each row ahead of all that follow.
   */
  method CompactLocks(requests: seq<Option<Lock>>, ranked: bool) returns (locks: seq<Lock>)
    ensures forall k :: k in locks <==>
      Asks(requests, k.table, k.id) && (k.update <==> AsksUpdate(requests, k.table, k.id))
    ensures InOrder(locks, ranked)
  {
    hide Asks, AsksUpdate, InOrder;
    var unique: seq<Lock> := [];
    assert Merges([], unique) by { MergesNothing(); }
    var n := 0;
    while n < |requests|
      invariant 0 <= n <= |requests| && Merges(requests[..n], unique)
    {
      assert requests[..n + 1] == requests[..n] + [requests[n]];
      if requests[n].Some? {
        unique := Merge(unique, requests[n].value, requests[..n]);
      } else {
        SkipsNothing(requests[..n], unique);
      }
      n := n + 1;
    }
    assert requests[..n] == requests;
    locks := Sorting.Sort(unique, LockOrderOf(ranked));
    SortsLocks(unique, ranked);
  }

  lemma MergesNothing()
    ensures Merges([], [])
  {
  }

  lemma SkipsNothing(requests: seq<Option<Lock>>, locks: seq<Lock>)
    requires Merges(requests, locks)
    ensures Merges(requests + [None], locks)
  {
    hide DistinctRows;
    forall table, id
      ensures Asks(requests + [None], table, id) <==> Asks(requests, table, id)
      ensures AsksUpdate(requests + [None], table, id) <==> AsksUpdate(requests, table, id)
    {
      assert forall r: Option<Lock> :: r in requests + [None] <==> r in requests || r == None;
    }
  }

  lemma SortsLocks(locks: seq<Lock>, ranked: bool)
    requires DistinctRows(locks)
    ensures var sorted := Sorting.Sort(locks, LockOrderOf(ranked));
      && (forall k :: k in sorted <==> k in locks)
      && InOrder(sorted, ranked)
  {
    hide Ahead, SameRow;
    var less := LockOrderOf(ranked);
    forall i, j | 0 <= i < j < |locks|
      ensures less(locks[i], locks[j]) || less(locks[j], locks[i])
    {
      AheadIsTotal(locks[i], locks[j], ranked);
    }
    Sorting.SortIsIncreasing(locks, less);
    Sorting.SortKeepsElements(locks, less);
    forall a, b, c | less(a, b) && less(b, c)
      ensures less(a, c)
    {
      AheadIsTransitive(a, b, c, ranked);
    }
    var sorted := Sorting.Sort(locks, less);
    forall i, j | 0 <= i < j < |sorted|
      ensures Ahead(sorted[i], sorted[j], ranked)
    {
      Sorting.IncreasingThroughout(sorted, less, i, j);
    }
  }

  /* ---- Commands that take their locks in one order ---- */

  /** Two commands that take their locks in the same order never take two common rows in opposite orders. */
  lemma SameOrderNeverCrosses(a: seq<Lock>, b: seq<Lock>, ranked: bool, i: nat, j: nat, k: nat, l: nat)
    requires InOrder(a, ranked) && InOrder(b, ranked)
    requires i < j < |a| && k < l < |b|
    ensures !(SameRow(a[i], b[l]) && SameRow(a[j], b[k]))
  {
    hide Ahead;
    if SameRow(a[i], b[l]) && SameRow(a[j], b[k]) {
      AheadOfSame(a[i], a[j], b[l], b[k], ranked);
      AheadIsTransitive(b[l], b[k], b[l], ranked);
      AheadIsIrreflexive(b[l], b[l], ranked);
    }
  }

  lemma AheadOfSame(a: Lock, b: Lock, a': Lock, b': Lock, ranked: bool)
    requires SameRow(a, a') && SameRow(b, b') && Ahead(a, b, ranked)
    ensures Ahead(a', b', ranked)
  {
  }

  /* ---- The cost commands ---- */

  /** What the locks of a command depend on; the closure case is the one that settles its order. */
  datatype CostCommand =
    | Append(capability: bool, closureCase: Option<Id>, assetOwner: Option<Id>, workOrder: Option<Id>,
             evidence: Option<Id>, contract: Option<Id>, responsibleCustomer: Option<Id>, customer: Option<Id>,
             authoritativeOrder: Option<Id>, order: Option<Id>, actor: Id, vehicle: Id, responsibleOwner: Option<Id>)
    | Reverse(closureCase: Option<Id>, workOrder: Option<Id>, actor: Id)

  function Request(table: Table, id: Option<Id>, update: bool): Option<Lock> {
    if id.None? then None else Some(Lock(table, id.value, update))
  }

  function Requests(c: CostCommand): seq<Option<Lock>> {
    match c
    case Append(_, closureCase, assetOwner, workOrder, evidence, contract, responsibleCustomer, customer,
                authoritativeOrder, order, actor, vehicle, responsibleOwner) =>
      [Request(SubscriptionClosureCase, closureCase, true), Request(AssetOwner, assetOwner, false),
       Request(AssetWorkOrder, workOrder, false), Request(AssetWorkOrderEvidence, evidence, false),
       Request(Contract, contract, false),
       Request(Customer, responsibleCustomer, false), Request(Customer, customer, false),
       Request(SubscriptionOrder, authoritativeOrder, false), Request(SubscriptionOrder, order, false),
       Request(User, Some(actor), false), Request(Vehicle, Some(vehicle), false),
       Request(AssetOwner, responsibleOwner, false)]
    case Reverse(closureCase, workOrder, actor) =>
      [Request(SubscriptionClosureCase, closureCase, true), Request(AssetWorkOrder, workOrder, true),
       Request(User, Some(actor), false)]
  }

  /** Commands under a closure case, and appends a caller has prepared, lock by rank; all others by name. */
  predicate Ranked(c: CostCommand) { c.closureCase.Some? || (c.Append? && c.capability) }

  /** The locks of a command, in the order it takes them. */
  ghost predicate Takes(c: CostCommand, locks: seq<Lock>) {
    && (forall k :: k in locks <==>
          Asks(Requests(c), k.table, k.id) && (k.update <==> AsksUpdate(Requests(c), k.table, k.id)))
    && InOrder(locks, Ranked(c))
  }

  method LockCostRows(c: CostCommand) returns (locks: seq<Lock>)
    ensures Takes(c, locks)
  {
    hide InOrder, Asks, AsksUpdate;
    locks := CompactLocks(Requests(c), Ranked(c));
  }

  /** Neither lock can be taken while another transaction has the other. */
  predicate Conflict(a: Lock, b: Lock) { SameRow(a, b) && (a.update || b.update) }

  /** Only closure cases and work orders are locked for update, and a command locks at most one row of each. */
  lemma ContendedRows(c: CostCommand, locks: seq<Lock>, k: Lock)
    requires Takes(c, locks) && k in locks
    ensures k.update ==> k.table.SubscriptionClosureCase? || k.table.AssetWorkOrder?
    ensures k.table.SubscriptionClosureCase? ==> c.closureCase == Some(k.id)
    ensures k.table.AssetWorkOrder? ==> c.workOrder == Some(k.id)
  {
    hide InOrder, Requests;
    var r :| r in Requests(c) && r.Some? && r.value.table == k.table && r.value.id == k.id;
    RequestFacts(c, r);
    if k.update { RequestFacts(c, Some(Lock(k.table, k.id, true))); }
  }

  lemma RequestFacts(c: CostCommand, r: Option<Lock>)
    requires r in Requests(c) && r.Some?
    ensures r.value.update ==> r.value.table.SubscriptionClosureCase? || r.value.table.AssetWorkOrder?
    ensures r.value.table.SubscriptionClosureCase? ==> c.closureCase == Some(r.value.id)
    ensures r.value.table.AssetWorkOrder? ==> c.workOrder == Some(r.value.id)
  {
  }

  lemma ConflictsOnContendedRows(c: CostCommand, a: seq<Lock>, d: CostCommand, b: seq<Lock>, k: Lock, l: Lock)
    requires Takes(c, a) && Takes(d, b) && k in a && l in b && Conflict(k, l)
    ensures k.table == l.table && (k.table.SubscriptionClosureCase? || k.table.AssetWorkOrder?)
  {
    hide Takes;
    ContendedRows(c, a, k);
    ContendedRows(d, b, l);
  }

  /** Of two contended rows of one command the closure case comes first. */
  lemma CaseComesFirst(c: CostCommand, locks: seq<Lock>, i: nat, j: nat)
    requires Takes(c, locks) && i < j < |locks|
    requires locks[i].table.SubscriptionClosureCase? || locks[i].table.AssetWorkOrder?
    requires locks[j].table.SubscriptionClosureCase? || locks[j].table.AssetWorkOrder?
    ensures locks[i].table.SubscriptionClosureCase? && locks[j].table.AssetWorkOrder?
  {
    hide Asks, AsksUpdate, Before;
    ContendedRows(c, locks, locks[i]);
    ContendedRows(c, locks, locks[j]);
    if locks[i].table == locks[j].table { AheadIsIrreflexive(locks[i], locks[j], Ranked(c)); }
  }

  /** In a circle, each command has a row that the one before it wants, and wants one that the next has. */
  ghost predicate Circle(commands: seq<CostCommand>, locks: seq<seq<Lock>>, held: seq<nat>, wanted: seq<nat>) {
    && 0 < |commands| == |locks| == |held| == |wanted|
    && (forall m :: 0 <= m < |commands| ==> Takes(commands[m], locks[m]) && held[m] < wanted[m] < |locks[m]|)
    && (forall m :: 0 <= m < |commands| ==> Blocks(locks, held, wanted, m, After(m, |commands|)))
  }

  function After(m: nat, n: nat): nat { if m + 1 < n then m + 1 else 0 }

  predicate Blocks(locks: seq<seq<Lock>>, held: seq<nat>, wanted: seq<nat>, m: nat, next: nat)
    requires m < |locks| && next < |locks| && |held| == |wanted| == |locks|
    requires wanted[m] < |locks[m]| && held[next] < |locks[next]|
  {
    Conflict(locks[m][wanted[m]], locks[next][held[next]])
  }

  /**
   No cost commands, however many and whether they lock by rank or by name, ever come to want each
   other's rows in a circle: even if they waited for rows, which they do not, none would wait for ever.
   */
  lemma CostCommandsNeverWaitInACircle(
    commands: seq<CostCommand>, locks: seq<seq<Lock>>, held: seq<nat>, wanted: seq<nat>)
    ensures !Circle(commands, locks, held, wanted)
  {
    hide Takes, Conflict;
    if Circle(commands, locks, held, wanted) {
      var n := |commands|;
      var last, next := n - 1, After(0, n);
      assert Blocks(locks, held, wanted, last, After(last, n));
      assert Blocks(locks, held, wanted, 0, next);
      ConflictsOnContendedRows(
        commands[last], locks[last], commands[0], locks[0], locks[last][wanted[last]], locks[0][held[0]]);
      ConflictsOnContendedRows(
        commands[0], locks[0], commands[next], locks[next], locks[0][wanted[0]], locks[next][held[next]]);
      CaseComesFirst(commands[0], locks[0], held[0], wanted[0]);
      var after := After(next, n);
      assert Blocks(locks, held, wanted, next, after);
      ConflictsOnContendedRows(
        commands[next], locks[next], commands[after], locks[after], locks[next][wanted[next]],
        locks[after][held[after]]);
      CaseComesFirst(commands[next], locks[next], held[next], wanted[next]);
      assert false;
    }
  }

  /** In particular no two commands take contended rows in opposite orders. */
  lemma CostCommandsNeverCross(
    c: CostCommand, a: seq<Lock>, d: CostCommand, b: seq<Lock>, i: nat, j: nat, k: nat, l: nat)
    requires Takes(c, a) && Takes(d, b) && i < j < |a| && k < l < |b|
    ensures !(Conflict(a[i], b[l]) && Conflict(a[j], b[k]))
  {
    hide Takes;
    if Conflict(a[i], b[l]) && Conflict(a[j], b[k]) {
      assert Blocks([a, b], [i, k], [j, l], 0, After(0, 2));
      assert Blocks([a, b], [i, k], [j, l], 1, After(1, 2));
      CostCommandsNeverWaitInACircle([c, d], [a, b], [i, k], [j, l]);
    }
  }
}
