/**
 Transactions that close work orders, append costs and reverse costs, interleaved step by step.
 Row locks are held until a transaction ends; every read sees what is committed; a transaction's
 own write becomes visible when it commits. A transaction may end at any step without effect.
 */
module CostRetention {
  import opened Wrappers
  import opened AssetTypes
  import opened CostLedger
  import opened CostSummary
  import opened AccountingStore
  import W = WorkOrders

  datatype Order = Order(status: W.Status, costRequired: bool, version: nat)

  /** How far a status change has got; from Locked on, the order row is locked for update. */
  datatype ChangePc =
    | Unlocked | Locked | Read(header: Order) | Checked(header: Order) | Written(header: Order, next: Order)

  /** How far a reversal has got; from Held on, the order row of its original is locked for update. */
  datatype ReversePc =
    | Starting | Observed(original: Entry) | Held(original: Entry) | OrderClosed(original: Entry)
    | Cleared(original: Entry)

  datatype Txn =
    | Changing(order: Id, target: W.Status, expectedVersion: nat, prepared: bool, pc: ChangePc)
    | Appending(entry: Entry, locked: bool)
    | Reversing(originalId: Id, source: Source, payload: Payload, freshId: Id, rpc: ReversePc)

  datatype State = State(orders: map<Id, Order>, ledger: Ledger, txns: map<nat, Txn>)

  /* ---- Locks ---- */

  predicate HoldsUpdate(txn: Txn, o: Id) {
    match txn
    case Changing(order, _, _, _, pc) => order == o && !pc.Unlocked?
    case Reversing(_, _, _, _, Held(original)) => original.facts.workOrderId == Some(o)
    case Reversing(_, _, _, _, OrderClosed(original)) => original.facts.workOrderId == Some(o)
    case Reversing(_, _, _, _, Cleared(original)) => original.facts.workOrderId == Some(o)
    case _ => false
  }

  predicate HoldsShare(txn: Txn, o: Id) {
    txn.Appending? && txn.locked && txn.entry.facts.workOrderId == Some(o)
  }

  predicate UpdateFree(txns: map<nat, Txn>, t: nat, o: Id) {
    forall u :: u in txns && u != t ==> !HoldsUpdate(txns[u], o) && !HoldsShare(txns[u], o)
  }

  predicate ShareFree(txns: map<nat, Txn>, t: nat, o: Id) {
    forall u :: u in txns && u != t ==> !HoldsUpdate(txns[u], o)
  }

  /* ---- The checks ---- */

  predicate IsActualCostOf(e: Entry, o: Id) {
    e.kind.Original? && e.facts.actionType.ActualCost? && e.facts.workOrderId == Some(o)
  }

  /** Some actual cost of the order stands unreversed. */
  predicate HasCost(ledger: Ledger, o: Id) {
    exists id :: id in ledger && IsActualCostOf(ledger[id], o) && !IsReversed(ledger, id)
  }

  /** Closing a cost-required order is what the cost gate guards; a prepared change passes it by. */
  predicate Gated(header: Order, target: W.Status, prepared: bool) {
    !prepared && header.status.PendingCostConfirmation? && header.costRequired && target.Closed?
  }

  predicate ClosedRequiringCost(orders: map<Id, Order>, o: Id) {
    o in orders && orders[o].status.Closed? && orders[o].costRequired
  }

  predicate IsOriginal(e: Entry) { e.kind.Original? && WellFormed(e) }

  /** A transaction that has done nothing yet. */
  predicate Entered(txn: Txn) {
    match txn
    case Changing(_, _, _, _, pc) => pc.Unlocked?
    case Appending(entry, locked) => !locked && IsOriginal(entry)
    case Reversing(_, _, payload, freshId, rpc) => rpc.Starting? && payload.CostReverse? && NonBlank(freshId)
  }

  /* ---- Steps ---- */

  datatype Action = Start(t: nat, txn: Txn) | Advance(t: nat) | Abort(t: nat)

  function With(s: State, t: nat, txn: Txn): State { s.(txns := s.txns[t := txn]) }

  function Ended(s: State, t: nat): State { s.(txns := s.txns - {t}) }

  function StepChange(s: State, t: nat, txn: Txn): State
    requires txn.Changing?
  {
    match txn.pc
    case Unlocked => if UpdateFree(s.txns, t, txn.order) then With(s, t, txn.(pc := Locked)) else Ended(s, t)
    case Locked => if txn.order in s.orders then With(s, t, txn.(pc := Read(s.orders[txn.order]))) else Ended(s, t)
    case Read(h) =>
      if Gated(h, txn.target, txn.prepared) && txn.order in s.orders && s.orders[txn.order].costRequired
         && !HasCost(s.ledger, txn.order)
      then Ended(s, t)
      else With(s, t, txn.(pc := Checked(h)))
    case Checked(h) =>
      if h.version == txn.expectedVersion && W.TransitionAllowed(h.status, txn.target, h.costRequired)
         && txn.order in s.orders && s.orders[txn.order].status == h.status && s.orders[txn.order].version == h.version
      then With(s, t, txn.(pc := Written(h, s.orders[txn.order].(status := txn.target, version := h.version + 1))))
      else Ended(s, t)
    case Written(_, next) => Ended(s.(orders := s.orders[txn.order := next]), t)
  }

  function StepAppend(s: State, t: nat, txn: Txn): State
    requires txn.Appending?
  {
    if !txn.locked then
      if txn.entry.facts.workOrderId.None? || ShareFree(s.txns, t, txn.entry.facts.workOrderId.value)
      then With(s, t, txn.(locked := true)) else Ended(s, t)
    else if txn.entry.id in s.ledger then Ended(s, t)
    else Ended(s.(ledger := s.ledger[txn.entry.id := txn.entry]), t)
  }

  function StepReverse(s: State, t: nat, txn: Txn): State
    requires txn.Reversing?
  {
    match txn.rpc
    case Starting =>
      if txn.originalId in s.ledger && s.ledger[txn.originalId].kind.Original?
      then With(s, t, txn.(rpc := Observed(s.ledger[txn.originalId]))) else Ended(s, t)
    case Observed(e) =>
      if e.facts.workOrderId.None? || UpdateFree(s.txns, t, e.facts.workOrderId.value)
      then With(s, t, txn.(rpc := Held(e))) else Ended(s, t)
    case Held(_) =>
      if txn.originalId !in s.ledger || !s.ledger[txn.originalId].kind.Original? then Ended(s, t)
      else
        var e := s.ledger[txn.originalId];
        if e.facts.workOrderId.None? || !e.facts.actionType.ActualCost?
           || !ClosedRequiringCost(s.orders, e.facts.workOrderId.value)
        then With(s, t, txn.(rpc := Cleared(e)))
        else With(s, t, txn.(rpc := OrderClosed(e)))
    case OrderClosed(e) => if RetainsCost(s.ledger, e) then With(s, t, txn.(rpc := Cleared(e))) else Ended(s, t)
    case Cleared(e) =>
      if txn.freshId in s.ledger || IsReversed(s.ledger, e.id) || !txn.payload.CostReverse? then Ended(s, t)
      else Ended(s.(ledger := s.ledger[txn.freshId := ReversalOf(e, txn.source, txn.payload, txn.freshId)]), t)
  }

  function Step(s: State, a: Action): State {
    match a
    case Start(t, txn) => if t !in s.txns && Entered(txn) then With(s, t, txn) else s
    case Advance(t) =>
      if t !in s.txns then s
      else (match s.txns[t]
            case Changing(_, _, _, _, _) => StepChange(s, t, s.txns[t])
            case Appending(_, _) => StepAppend(s, t, s.txns[t])
            case Reversing(_, _, _, _, _) => StepReverse(s, t, s.txns[t]))
    case Abort(t) => Ended(s, t)
  }

  function Run(s: State, actions: seq<Action>): State
    decreases |actions|
  {
    if actions == [] then s else Run(Step(s, actions[0]), actions[1..])
  }

  /* ---- The invariant ---- */

  /** Every closed order that required cost confirmation has an actual cost that stands. */
  ghost predicate CostRetained(s: State) {
    forall o :: ClosedRequiringCost(s.orders, o) ==> HasCost(s.ledger, o)
  }

  ghost predicate Exclusive(txns: map<nat, Txn>) {
    forall t, u, o :: t in txns && u in txns && t != u && HoldsUpdate(txns[t], o) ==>
      !HoldsUpdate(txns[u], o) && !HoldsShare(txns[u], o)
  }

  /** A cost other than the original stands, if the order is closed and required one. */
  predicate MayReverse(orders: map<Id, Order>, ledger: Ledger, e: Entry) {
    e.facts.workOrderId.Some? && ClosedRequiringCost(orders, e.facts.workOrderId.value) ==> RetainsCost(ledger, e)
  }

  /** What a transaction has read still holds, because of the lock it has. */
  ghost predicate TxnOk(orders: map<Id, Order>, ledger: Ledger, txn: Txn) {
    match txn
    case Changing(o, target, _, prepared, pc) =>
      (match pc
       case Unlocked => true
       case Locked => true
       case Read(h) => o in orders && orders[o] == h
       case Checked(h) => o in orders && orders[o] == h && (Gated(h, target, prepared) ==> HasCost(ledger, o))
       case Written(h, next) =>
         && o in orders && orders[o] == h && (Gated(h, target, prepared) ==> HasCost(ledger, o))
         && next == h.(status := target, version := h.version + 1)
         && W.TransitionAllowed(h.status, target, h.costRequired))
    case Appending(e, _) => IsOriginal(e)
    case Reversing(id, _, _, freshId, rpc) =>
      NonBlank(freshId) &&
      (match rpc
       case Starting => true
       case Observed(e) => id in ledger && ledger[id] == e
       case Held(e) => id in ledger && ledger[id] == e
       case OrderClosed(e) => id in ledger && ledger[id] == e && e.kind.Original?
       case Cleared(e) => id in ledger && ledger[id] == e && e.kind.Original? && MayReverse(orders, ledger, e))
  }

  ghost predicate TxnsOk(s: State) { forall t :: t in s.txns ==> TxnOk(s.orders, s.ledger, s.txns[t]) }

  /** What holds in every state, whether costs are retained or not. */
  ghost predicate Inv(s: State) { Exclusive(s.txns) && TxnsOk(s) && LedgerInv(s.ledger) }

  /* ---- What a new ledger entry does to standing costs ---- */

  lemma NewOriginalKeepsReversed(ledger: Ledger, e: Entry, id: Id)
    requires e.kind.Original? && e.id !in ledger
    ensures IsReversed(ledger[e.id := e], id) == IsReversed(ledger, id)
  {
    var after := ledger[e.id := e];
    if IsReversed(ledger, id) {
      var r :| r in ledger && ledger[r].kind.Reversal? && ledger[r].reversalOf == Some(id);
      assert after[r] == ledger[r];
    }
  }

  lemma NewOriginalKeepsCost(ledger: Ledger, e: Entry, o: Id)
    requires e.kind.Original? && e.id !in ledger && HasCost(ledger, o)
    ensures HasCost(ledger[e.id := e], o)
  {
    hide IsReversed;
    var id :| id in ledger && IsActualCostOf(ledger[id], o) && !IsReversed(ledger, id);
    NewOriginalKeepsReversed(ledger, e, id);
    assert IsActualCostOf(ledger[e.id := e][id], o);
  }

  lemma NewOriginalKeepsRetention(ledger: Ledger, e: Entry, original: Entry)
    requires e.kind.Original? && e.id !in ledger && RetainsCost(ledger, original)
    ensures RetainsCost(ledger[e.id := e], original)
  {
    hide IsReversed;
    if original.facts.workOrderId.Some? && original.facts.actionType.ActualCost? {
      var id :| id in ledger && Replaces(ledger, id, original);
      NewOriginalKeepsReversed(ledger, e, id);
      assert Replaces(ledger[e.id := e], id, original);
    }
  }

  /** A reversal makes only its own original reversed. */
  lemma ReversalReversesOne(ledger: Ledger, r: Entry, id: Id)
    requires r.id !in ledger && r.reversalOf.Some? && id != r.reversalOf.value
    ensures IsReversed(ledger[r.id := r], id) == IsReversed(ledger, id)
  {
    var after := ledger[r.id := r];
    if IsReversed(ledger, id) {
      var x :| x in ledger && ledger[x].kind.Reversal? && ledger[x].reversalOf == Some(id);
      assert after[x] == ledger[x];
    }
  }

  /** Costs of other orders stand as before. */
  lemma ReversalKeepsOtherCosts(ledger: Ledger, r: Entry, e: Entry, o: Id)
    requires r.id !in ledger && r.reversalOf == Some(e.id) && e.id in ledger && ledger[e.id] == e
    requires HasCost(ledger, o) && !IsActualCostOf(e, o)
    ensures HasCost(ledger[r.id := r], o)
  {
    hide IsReversed;
    var id :| id in ledger && IsActualCostOf(ledger[id], o) && !IsReversed(ledger, id);
    ReversalReversesOne(ledger, r, id);
    assert IsActualCostOf(ledger[r.id := r][id], o);
  }

  /** What retains the cost of the original's own order still stands afterwards. */
  lemma ReversalLeavesReplacement(ledger: Ledger, r: Entry, e: Entry, o: Id)
    requires r.id !in ledger && r.reversalOf == Some(e.id) && IsActualCostOf(e, o) && RetainsCost(ledger, e)
    ensures HasCost(ledger[r.id := r], o)
  {
    hide IsReversed;
    var id :| id in ledger && Replaces(ledger, id, e);
    ReversalReversesOne(ledger, r, id);
    assert IsActualCostOf(ledger[r.id := r][id], o);
  }

  lemma ReversalKeepsOtherRetention(ledger: Ledger, r: Entry, e: Entry, original: Entry)
    requires r.id !in ledger && r.reversalOf == Some(e.id) && e.id in ledger && ledger[e.id] == e
    requires RetainsCost(ledger, original) && original.facts.workOrderId != e.facts.workOrderId
    ensures RetainsCost(ledger[r.id := r], original)
  {
    hide IsReversed;
    if original.facts.workOrderId.Some? && original.facts.actionType.ActualCost? {
      var id :| id in ledger && Replaces(ledger, id, original);
      ReversalReversesOne(ledger, r, id);
      assert Replaces(ledger[r.id := r], id, original);
    }
  }

  /* ---- Locks stay exclusive ---- */

  lemma MovingKeepsExclusive(txns: map<nat, Txn>, t: nat, txn: Txn)
    requires Exclusive(txns)
    requires forall o :: HoldsUpdate(txn, o) ==> (t in txns && HoldsUpdate(txns[t], o)) || UpdateFree(txns, t, o)
    requires forall o :: HoldsShare(txn, o) ==> (t in txns && HoldsShare(txns[t], o)) || ShareFree(txns, t, o)
    ensures Exclusive(txns[t := txn])
  {
    var after := txns[t := txn];
    forall a, b, o | a in after && b in after && a != b && HoldsUpdate(after[a], o)
      ensures !HoldsUpdate(after[b], o) && !HoldsShare(after[b], o)
    {
      if a != t && b != t { assert txns[a] == after[a] && txns[b] == after[b]; }
    }
  }

  lemma EndingKeepsExclusive(txns: map<nat, Txn>, t: nat)
    requires Exclusive(txns)
    ensures Exclusive(txns - {t})
  {
  }

  lemma EndingKeepsInv(s: State, t: nat)
    requires Inv(s)
    ensures Inv(Ended(s, t))
  {
    hide ClosedRequiringCost, HasCost, TxnOk, LedgerInv;
    EndingKeepsExclusive(s.txns, t);
  }

  lemma MovingKeepsInv(s: State, t: nat, txn: Txn)
    requires Inv(s) && TxnOk(s.orders, s.ledger, txn)
    requires forall o :: HoldsUpdate(txn, o) ==> (t in s.txns && HoldsUpdate(s.txns[t], o)) || UpdateFree(s.txns, t, o)
    requires forall o :: HoldsShare(txn, o) ==> (t in s.txns && HoldsShare(s.txns[t], o)) || ShareFree(s.txns, t, o)
    ensures Inv(With(s, t, txn))
  {
    hide ClosedRequiringCost, HasCost, TxnOk, LedgerInv, HoldsUpdate, HoldsShare, UpdateFree, ShareFree, Exclusive;
    MovingKeepsExclusive(s.txns, t, txn);
  }

  /* ---- Commits ---- */

  lemma OthersDoNotHold(txns: map<nat, Txn>, t: nat, u: nat, o: Id)
    requires Exclusive(txns) && t in txns && u in txns && t != u && HoldsUpdate(txns[t], o)
    ensures !HoldsUpdate(txns[u], o)
  {
  }

  /** Changing an order that a transaction has not locked leaves what it relies on. */
  lemma OrderChangeKeepsTxn(orders: map<Id, Order>, ledger: Ledger, txn: Txn, o: Id, next: Order)
    requires TxnOk(orders, ledger, txn) && !HoldsUpdate(txn, o)
    ensures TxnOk(orders[o := next], ledger, txn)
  {
    hide HasCost, RetainsCost, IsReversed;
  }

  lemma CommitChange(s: State, t: nat)
    requires Inv(s) && t in s.txns && s.txns[t].Changing? && s.txns[t].pc.Written?
    ensures Inv(StepChange(s, t, s.txns[t]))
  {
    hide TxnOk, LedgerInv, HoldsUpdate;
    var txn := s.txns[t];
    var after := StepChange(s, t, txn);
    EndingKeepsExclusive(s.txns, t);
    assert HoldsUpdate(txn, txn.order) by { WrittenHolds(txn); }
    forall u | u in after.txns
      ensures TxnOk(after.orders, after.ledger, after.txns[u])
    {
      OthersDoNotHold(s.txns, t, u, txn.order);
      OrderChangeKeepsTxn(s.orders, s.ledger, s.txns[u], txn.order, txn.pc.next);
    }
  }

  lemma WrittenHolds(txn: Txn)
    requires txn.Changing? && txn.pc.Written?
    ensures HoldsUpdate(txn, txn.order)
  {
  }

  lemma NewOriginalKeepsTxn(orders: map<Id, Order>, ledger: Ledger, txn: Txn, e: Entry)
    requires TxnOk(orders, ledger, txn) && e.kind.Original? && e.id !in ledger
    ensures TxnOk(orders, ledger[e.id := e], txn)
  {
    hide HasCost, RetainsCost, ClosedRequiringCost;
    if txn.Changing? && HasCost(ledger, txn.order) { NewOriginalKeepsCost(ledger, e, txn.order); }
    if txn.Reversing? && txn.rpc.Cleared? && RetainsCost(ledger, txn.rpc.original) {
      NewOriginalKeepsRetention(ledger, e, txn.rpc.original);
    }
  }

  lemma CommitAppend(s: State, t: nat)
    requires Inv(s) && t in s.txns && s.txns[t].Appending? && s.txns[t].locked
    requires s.txns[t].entry.id !in s.ledger
    ensures Inv(StepAppend(s, t, s.txns[t]))
  {
    hide TxnOk, HoldsUpdate, HoldsShare, LedgerInv, WellFormed;
    var e := s.txns[t].entry;
    var after := StepAppend(s, t, s.txns[t]);
    EndingKeepsExclusive(s.txns, t);
    AppendingMeans(s.orders, s.ledger, s.txns[t]);
    forall u | u in after.txns
      ensures TxnOk(after.orders, after.ledger, after.txns[u])
    {
      NewOriginalKeepsTxn(s.orders, s.ledger, s.txns[u], e);
    }
    AddedOriginalIsOk(s.ledger, e);
  }

  lemma AddedOriginalIsOk(ledger: Ledger, e: Entry)
    requires LedgerInv(ledger) && IsOriginal(e) && e.id !in ledger
    ensures LedgerInv(ledger[e.id := e])
  {
    hide LedgerInv, WellFormed;
    AddingKeepsLedger(ledger, e);
  }

  lemma AppendingMeans(orders: map<Id, Order>, ledger: Ledger, txn: Txn)
    requires txn.Appending? && TxnOk(orders, ledger, txn)
    ensures IsOriginal(txn.entry)
  {
  }

  /** A reversal leaves what a transaction relies on that has not locked the order of its original. */
  lemma NewReversalKeepsTxn(orders: map<Id, Order>, ledger: Ledger, txn: Txn, r: Entry, e: Entry)
    requires TxnOk(orders, ledger, txn) && r.id !in ledger && r.reversalOf == Some(e.id)
    requires e.id in ledger && ledger[e.id] == e
    requires e.facts.workOrderId.Some? ==> !HoldsUpdate(txn, e.facts.workOrderId.value)
    ensures TxnOk(orders, ledger[r.id := r], txn)
  {
    hide HasCost, RetainsCost, ClosedRequiringCost;
    if txn.Changing? && HasCost(ledger, txn.order) && !txn.pc.Unlocked? {
      ReversalKeepsOtherCosts(ledger, r, e, txn.order);
    }
    if txn.Reversing? && txn.rpc.Cleared? && RetainsCost(ledger, txn.rpc.original) {
      if txn.rpc.original.facts.workOrderId != e.facts.workOrderId {
        ReversalKeepsOtherRetention(ledger, r, e, txn.rpc.original);
      }
    }
  }

  lemma ClearedMeans(s: State, t: nat)
    requires Inv(s) && t in s.txns && s.txns[t].Reversing? && s.txns[t].rpc.Cleared?
    ensures var e := s.txns[t].rpc.original;
      && e.id in s.ledger && s.ledger[e.id] == e && e.kind.Original? && NonBlank(s.txns[t].freshId)
      && MayReverse(s.orders, s.ledger, e)
      && (e.facts.workOrderId.Some? ==> HoldsUpdate(s.txns[t], e.facts.workOrderId.value))
  {
    hide HasCost, RetainsCost, NonBlank;
    assert TxnOk(s.orders, s.ledger, s.txns[t]);
    LedgerEntry(s.ledger, s.txns[t].originalId);
  }

  lemma CommitReverse(s: State, t: nat)
    requires Inv(s) && t in s.txns && s.txns[t].Reversing? && s.txns[t].rpc.Cleared?
    requires s.txns[t].payload.CostReverse? && s.txns[t].freshId !in s.ledger
    ensures Inv(StepReverse(s, t, s.txns[t]))
  {
    hide HasCost, TxnOk, RetainsCost, ClosedRequiringCost, HoldsUpdate, IsReversed;
    var txn := s.txns[t];
    var e := txn.rpc.original;
    var r := ReversalOf(e, txn.source, txn.payload, txn.freshId);
    var after := StepReverse(s, t, txn);
    ClearedMeans(s, t);
    EndingKeepsExclusive(s.txns, t);
    if after.ledger != s.ledger {
      forall u | u in after.txns
        ensures TxnOk(after.orders, after.ledger, after.txns[u])
      {
        if e.facts.workOrderId.Some? { OthersDoNotHold(s.txns, t, u, e.facts.workOrderId.value); }
        NewReversalKeepsTxn(s.orders, s.ledger, s.txns[u], r, e);
      }
      AddedReversalIsOk(s, t);
    }
  }

  lemma AddedReversalIsOk(s: State, t: nat)
    requires Inv(s) && t in s.txns && s.txns[t].Reversing? && s.txns[t].rpc.Cleared?
    requires s.txns[t].payload.CostReverse? && s.txns[t].freshId !in s.ledger
    requires !IsReversed(s.ledger, s.txns[t].rpc.original.id)
    ensures var r := ReversalOf(s.txns[t].rpc.original, s.txns[t].source, s.txns[t].payload, s.txns[t].freshId);
      LedgerInv(s.ledger[s.txns[t].freshId := r])
  {
    hide LedgerInv, NonBlank, ValidPeriod, IsReversed;
    var e := s.txns[t].rpc.original;
    ClearedMeans(s, t);
    LedgerEntry(s.ledger, e.id);
    AddingKeepsLedger(s.ledger, ReversalOf(e, s.txns[t].source, s.txns[t].payload, s.txns[t].freshId));
  }

  lemma LedgerEntry(ledger: Ledger, id: Id)
    requires LedgerInv(ledger) && id in ledger
    ensures ledger[id].id == id && WellFormed(ledger[id])
  {
  }

  /* ---- Every step ---- */

  lemma ChangeStepKeepsInv(s: State, t: nat)
    requires Inv(s) && t in s.txns && s.txns[t].Changing?
    ensures Inv(StepChange(s, t, s.txns[t]))
  {
    hide Inv, HasCost, UpdateFree, MayReverse, WellFormed;
    var txn := s.txns[t];
    TxnIsOk(s, t);
    EndingKeepsInv(s, t);
    if txn.pc.Written? {
      CommitChange(s, t);
    } else {
      var after := StepChange(s, t, txn);
      if t in after.txns { MovingKeepsInv(s, t, after.txns[t]); }
    }
  }

  lemma TxnIsOk(s: State, t: nat)
    requires Inv(s) && t in s.txns
    ensures TxnOk(s.orders, s.ledger, s.txns[t])
  {
    hide Exclusive, LedgerInv, TxnOk;
  }

  lemma AppendStepKeepsInv(s: State, t: nat)
    requires Inv(s) && t in s.txns && s.txns[t].Appending?
    ensures Inv(StepAppend(s, t, s.txns[t]))
  {
    hide Inv, UpdateFree, ShareFree, WellFormed;
    var txn := s.txns[t];
    TxnIsOk(s, t);
    EndingKeepsInv(s, t);
    if txn.locked && txn.entry.id !in s.ledger {
      CommitAppend(s, t);
    } else if !txn.locked {
      var after := StepAppend(s, t, txn);
      if t in after.txns { MovingKeepsInv(s, t, after.txns[t]); }
    }
  }

  lemma ReverseStepKeepsInv(s: State, t: nat)
    requires Inv(s) && t in s.txns && s.txns[t].Reversing?
    ensures Inv(StepReverse(s, t, s.txns[t]))
  {
    hide Inv, HasCost, Replaces, UpdateFree, ClosedRequiringCost, IsReversed, NonBlank, WellFormed;
    var txn := s.txns[t];
    TxnIsOk(s, t);
    EndingKeepsInv(s, t);
    if txn.rpc.Cleared? {
      if txn.payload.CostReverse? && txn.freshId !in s.ledger { CommitReverse(s, t); }
    } else {
      var after := StepReverse(s, t, txn);
      if t in after.txns { MovingKeepsInv(s, t, after.txns[t]); }
    }
  }

  lemma StepKeepsInv(s: State, a: Action)
    requires Inv(s)
    ensures Inv(Step(s, a))
  {
    hide Inv, StepChange, StepAppend, StepReverse;
    match a
    case Start(t, txn) => if t !in s.txns && Entered(txn) { StartKeepsInv(s, t, txn); }
    case Abort(t) => EndingKeepsInv(s, t);
    case Advance(t) =>
      if t in s.txns {
        match s.txns[t]
        case Changing(_, _, _, _, _) => ChangeStepKeepsInv(s, t);
        case Appending(_, _) => AppendStepKeepsInv(s, t);
        case Reversing(_, _, _, _, _) => ReverseStepKeepsInv(s, t);
      }
  }

  lemma StartKeepsInv(s: State, t: nat, txn: Txn)
    requires Inv(s) && t !in s.txns && Entered(txn)
    ensures Inv(With(s, t, txn))
  {
    hide Inv, NonBlank, WellFormed;
    MovingKeepsInv(s, t, txn);
  }

  lemma {:induction false} RunKeepsInv(s: State, actions: seq<Action>)
    requires Inv(s)
    ensures Inv(Run(s, actions))
    decreases |actions|
  {
    hide Inv, Step;
    if actions != [] {
      StepKeepsInv(s, actions[0]);
      RunKeepsInv(Step(s, actions[0]), actions[1..]);
    }
  }

  lemma StartIsOk(orders: map<Id, Order>, ledger: Ledger)
    requires LedgerInv(ledger)
    ensures Inv(State(orders, ledger, map[]))
  {
  }

  /** In every run, while one transaction is past locking an order for update, no other is, nor shares the row. */
  lemma CloseAndReverseExcludeEachOther(
    orders: map<Id, Order>, ledger: Ledger, actions: seq<Action>, t: nat, u: nat, o: Id)
    requires LedgerInv(ledger)
    requires var txns := Run(State(orders, ledger, map[]), actions).txns;
      t in txns && u in txns && t != u && HoldsUpdate(txns[t], o)
    ensures var txns := Run(State(orders, ledger, map[]), actions).txns;
      !HoldsUpdate(txns[u], o) && !HoldsShare(txns[u], o)
  {
    hide Run, LedgerInv, HoldsUpdate, HoldsShare, TxnsOk;
    StartIsOk(orders, ledger);
    RunKeepsInv(State(orders, ledger, map[]), actions);
  }

  /* ---- When costs are retained ---- */

  /** A prepared change commits the closing of a cost-required order that has no standing cost. */
  ghost predicate Loses(s: State, a: Action) {
    && a.Advance? && a.t in s.txns && s.txns[a.t].Changing? && s.txns[a.t].prepared && s.txns[a.t].pc.Written?
    && s.txns[a.t].pc.next.status.Closed? && s.txns[a.t].pc.next.costRequired && !HasCost(s.ledger, s.txns[a.t].order)
  }

  lemma WrittenMeans(s: State, t: nat)
    requires Inv(s) && t in s.txns && s.txns[t].Changing? && s.txns[t].pc.Written?
    ensures var txn := s.txns[t];
      txn.pc.next.status.Closed? && txn.pc.next.costRequired && !txn.prepared ==> HasCost(s.ledger, txn.order)
  {
    hide HasCost, LedgerInv;
    assert TxnOk(s.orders, s.ledger, s.txns[t]);
  }

  lemma ChangeRetainsExactlyWhen(s: State, t: nat)
    requires Inv(s) && CostRetained(s) && t in s.txns && s.txns[t].Changing?
    ensures CostRetained(StepChange(s, t, s.txns[t])) <==> !Loses(s, Advance(t))
  {
    hide Inv, HasCost, UpdateFree, Gated;
    var txn := s.txns[t];
    var after := StepChange(s, t, txn);
    if txn.pc.Written? {
      WrittenMeans(s, t);
      assert ClosedRequiringCost(after.orders, txn.order) <==> txn.pc.next.status.Closed? && txn.pc.next.costRequired;
      forall o | o != txn.order
        ensures ClosedRequiringCost(after.orders, o) <==> ClosedRequiringCost(s.orders, o)
      {
      }
    }
  }

  lemma AppendRetains(s: State, t: nat)
    requires Inv(s) && CostRetained(s) && t in s.txns && s.txns[t].Appending?
    ensures CostRetained(StepAppend(s, t, s.txns[t]))
  {
    hide Inv, HasCost, ClosedRequiringCost, ShareFree, WellFormed;
    TxnIsOk(s, t);
    var e := s.txns[t].entry;
    if s.txns[t].locked && e.id !in s.ledger {
      forall o | ClosedRequiringCost(s.orders, o)
        ensures HasCost(s.ledger[e.id := e], o)
      {
        NewOriginalKeepsCost(s.ledger, e, o);
      }
    }
  }

  lemma ReverseRetains(s: State, t: nat)
    requires Inv(s) && CostRetained(s) && t in s.txns && s.txns[t].Reversing?
    ensures CostRetained(StepReverse(s, t, s.txns[t]))
  {
    hide Inv, HasCost, ClosedRequiringCost, UpdateFree, IsReversed, RetainsCost, NonBlank;
    var txn := s.txns[t];
    var after := StepReverse(s, t, txn);
    if txn.rpc.Cleared? && after.ledger != s.ledger {
      var e := txn.rpc.original;
      ClearedMeans(s, t);
      forall o | ClosedRequiringCost(s.orders, o)
        ensures HasCost(after.ledger, o)
      {
        var r := ReversalOf(e, txn.source, txn.payload, txn.freshId);
        if IsActualCostOf(e, o) {
          ReversalLeavesReplacement(s.ledger, r, e, o);
        } else {
          ReversalKeepsOtherCosts(s.ledger, r, e, o);
        }
      }
    }
  }

  lemma StepRetainsExactlyWhen(s: State, a: Action)
    requires Inv(s) && CostRetained(s)
    ensures CostRetained(Step(s, a)) <==> !Loses(s, a)
  {
    hide Inv, HasCost, ClosedRequiringCost, StepChange, StepAppend, StepReverse, Entered;
    if a.Advance? && a.t in s.txns {
      match s.txns[a.t]
      case Changing(_, _, _, _, _) => ChangeRetainsExactlyWhen(s, a.t);
      case Appending(_, _) => AppendRetains(s, a.t);
      case Reversing(_, _, _, _, _) => ReverseRetains(s, a.t);
    }
  }

  /** The cost of every closed cost-required order stands in every state of the run. */
  ghost predicate AlwaysRetained(s: State, actions: seq<Action>)
    decreases |actions|
  {
    CostRetained(s) && (actions != [] ==> AlwaysRetained(Step(s, actions[0]), actions[1..]))
  }

  /** Some step of the run closes an order without the cost it requires. */
  ghost predicate EverLoses(s: State, actions: seq<Action>)
    decreases |actions|
  {
    actions != [] && (Loses(s, actions[0]) || EverLoses(Step(s, actions[0]), actions[1..]))
  }

  lemma {:induction false} RunRetainsExactlyWhen(s: State, actions: seq<Action>)
    requires Inv(s) && CostRetained(s)
    ensures AlwaysRetained(s, actions) <==> !EverLoses(s, actions)
    decreases |actions|
  {
    hide Inv, CostRetained, Loses, Step;
    if actions != [] {
      StepKeepsInv(s, actions[0]);
      StepRetainsExactlyWhen(s, actions[0]);
      if Loses(s, actions[0]) {
        NotRetained(Step(s, actions[0]), actions[1..]);
      } else {
        RunRetainsExactlyWhen(Step(s, actions[0]), actions[1..]);
      }
    }
  }

  lemma NotRetained(s: State, actions: seq<Action>)
    requires !CostRetained(s)
    ensures !AlwaysRetained(s, actions)
  {
    hide CostRetained;
  }

  /**
   In every interleaving of transactions that change orders, append costs and reverse costs, with any
   of them ending at any point: every closed cost-required order has an unreversed actual cost in every
   state if and only if it has at the start and no prepared change closes such an order without one.
   */
  lemma CostRetainedExactlyWhen(orders: map<Id, Order>, ledger: Ledger, actions: seq<Action>)
    requires LedgerInv(ledger)
    ensures var s := State(orders, ledger, map[]);
      AlwaysRetained(s, actions) <==> CostRetained(s) && !EverLoses(s, actions)
  {
    hide LedgerInv, CostRetained, EverLoses, AlwaysRetained;
    StartIsOk(orders, ledger);
    var s := State(orders, ledger, map[]);
    if CostRetained(s) { RunRetainsExactlyWhen(s, actions); } else { NotRetained(s, actions); }
  }

  /** A closing transaction that does not pass the cost gate. */
  predicate BypassesGate(a: Action) {
    a.Start? && a.txn.Changing? && a.txn.prepared && a.txn.target.Closed?
  }

  /** No transaction is a prepared closing. */
  ghost predicate Unprepared(txns: map<nat, Txn>) {
    forall t :: t in txns && txns[t].Changing? ==> !(txns[t].prepared && txns[t].target.Closed?)
  }

  lemma StepStaysUnprepared(s: State, a: Action)
    requires Inv(s) && Unprepared(s.txns) && !BypassesGate(a)
    ensures Unprepared(Step(s, a).txns) && !Loses(s, a)
  {
    hide HasCost, IsReversed, RetainsCost, ClosedRequiringCost, UpdateFree, ShareFree, Exclusive, LedgerInv, WellFormed;
    if a.Advance? && a.t in s.txns && s.txns[a.t].Changing? {
      assert TxnOk(s.orders, s.ledger, s.txns[a.t]);
    }
  }

  lemma {:induction false} RunWithoutBypassNeverLoses(s: State, actions: seq<Action>)
    requires Inv(s) && Unprepared(s.txns) && forall i :: 0 <= i < |actions| ==> !BypassesGate(actions[i])
    ensures !EverLoses(s, actions)
    decreases |actions|
  {
    hide Inv, Unprepared, Loses, Step, BypassesGate;
    if actions != [] {
      StepKeepsInv(s, actions[0]);
      StepStaysUnprepared(s, actions[0]);
      RunWithoutBypassNeverLoses(Step(s, actions[0]), actions[1..]);
    }
  }

  lemma {:induction false} AlwaysMeansAtTheEnd(s: State, actions: seq<Action>)
    requires AlwaysRetained(s, actions)
    ensures CostRetained(Run(s, actions))
    decreases |actions|
  {
    hide CostRetained, Step;
    if actions != [] { AlwaysMeansAtTheEnd(Step(s, actions[0]), actions[1..]); }
  }

  /** If only changes that pass the gate close orders, what is retained at the start is retained after any run. */
  lemma ClosedOrdersRetainTheirCost(orders: map<Id, Order>, ledger: Ledger, actions: seq<Action>, o: Id)
    requires LedgerInv(ledger) && forall x :: ClosedRequiringCost(orders, x) ==> HasCost(ledger, x)
    requires forall i :: 0 <= i < |actions| ==> !BypassesGate(actions[i])
    ensures var s := Run(State(orders, ledger, map[]), actions);
      ClosedRequiringCost(s.orders, o) ==> HasCost(s.ledger, o)
  {
    hide Run, HasCost, ClosedRequiringCost, LedgerInv, EverLoses, AlwaysRetained, BypassesGate;
    var s := State(orders, ledger, map[]);
    StartIsOk(orders, ledger);
    RunWithoutBypassNeverLoses(s, actions);
    CostRetainedExactlyWhen(orders, ledger, actions);
    AlwaysMeansAtTheEnd(s, actions);
  }

  /* ---- Standing costs do not change under the lock ---- */

  lemma NewOriginalOfOtherOrder(ledger: Ledger, e: Entry, o: Id)
    requires e.kind.Original? && e.id !in ledger && e.facts.workOrderId != Some(o)
    ensures HasCost(ledger[e.id := e], o) == HasCost(ledger, o)
  {
    hide IsReversed;
    if HasCost(ledger, o) { NewOriginalKeepsCost(ledger, e, o); }
    if HasCost(ledger[e.id := e], o) {
      var after := ledger[e.id := e];
      var id :| id in after && IsActualCostOf(after[id], o) && !IsReversed(after, id);
      NewOriginalKeepsReversed(ledger, e, id);
    }
  }

  lemma ReversalOfOtherOrder(ledger: Ledger, r: Entry, e: Entry, o: Id)
    requires r.id !in ledger && r.kind.Reversal? && r.reversalOf == Some(e.id) && e.id in ledger && ledger[e.id] == e
    requires e.facts.workOrderId != Some(o)
    ensures HasCost(ledger[r.id := r], o) == HasCost(ledger, o)
  {
    hide IsReversed;
    if HasCost(ledger, o) { ReversalKeepsOtherCosts(ledger, r, e, o); }
    if HasCost(ledger[r.id := r], o) {
      var after := ledger[r.id := r];
      var id :| id in after && IsActualCostOf(after[id], o) && !IsReversed(after, id);
      ReversalReversesOne(ledger, r, id);
    }
  }

  /**
   Once a change has locked its order, nothing anyone does alters whether the order has a standing
   cost until it ends: a caller that looks after locking knows whether the closing will lose it.
   */
  lemma CostStandsStillUnderTheLock(s: State, a: Action, t: nat)
    requires Inv(s) && t in s.txns && s.txns[t].Changing? && !s.txns[t].pc.Unlocked?
    ensures HasCost(Step(s, a).ledger, s.txns[t].order) == HasCost(s.ledger, s.txns[t].order)
  {
    hide Inv, HasCost, IsReversed, RetainsCost, ClosedRequiringCost, UpdateFree, ShareFree, WellFormed, NonBlank;
    hide StepChange;
    var o := s.txns[t].order;
    if a.Advance? && a.t in s.txns {
      LockExcludes(s, t, a.t);
      var after := Step(s, a);
      match s.txns[a.t]
      case Changing(_, _, _, _, _) => ChangesNoEntry(s, a.t);
      case Appending(e, _) =>
        TxnIsOk(s, a.t);
        if after.ledger != s.ledger { NewOriginalOfOtherOrder(s.ledger, e, o); }
      case Reversing(_, source, payload, freshId, rpc) =>
        if after.ledger != s.ledger {
          ClearedMeans(s, a.t);
          ReversalOfOtherOrder(s.ledger, ReversalOf(rpc.original, source, payload, freshId), rpc.original, o);
        }
    }
  }

  lemma LockExcludes(s: State, t: nat, u: nat)
    requires Inv(s) && t in s.txns && s.txns[t].Changing? && !s.txns[t].pc.Unlocked? && u in s.txns
    ensures t != u ==> !HoldsUpdate(s.txns[u], s.txns[t].order) && !HoldsShare(s.txns[u], s.txns[t].order)
  {
    hide LedgerInv, TxnsOk, HoldsShare;
    assert HoldsUpdate(s.txns[t], s.txns[t].order);
  }

  lemma ChangesNoEntry(s: State, t: nat)
    requires t in s.txns && s.txns[t].Changing?
    ensures StepChange(s, t, s.txns[t]).ledger == s.ledger
  {
    hide HasCost, UpdateFree, Gated;
  }

  /* ---- The cost gate itself ---- */

  /** Reversals among the entries: the ids of the originals they name. */
  function ReversedIn(entries: seq<Entry>): set<Id> {
    set e | e in entries && e.kind.Reversal? && e.reversalOf.Some? :: e.reversalOf.value
  }

  /** Within a listing of an order, an original is reversed exactly if the listing shows its reversal. */
  lemma ListingShowsReversals(entries: seq<Entry>, ledger: Ledger, o: Id, e: Entry)
    requires LedgerInv(ledger) && Lists(entries, ledger, OfWorkOrder(o)) && e in entries && e.kind.Original?
    ensures e.id in ReversedIn(entries) <==> IsReversed(ledger, e.id)
    ensures e.id in ledger && ledger[e.id] == e && e.facts.workOrderId == Some(o)
  {
    hide WellFormed, DistinctIds, SameTarget;
    assert e in Listed(ledger, OfWorkOrder(o));
    if e.id in ReversedIn(entries) {
      var r :| r in entries && r.kind.Reversal? && r.reversalOf == Some(e.id);
      assert r in Listed(ledger, OfWorkOrder(o));
      assert ledger[r.id] == r;
    }
    if IsReversed(ledger, e.id) {
      var id :| id in ledger && ledger[id].kind.Reversal? && ledger[id].reversalOf == Some(e.id);
      assert ReversesProperly(ledger, ledger[id]);
      assert ledger[id] in Listed(ledger, OfWorkOrder(o));
      assert ledger[id] in entries;
    }
  }

  /** Some entry of the listing is an actual cost that no entry of the listing reverses. */
  predicate Confirms(entries: seq<Entry>) {
    exists j :: 0 <= j < |entries| && StandsIn(entries[j], ReversedIn(entries))
  }

  /** The gate goes through a listing of the order's entries for an actual cost that stands. */
  method ConfirmCost(entries: seq<Entry>) returns (confirmed: bool)
    ensures confirmed <==> Confirms(entries)
    ensures forall ledger, o :: LedgerInv(ledger) && Lists(entries, ledger, OfWorkOrder(o)) ==>
      (confirmed <==> HasCost(ledger, o))
  {
    hide LedgerInv, Lists, IsReversed, StandsIn, HasCost;
    var reversed := ReversedIn(entries);
    confirmed := false;
    var i := 0;
    while i < |entries|
      invariant 0 <= i <= |entries|
      invariant confirmed <==> exists j :: 0 <= j < i && StandsIn(entries[j], reversed)
    {
      if StandsIn(entries[i], reversed) { confirmed := true; }
      i := i + 1;
    }
    forall ledger, o | LedgerInv(ledger) && Lists(entries, ledger, OfWorkOrder(o))
      ensures confirmed <==> HasCost(ledger, o)
    {
      ConfirmsExactlyStandingCosts(entries, ledger, o);
    }
  }

  lemma ConfirmsExactlyStandingCosts(entries: seq<Entry>, ledger: Ledger, o: Id)
    requires LedgerInv(ledger) && Lists(entries, ledger, OfWorkOrder(o))
    ensures Confirms(entries) <==> HasCost(ledger, o)
  {
    hide LedgerInv, Lists, IsReversed;
    var reversed := ReversedIn(entries);
    if Confirms(entries) {
      var j :| 0 <= j < |entries| && StandsIn(entries[j], reversed);
      ListingShowsReversals(entries, ledger, o, entries[j]);
      assert IsActualCostOf(ledger[entries[j].id], o);
    }
    if HasCost(ledger, o) {
      var id :| id in ledger && IsActualCostOf(ledger[id], o) && !IsReversed(ledger, id);
      ListedOriginal(entries, ledger, o, id);
      ListingShowsReversals(entries, ledger, o, ledger[id]);
      var j :| 0 <= j < |entries| && entries[j] == ledger[id];
      assert StandsIn(entries[j], reversed);
    }
  }

  /**
   In every state of every run, a change that must pass the gate passes it if and only if the listing
   of its order's entries, as the ledger then is, is confirmed.
   */
  lemma GatePassesExactlyWhenConfirmed(
    orders: map<Id, Order>, ledger: Ledger, actions: seq<Action>, t: nat, entries: seq<Entry>)
    requires LedgerInv(ledger)
    requires var s := Run(State(orders, ledger, map[]), actions);
      && t in s.txns && s.txns[t].Changing? && s.txns[t].pc.Read?
      && Gated(s.txns[t].pc.header, s.txns[t].target, s.txns[t].prepared)
      && Lists(entries, s.ledger, OfWorkOrder(s.txns[t].order))
    ensures var s := Run(State(orders, ledger, map[]), actions);
      t in Step(s, Advance(t)).txns <==> Confirms(entries)
  {
    hide Run, LedgerInv, HasCost, Lists, Confirms;
    var s := Run(State(orders, ledger, map[]), actions);
    StartIsOk(orders, ledger);
    RunKeepsInv(State(orders, ledger, map[]), actions);
    TxnIsOk(s, t);
    ConfirmsExactlyStandingCosts(entries, s.ledger, s.txns[t].order);
  }

  predicate StandsIn(e: Entry, reversed: set<Id>) {
    e.kind.Original? && e.facts.actionType.ActualCost? && e.id !in reversed
  }

  lemma ListedOriginal(entries: seq<Entry>, ledger: Ledger, o: Id, id: Id)
    requires LedgerInv(ledger) && Lists(entries, ledger, OfWorkOrder(o))
    requires id in ledger && IsActualCostOf(ledger[id], o)
    ensures ledger[id] in entries && ledger[id].id == id
  {
    hide WellFormed, DistinctIds, SameTarget, ReversesProperly;
    assert ledger[id] in Listed(ledger, OfWorkOrder(o));
  }

  /** A prepared change to closed does not pass the gate, and can close a cost-required order without any cost. */
  lemma PreparedCloseLosesTheCost(o: Id) returns (actions: seq<Action>)
    ensures var before := map[o := Order(W.PendingCostConfirmation, true, 0)];
      var s := Run(State(before, map[], map[]), actions);
      && (forall x :: ClosedRequiringCost(before, x) ==> HasCost(map[], x))
      && ClosedRequiringCost(s.orders, o) && !HasCost(s.ledger, o)
  {
    var before := map[o := Order(W.PendingCostConfirmation, true, 0)];
    var go := Advance(0);
    actions := [Start(0, Changing(o, W.Closed, 0, true, Unlocked)), go, go, go, go, go];
    var s0 := State(before, map[], map[]);
    var h := before[o];
    var next := Order(W.Closed, true, 1);
    var s1 := Step(s0, actions[0]);
    assert s1.txns == map[0 := Changing(o, W.Closed, 0, true, Unlocked)];
    var s2 := Step(s1, go);
    assert s2.txns == map[0 := Changing(o, W.Closed, 0, true, Locked)];
    var s3 := Step(s2, go);
    assert s3.txns == map[0 := Changing(o, W.Closed, 0, true, Read(h))];
    var s4 := Step(s3, go);
    assert s4.txns == map[0 := Changing(o, W.Closed, 0, true, Checked(h))];
    var s5 := Step(s4, go);
    assert s5.txns == map[0 := Changing(o, W.Closed, 0, true, Written(h, next))];
    var s6 := Step(s5, go);
    assert s6.orders[o] == next;
    FiveMore(s1, go);
    assert Run(s0, actions) == Run(s1, [go, go, go, go, go]);
  }

  lemma RunFirst(s: State, a: Action, rest: seq<Action>)
    ensures Run(s, [a] + rest) == Run(Step(s, a), rest)
  {
    hide Step;
    assert ([a] + rest)[1..] == rest;
  }

  lemma FiveMore(s: State, a: Action)
    ensures Run(s, [a, a, a, a, a]) == Step(Step(Step(Step(Step(s, a), a), a), a), a)
  {
    hide Step, Run;
    var s1, s2, s3 := Step(s, a), Step(Step(s, a), a), Step(Step(Step(s, a), a), a);
    RunFirst(s, a, [a, a, a, a]);
    RunFirst(s1, a, [a, a, a]);
    RunFirst(s2, a, [a, a]);
    RunFirst(s3, a, [a]);
    RunFirst(Step(s3, a), a, []);
    RunNothing(Step(Step(s3, a), a));
    assert [a] + [a, a, a, a] == [a, a, a, a, a] && [a] + [a, a, a] == [a, a, a, a];
    assert [a] + [a, a] == [a, a, a] && [a] + [a] == [a, a] && [a] + [] == [a];
  }

  lemma RunNothing(s: State)
    ensures Run(s, []) == s
  {
  }
}
