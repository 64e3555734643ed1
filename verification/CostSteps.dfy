/**
 When each step of a status change, an append and a reversal is taken and what it leaves, said of the
 orders, the ledger and the locks others hold.
 */
module CostSteps {
  import opened Wrappers
  import opened AssetTypes
  import opened CostLedger
  import opened CostSummary
  import AccountingStore
  import opened CostRetention
  import W = WorkOrders

  /* ---- Locks ---- */

  /** Which transactions hold an order's row for update: changes past locking, and reversals past theirs. */
  lemma UpdateLocksMean(txn: Txn, o: Id)
    ensures HoldsUpdate(txn, o) <==>
      || (txn.Changing? && txn.order == o && txn.pc != Unlocked)
      || (txn.Reversing? && !txn.rpc.Starting? && !txn.rpc.Observed? && txn.rpc.original.facts.workOrderId == Some(o))
    ensures HoldsShare(txn, o) <==> txn.Appending? && txn.locked && txn.entry.facts.workOrderId == Some(o)
  {
  }

  /** Nobody else holds the row at all, or nobody else holds it for update. */
  lemma FreeMeans(txns: map<nat, Txn>, t: nat, o: Id)
    ensures UpdateFree(txns, t, o) <==>
      !exists u :: u in txns && u != t && (HoldsUpdate(txns[u], o) || HoldsShare(txns[u], o))
    ensures ShareFree(txns, t, o) <==> !exists u :: u in txns && u != t && HoldsUpdate(txns[u], o)
  {
    hide HoldsUpdate, HoldsShare;
  }

  /** The transaction ends without effect. */
  predicate Gone(s: State, after: State, t: nat) { after == s.(txns := s.txns - {t}) }

  /** The transaction goes on, and nothing else changes. */
  predicate GoesOn(s: State, after: State, t: nat, txn: Txn) { after == s.(txns := s.txns[t := txn]) }

  /* ---- A status change ---- */

  /** Locking the row, reading it, and what the gate stops: an unprepared closing that requires a cost and has none. */
  lemma ChangeBeginsExactly(s: State, t: nat)
    requires t in s.txns && s.txns[t].Changing?
    ensures var (txn, after) := (s.txns[t], Step(s, Advance(t)));
      match txn.pc
      case Unlocked =>
        if UpdateFree(s.txns, t, txn.order) then GoesOn(s, after, t, txn.(pc := Locked)) else Gone(s, after, t)
      case Locked =>
        if txn.order in s.orders then GoesOn(s, after, t, txn.(pc := Read(s.orders[txn.order]))) else Gone(s, after, t)
      case Read(h) =>
        var stopped := !txn.prepared && h.status == W.PendingCostConfirmation && h.costRequired
          && txn.target == W.Closed
          && txn.order in s.orders && s.orders[txn.order].costRequired
          && !exists id ::
                id in s.ledger && s.ledger[id].kind == Original && s.ledger[id].facts.actionType == ActualCost
                && s.ledger[id].facts.workOrderId == Some(txn.order) && !IsReversed(s.ledger, id);
        if stopped then Gone(s, after, t) else GoesOn(s, after, t, txn.(pc := Checked(h)))
      case _ => true
  {
    hide IsReversed, UpdateFree;
    var txn := s.txns[t];
    if id :| id in s.ledger && s.ledger[id].kind == Original && s.ledger[id].facts.actionType == ActualCost
             && s.ledger[id].facts.workOrderId == Some(txn.order) && !IsReversed(s.ledger, id) {
      assert IsActualCostOf(s.ledger[id], txn.order);
    }
  }

  /** Writing an allowed change of the row still as read, and committing it. */
  lemma ChangeEndsExactly(s: State, t: nat)
    requires t in s.txns && s.txns[t].Changing?
    ensures var (txn, after) := (s.txns[t], Step(s, Advance(t)));
      match txn.pc
      case Checked(h) =>
        if h.version == txn.expectedVersion && W.TransitionAllowed(h.status, txn.target, h.costRequired)
           && txn.order in s.orders && s.orders[txn.order].status == h.status
           && s.orders[txn.order].version == h.version
        then
          GoesOn(
            s, after, t,
            txn.(pc := Written(h, Order(txn.target, s.orders[txn.order].costRequired, h.version + 1))))
        else Gone(s, after, t)
      case Written(_, next) => after == s.(orders := s.orders[txn.order := next], txns := s.txns - {t})
      case _ => true
  {
    hide HasCost, UpdateFree;
  }

  /* ---- Appends and reversals ---- */

  /** An append shares the row of its order, if it has one, and then adds its entry under a new id. */
  lemma AppendsExactly(s: State, t: nat)
    requires t in s.txns && s.txns[t].Appending?
    ensures var (txn, after) := (s.txns[t], Step(s, Advance(t)));
      var order := txn.entry.facts.workOrderId;
      if !txn.locked then
        if order.Some? && !ShareFree(s.txns, t, order.value) then Gone(s, after, t)
        else GoesOn(s, after, t, txn.(locked := true))
      else if txn.entry.id in s.ledger then Gone(s, after, t)
      else after == s.(ledger := s.ledger[txn.entry.id := txn.entry], txns := s.txns - {t})
  {
    hide ShareFree;
  }

  /**
   A reversal finds its original, locks the order's row, reads the original again, asks whether a closed
   cost-required order keeps a cost, and adds the reversal of an original that has none.
   */
  lemma ReversesExactly(s: State, t: nat)
    requires t in s.txns && s.txns[t].Reversing?
    ensures var (txn, after) := (s.txns[t], Step(s, Advance(t)));
      var found := txn.originalId in s.ledger && s.ledger[txn.originalId].kind == Original;
      match txn.rpc
      case Starting =>
        if found then GoesOn(s, after, t, txn.(rpc := Observed(s.ledger[txn.originalId]))) else Gone(s, after, t)
      case Observed(e) =>
        if e.facts.workOrderId.Some? && !UpdateFree(s.txns, t, e.facts.workOrderId.value) then Gone(s, after, t)
        else GoesOn(s, after, t, txn.(rpc := Held(e)))
      case Held(_) =>
        if !found then Gone(s, after, t)
        else
          var e := s.ledger[txn.originalId];
          var asks := e.facts.actionType == ActualCost && e.facts.workOrderId.Some?
            && e.facts.workOrderId.value in s.orders
            && s.orders[e.facts.workOrderId.value].status == W.Closed
            && s.orders[e.facts.workOrderId.value].costRequired;
          GoesOn(s, after, t, txn.(rpc := if asks then OrderClosed(e) else Cleared(e)))
      case OrderClosed(e) =>
        if AccountingStore.RetainsCost(s.ledger, e) then GoesOn(s, after, t, txn.(rpc := Cleared(e)))
        else Gone(s, after, t)
      case Cleared(e) =>
        if txn.payload.CostReverse? && txn.freshId !in s.ledger && !IsReversed(s.ledger, e.id)
        then
          var r := Entry(txn.freshId, Reversal, e.facts, -e.amount, Some(e.id), txn.payload.at, txn.payload.actorId,
                         txn.source);
          after == s.(ledger := s.ledger[txn.freshId := r], txns := s.txns - {t})
        else Gone(s, after, t)
  {
    hide IsReversed, UpdateFree, AccountingStore.RetainsCost;
  }

  /* ---- Starting and aborting ---- */

  /** Transactions start at their beginning, under a new number, and may end at any point. */
  lemma StartsAndAborts(s: State, t: nat, txn: Txn)
    ensures Step(s, Abort(t)) == s.(txns := s.txns - {t})
    ensures t !in s.txns && txn.Changing? && txn.pc == Unlocked ==>
      Step(s, Start(t, txn)) == s.(txns := s.txns[t := txn])
    ensures t !in s.txns && txn.Appending? && !txn.locked && txn.entry.kind == Original && WellFormed(txn.entry) ==>
      Step(s, Start(t, txn)) == s.(txns := s.txns[t := txn])
    ensures
      t !in s.txns && txn.Reversing? && txn.rpc == Starting && txn.payload.CostReverse? && NonBlank(txn.freshId) ==>
      Step(s, Start(t, txn)) == s.(txns := s.txns[t := txn])
    ensures t in s.txns ==> Step(s, Start(t, txn)) == s
    ensures t !in s.txns ==> Step(s, Advance(t)) == s
  {
    hide WellFormed, NonBlank;
  }
}
