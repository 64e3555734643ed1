/** What the closure-financial scope is and what a first financial command does, said of the command alone. */
module FinancialAnswers {
  import opened Wrappers
  import opened AssetTypes
  import opened AccountingStore
  import opened AccountingInvariants
  import opened FinancialRecovery

  /**
   The scope: a settlement waiver or write-off, under a closure-approval source whose key has the prefix of its
   kind and something more, about the settlement case the source names, which the snapshot names too, and the
   bill the snapshot names.
   */
  lemma ScopeMeans(
    rd: Reading, isRequest: bool, source: Source, exceptionType: string, subject: Subject, snapshot: Snapshot)
    ensures InScope(rd, isRequest, source, exceptionType, subject, snapshot) <==>
      && source.sourceType == "SUBSCRIPTION_CLOSURE_APPROVAL"
      && (exists rest :: NonBlank(rest)
            && source.key == (if isRequest then "closure-approval-request:" else "closure-approval-decision:") + rest)
      && subject.subjectType == "SETTLEMENT_CASE" && subject.subjectId == source.id
      && rd.closureCaseId(snapshot) == Some(source.id)
      && match rd.billId(snapshot)
         case None => false
         case Some(bill) =>
           || (exceptionType == "SETTLEMENT_WAIVER" && subject.subjectField == "settlementWaiver:" + bill)
           || (exceptionType == "SETTLEMENT_WRITE_OFF" && subject.subjectField == "settlementWriteOff:" + bill)
  {
    hide NonBlank;
    var prefix := if isRequest then "closure-approval-request:" else "closure-approval-decision:";
    if StartsWith(source.key, prefix) && NonBlank(source.key[|prefix|..]) {
      assert source.key == prefix + source.key[|prefix|..];
    }
    if rest :| NonBlank(rest) && source.key == prefix + rest {
      assert source.key[..|prefix|] == prefix && source.key[|prefix|..] == rest;
    }
  }

  /** The same statement at another time. */
  function StatedAt(p: Payload, now: Moment): Payload
    requires p.ExceptionRequest? || p.ExceptionDecide?
  {
    match p
    case ExceptionRequest(actor, kind, subject, snapshot, evidence, reason, _) =>
      ExceptionRequest(actor, kind, subject, snapshot, evidence, reason, now)
    case ExceptionDecide(actor, id, kind, subject, snapshot, version, decision, reason, _) =>
      ExceptionDecide(actor, id, kind, subject, snapshot, version, decision, reason, now)
  }

  /** On a free source a financial command is the ordinary one at the present time, if it is in scope. */
  lemma FirstFinancialIsOrdinary(
    store: Store, d: Digest, rd: Reading, source: Source, p: Payload, w: World, now: Moment)
    requires p.ExceptionRequest? || p.ExceptionDecide?
    ensures var inScope := InScope(rd, p.ExceptionRequest?, source, p.exceptionType, p.subject, p.snapshot);
      var (after, reply) := PerformFinancial(store, d, rd, source, p, w, now);
      && (!inScope || w.busy || !w.actorLive ==> after == store && reply.Refused?)
      && (inScope && !w.busy && w.actorLive && source !in store.receipts ==>
            (after, reply) == Perform(store, d, source, StatedAt(p, now), w))
  {
    hide InScope, Perform, ValidRequestReceipt, ValidDecisionReceipt;
  }

  /**
   A legal approval: decided and expired each wholly or not at all, with one version for each, decided by
   another than its requester, and pending exactly while neither.
   */
  lemma LegalMeans(a: Approval)
    ensures ValidSuccessor(a) <==>
      && a.decision.Some? == a.decidedBy.Some? == a.decidedAt.Some? == a.decisionComment.Some?
      && a.expiredBy.Some? == a.expiredAt.Some? == a.expiryReason.Some? == a.status.Expired?
      && a.version == (if a.decision.Some? then 1 else 0) + (if a.status.Expired? then 1 else 0)
      && (a.decision.Some? ==>
            IsUuid(a.decidedBy.value) && a.decidedBy.value != a.requestedBy && NonBlank(a.decisionComment.value))
      && (a.status.Expired? ==> IsUuid(a.expiredBy.value) && NonBlank(a.expiryReason.value))
      && match a.status
         case Pending => a.decision == None
         case Approved => a.decision == Some(Approve)
         case Rejected => a.decision == Some(Reject)
         case Expired => a.decision == None || a.decision == Some(Approve)
  {
    hide IsUuid, NonBlank;
  }

  /** The approval as it was before it expired. */
  function BeforeExpiry(a: Approval): Approval {
    if !a.status.Expired? then a
    else a.(status := if a.decision.Some? then Approved else Pending,
            version := if a.decision.Some? then 1 else 0,
            expiredBy := None, expiredAt := None, expiryReason := None)
  }

  /** The approval as it was requested. */
  function AsRequested(a: Approval): Approval {
    a.(status := Pending, version := 0, decision := None, decidedBy := None, decidedAt := None,
       decisionComment := None, expiredBy := None, expiredAt := None, expiryReason := None)
  }

  predicate GoodIds(a: Approval) {
    IsUuid(a.id) && IsUuid(a.requestedBy) && IsUuid(a.subject.subjectId) && IsUuid(a.requestSource.id)
  }

  /**
   Whatever the store: the receipt of a financial request passes exactly when it is, to the last field, the one
   that requesting this approval under this source leaves, in scope, and the approval is legal now.
   */
  lemma RequestReceiptPassesExactlyWhen(d: Digest, rd: Reading, r: Receipt, a: Approval, source: Source)
    ensures ValidRequestReceipt(d, rd, r, a, source) <==>
      && a.requestSource == source && a.snapshotHash == d.ofSnapshot(a.snapshot)
      && GoodIds(a) && ValidSuccessor(a) && InScope(rd, true, source, a.exceptionType, a.subject, a.snapshot)
      && var asked := ExceptionRequest(
           a.requestedBy, a.exceptionType, a.subject, a.snapshot, a.evidence, a.requestReason, a.requestedAt);
         r == Receipt(EXCEPTION_REQUEST, asked, d.ofPayload(asked), OfApproval(AsRequested(a)), None, Some(a.id),
                      a.requestedBy)
  {
    hide InScope, IsUuid, ValidSuccessor;
  }

  /** The same of a decision: its receipt is the one that deciding this approval, expired since or not, leaves. */
  lemma DecisionReceiptPassesExactlyWhen(d: Digest, rd: Reading, r: Receipt, a: Approval, source: Source)
    ensures ValidDecisionReceipt(d, rd, r, a, source) <==>
      && ValidSuccessor(a) && a.decision.Some?
      && a.snapshotHash == d.ofSnapshot(a.snapshot) && GoodIds(a)
      && InScope(rd, false, source, a.exceptionType, a.subject, a.snapshot)
      && var said := ExceptionDecide(
           a.decidedBy.value, a.id, a.exceptionType, a.subject, a.snapshot, 0, a.decision.value,
           a.decisionComment.value, a.decidedAt.value);
         r == Receipt(EXCEPTION_DECIDE, said, d.ofPayload(said), OfApproval(BeforeExpiry(a)), None, Some(a.id),
                      a.decidedBy.value)
  {
    hide InScope, IsUuid, NonBlank;
  }

  /**
   Whatever the store, the time used for a source that has a receipt is the recorded one, and is given exactly
   when that receipt, and for a decision also the receipt of the request, passes against the stored approval.
   */
  lemma TimeIsRecoveredExactlyWhen(
    store: Store, d: Digest, rd: Reading, source: Source, p: Payload, now: Moment, at: Moment)
    requires (p.ExceptionRequest? || p.ExceptionDecide?) && source in store.receipts
    ensures TimeCandidate(store, d, rd, source, p, now) == Success(at) <==>
      var r := store.receipts[source];
      && r.approvalId.Some? && r.approvalId.value in store.approvals
      && var a := store.approvals[r.approvalId.value];
         if p.ExceptionRequest? then ValidRequestReceipt(d, rd, r, a, source) && a.requestedAt == at
         else
           && r.approvalId == Some(p.approvalId)
           && ValidDecisionReceipt(d, rd, r, a, source) && a.decidedAt == Some(at)
           && a.requestSource in store.receipts
           && ValidRequestReceipt(d, rd, store.receipts[a.requestSource], a, a.requestSource)
  {
    hide InScope, IsUuid, NonBlank, ValidSuccessor;
  }
}
