/**
 Closure-financial requests and decisions carry no time of their own: the first call takes the
 present, and a retry recovers the time of the first from its receipt, after checking that
 receipt against the approval as it is now.
 */
module FinancialRecovery {
  import opened Wrappers
  import opened AssetTypes
  import opened CostLedger
  import opened CostSummary
  import opened AccountingStore
  import opened AccountingInvariants

  /** The two identifiers read out of a financial snapshot, when they are well-formed UUIDs. */
  datatype Reading = Reading(closureCaseId: Snapshot -> Option<Id>, billId: Snapshot -> Option<Id>)

  predicate StartsWith(s: string, prefix: string) { |prefix| <= |s| && s[..|prefix|] == prefix }

  const REQUEST_PREFIX := "closure-approval-request:"
  const DECISION_PREFIX := "closure-approval-decision:"

  /** The closure-financial scope of a request (or else of a decision). */
  predicate InScope(
    rd: Reading, isRequest: bool, source: Source, exceptionType: string, subject: Subject, snapshot: Snapshot)
  {
    var prefix := if isRequest then REQUEST_PREFIX else DECISION_PREFIX;
    var fieldPrefix := if exceptionType == "SETTLEMENT_WAIVER" then "settlementWaiver:" else "settlementWriteOff:";
    && exceptionType in {"SETTLEMENT_WAIVER", "SETTLEMENT_WRITE_OFF"}
    && source.sourceType == "SUBSCRIPTION_CLOSURE_APPROVAL"
    && StartsWith(source.key, prefix) && NonBlank(source.key[|prefix|..])
    && subject.subjectType == "SETTLEMENT_CASE" && subject.subjectId == source.id
    && rd.closureCaseId(snapshot) == Some(source.id)
    && rd.billId(snapshot).Some? && subject.subjectField == fieldPrefix + rd.billId(snapshot).value
  }

  /** What never changes about an approval. */
  predicate SameRequest(a: Approval, b: Approval) {
    && a.id == b.id && a.exceptionType == b.exceptionType && a.subject == b.subject && a.snapshot == b.snapshot
    && a.snapshotHash == b.snapshotHash && a.requestReason == b.requestReason && a.evidence == b.evidence
    && a.requestedBy == b.requestedBy && a.requestedAt == b.requestedAt && a.requestSource == b.requestSource
  }

  predicate SameDecision(a: Approval, b: Approval) {
    && a.decision == b.decision && a.decidedBy == b.decidedBy && a.decidedAt == b.decidedAt
    && a.decisionComment == b.decisionComment
  }

  /** The checks common to both kinds of receipt. */
  predicate ReceiptMatches(
    d: Digest, rd: Reading, r: Receipt, a: Approval, source: Source, isRequest: bool)
  {
    && r.commandType == (if isRequest then EXCEPTION_REQUEST else EXCEPTION_DECIDE)
    && r.costEntryId.None? && r.approvalId == Some(a.id)
    && r.payloadHash == d.ofPayload(r.payload)
    && r.outcome.OfApproval?
    && var o := r.outcome.approval;
       && IsUuid(a.id) && IsUuid(r.actorId) && IsUuid(o.requestedBy) && IsUuid(o.subject.subjectId)
       && IsUuid(o.requestSource.id)
       && SameRequest(o, a)
       && o.snapshotHash == d.ofSnapshot(o.snapshot)
       && InScope(rd, isRequest, source, o.exceptionType, o.subject, o.snapshot)
       && ValidSuccessor(a)
  }

  predicate ValidRequestReceipt(d: Digest, rd: Reading, r: Receipt, a: Approval, source: Source) {
    && ReceiptMatches(d, rd, r, a, source, true)
    && var o := r.outcome.approval;
       && o.requestSource == source && r.actorId == o.requestedBy
       && o.status.Pending? && o.version == 0 && NotDecided(o) && NotExpired(o)
       && r.payload
          == ExceptionRequest(o.requestedBy, o.exceptionType, o.subject, o.snapshot, o.evidence, o.requestReason,
                              o.requestedAt)
  }

  predicate ValidDecisionReceipt(d: Digest, rd: Reading, r: Receipt, a: Approval, source: Source) {
    && ReceiptMatches(d, rd, r, a, source, false)
    && r.payload.ExceptionDecide?
    && var o := r.outcome.approval;
       && o.decision.Some? && o.status == (if o.decision.value.Approve? then Approved else Rejected)
       && o.decidedAt.Some? && o.decidedBy.Some? && IsUuid(o.decidedBy.value)
       && o.decisionComment.Some? && NonBlank(o.decisionComment.value) && NotExpired(o)
       && r.actorId == o.decidedBy.value && o.version == r.payload.expectedVersion + 1
       && SameDecision(o, a)
       && (if a.status == o.status then a.version == o.version
           else a.status.Expired? && o.status.Approved? && a.version == o.version + 1)
       && r.payload
          == ExceptionDecide(o.decidedBy.value, o.id, o.exceptionType, o.subject, o.snapshot,
                             r.payload.expectedVersion, o.decision.value, o.decisionComment.value, o.decidedAt.value)
  }

  /** The time to use: the present for a free source, the verified time of its receipt otherwise. */
  function TimeCandidate(store: Store, d: Digest, rd: Reading, source: Source, p: Payload, now: Moment)
    : Result<Moment, Rejection>
    requires p.ExceptionRequest? || p.ExceptionDecide?
  {
    if source !in store.receipts then Success(now)
    else
      var r := store.receipts[source];
      if r.approvalId.None? || (p.ExceptionDecide? && r.approvalId != Some(p.approvalId))
         || r.approvalId.value !in store.approvals
      then Failure(SourceConflict)
      else
        var a := store.approvals[r.approvalId.value];
        if p.ExceptionRequest? then
          if ValidRequestReceipt(d, rd, r, a, source) then Success(r.outcome.approval.requestedAt)
          else Failure(SourceConflict)
        else if ValidDecisionReceipt(d, rd, r, a, source)
             && a.requestSource in store.receipts
             && ValidRequestReceipt(d, rd, store.receipts[a.requestSource], a, a.requestSource)
        then Success(r.outcome.approval.decidedAt.value)
        else Failure(SourceConflict)
  }

  function At(p: Payload, at: Moment): Payload
    requires p.ExceptionRequest? || p.ExceptionDecide?
  {
    match p
    case ExceptionRequest(actor, kind, subject, snapshot, evidence, reason, _) =>
      ExceptionRequest(actor, kind, subject, snapshot, evidence, reason, at)
    case ExceptionDecide(actor, id, kind, subject, snapshot, version, decision, reason, _) =>
      ExceptionDecide(actor, id, kind, subject, snapshot, version, decision, reason, at)
  }

  /** A closure-financial request or decision; the time in `p` is not looked at. */
  function PerformFinancial(
    store: Store, d: Digest, rd: Reading, source: Source, p: Payload, w: World, now: Moment): (Store, Reply)
    requires p.ExceptionRequest? || p.ExceptionDecide?
  {
    if !InScope(rd, p.ExceptionRequest?, source, p.exceptionType, p.subject, p.snapshot)
    then (store, Refused(InvalidCommand))
    else if w.busy then (store, Refused(AuthorityBusy))
    else if !w.actorLive then (store, Refused(AuthorityInvalid))
    else
      var time := TimeCandidate(store, d, rd, source, p, now);
      if time.Failure? then (store, Refused(time.error))
      else Perform(store, d, source, At(p, time.value), w)
  }

  /* ---- The financial path is the ordinary one at some time ---- */

  /** A financial command leaves a store that some run of ordinary commands leaves too. */
  lemma FinancialStaysReachable(
    d: Digest, rd: Reading, events: seq<Event>, source: Source, p: Payload, w: World, now: Moment)
    returns (same: seq<Event>)
    requires p.ExceptionRequest? || p.ExceptionDecide?
    ensures PerformFinancial(Run(EMPTY, d, events), d, rd, source, p, w, now).0 == Run(EMPTY, d, same)
  {
    hide Perform, InScope, TimeCandidate;
    var store := Run(EMPTY, d, events);
    var time := TimeCandidate(store, d, rd, source, p, now);
    if InScope(rd, p.ExceptionRequest?, source, p.exceptionType, p.subject, p.snapshot)
       && !w.busy && w.actorLive && time.Success? {
      var event := Performed(source, At(p, time.value), w);
      RunAppend(EMPTY, d, events, [event]);
      assert Run(store, d, [event]) == Step(store, d, event);
      same := events + [event];
    } else {
      same := events;
    }
  }

  /** Whatever the store, a source that has a receipt is never written to for the first time again. */
  lemma ReceiptExcludesFirstWrite(
    store: Store, d: Digest, rd: Reading, source: Source, p: Payload, w: World, now: Moment)
    requires (p.ExceptionRequest? || p.ExceptionDecide?) && source in store.receipts
    ensures var (after, reply) := PerformFinancial(store, d, rd, source, p, w, now); after == store && !reply.Wrote?
  {
    hide InScope, TimeCandidate, Stated, FirstTime;
  }

  /* ---- What later commands can do to an approval ---- */

  /** An approval later: the request never changes, a decision stays, an approved one may expire once. */
  ghost predicate Later(before: Approval, after: Approval) {
    && SameRequest(before, after)
    && (!before.status.Pending? ==>
          && SameDecision(before, after)
          && (if after.status == before.status then after.version == before.version
              else after.status.Expired? && before.status.Approved? && after.version == before.version + 1))
  }

  lemma NewApprovalIsLater(store: Store, d: Digest, source: Source, p: Payload, a: Approval)
    requires ApprovalAllowed(store, d, source, p, a) && a.id in store.approvals && IndexedById(store)
    ensures Later(store.approvals[a.id], a) && Live(store.approvals[a.id]) && !a.status.Pending?
    ensures store.approvals[a.id].status.Approved? ==> a.status.Expired?
  {
    hide Stated, HasLive, HasSnapshot;
  }

  lemma StepIsLater(store: Store, d: Digest, event: Event, id: Id)
    requires Inv(store, d) && id in store.approvals
    ensures var after := Step(store, d, event);
      id in after.approvals
      && (after.approvals[id] == store.approvals[id]
          || (Later(store.approvals[id], after.approvals[id]) && Live(store.approvals[id])
              && !after.approvals[id].status.Pending?
              && (store.approvals[id].status.Approved? ==> after.approvals[id].status.Expired?)))
  {
    hide Inv, EntryAllowed, ApprovalAllowed, ChangeOf, Step, IndexedById, Later, Live;
    InvIsIndexed(store, d);
    StepIsItsChange(store, d, event);
    match ChangeOf(store, d, event)
    case NoChange =>
    case NewEntry(p, source, e) =>
    case NewApproval(p, source, a) =>
      if a.id == id { NewApprovalIsLater(store, d, source, p, a); }
  }

  lemma LaterAgain(a: Approval, b: Approval, c: Approval)
    requires Later(a, b) && Later(b, c) && (!a.status.Pending? ==> !b.status.Pending?)
    ensures Later(a, c)
  {
  }

  lemma LaterSame(a: Approval)
    ensures Later(a, a)
  {
  }

  lemma {:induction false} RunIsLater(store: Store, d: Digest, events: seq<Event>, id: Id)
    requires Inv(store, d) && id in store.approvals
    ensures var after := Run(store, d, events); id in after.approvals && Later(store.approvals[id], after.approvals[id])
    decreases |events|
  {
    hide Inv, Step, Later, Live;
    if events == [] {
      LaterSame(store.approvals[id]);
    } else {
      var next := Step(store, d, events[0]);
      StepKeepsInv(store, d, events[0]);
      StepIsLater(store, d, events[0], id);
      RunIsLater(next, d, events[1..], id);
      if next.approvals[id] != store.approvals[id] {
        LaterAgain(store.approvals[id], next.approvals[id], Run(store, d, events).approvals[id]);
      }
    }
  }

  /* ---- Every approval still has the receipt of its request ---- */

  ghost predicate RequestReceipted(store: Store, d: Digest, id: Id)
    requires id in store.approvals
  {
    var s := store.approvals[id].requestSource;
    && s in store.receipts
    && var r := store.receipts[s];
       && r.payload.ExceptionRequest? && r.commandType == EXCEPTION_REQUEST && Stated(s, r.payload)
       && r.payloadHash == d.ofPayload(r.payload) && r.costEntryId.None?
       && r.approvalId == Some(id) && r.actorId == r.payload.actorId
       && r.outcome == OfApproval(Requested(s, d, r.payload, id))
       && SameRequest(Requested(s, d, r.payload, id), store.approvals[id])
       && IsUuid(id)
  }

  ghost predicate RequestsReceipted(store: Store, d: Digest) {
    forall id :: id in store.approvals ==> RequestReceipted(store, d, id)
  }

  lemma NewRequestIsReceipted(store: Store, d: Digest, source: Source, p: Payload, a: Approval)
    requires ApprovalAllowed(store, d, source, p, a) && IndexedById(store) && a.id !in store.approvals
    ensures RequestReceipted(WithApproval(store, d, source, p, a), d, a.id)
  {
    hide Stated, HasLive, HasSnapshot, IsUuid;
  }

  lemma StillReceipted(store: Store, after: Store, d: Digest, id: Id)
    requires id in store.approvals && id in after.approvals && RequestReceipted(store, d, id)
    requires Remembers(store, after) && SameRequest(store.approvals[id], after.approvals[id])
    ensures RequestReceipted(after, d, id)
  {
    hide Stated, IsUuid;
  }

  lemma LaterIsSameRequest(a: Approval, b: Approval)
    requires a == b || Later(a, b)
    ensures SameRequest(a, b)
  {
  }

  lemma StepKeepsRequestsReceipted(store: Store, d: Digest, event: Event)
    requires Inv(store, d) && RequestsReceipted(store, d)
    ensures RequestsReceipted(Step(store, d, event), d)
  {
    hide Inv, Step, RequestReceipted, Remembers, Later, Live;
    var after := Step(store, d, event);
    StepRemembers(store, d, event);
    forall id | id in after.approvals
      ensures RequestReceipted(after, d, id)
    {
      if id in store.approvals {
        StepIsLater(store, d, event, id);
        LaterIsSameRequest(store.approvals[id], after.approvals[id]);
        StillReceipted(store, after, d, id);
      } else {
        StepAddsRequest(store, d, event, id);
      }
    }
  }

  lemma StepAddsRequest(store: Store, d: Digest, event: Event, id: Id)
    requires Inv(store, d) && id in Step(store, d, event).approvals && id !in store.approvals
    ensures RequestReceipted(Step(store, d, event), d, id)
  {
    hide Inv, EntryAllowed, ApprovalAllowed, ChangeOf, Step, IndexedById, RequestReceipted;
    InvIsIndexed(store, d);
    StepIsItsChange(store, d, event);
    var change := ChangeOf(store, d, event);
    if change.NewApproval? {
      NewRequestIsReceipted(store, d, change.source, change.p, change.approval);
    }
  }

  lemma {:induction false} RunKeepsRequestsReceipted(store: Store, d: Digest, events: seq<Event>)
    requires Inv(store, d) && RequestsReceipted(store, d)
    ensures RequestsReceipted(Run(store, d, events), d)
    decreases |events|
  {
    hide Inv, Step, RequestsReceipted;
    if events != [] {
      StepKeepsInv(store, d, events[0]);
      StepKeepsRequestsReceipted(store, d, events[0]);
      RunKeepsRequestsReceipted(Step(store, d, events[0]), d, events[1..]);
    }
  }

  lemma RequestIsReceipted(d: Digest, events: seq<Event>, id: Id)
    requires id in Run(EMPTY, d, events).approvals
    ensures RequestReceipted(Run(EMPTY, d, events), d, id)
    ensures ValidSuccessor(Run(EMPTY, d, events).approvals[id])
    ensures Run(EMPTY, d, events).approvals[id].id == id
  {
    hide Run, RequestReceipted, LedgerInv, ReceiptsOk, EntriesReceipted, VersionsCount, OneLive, ValidSuccessor;
    InvHolds(d, events);
    assert Inv(EMPTY, d) by { EmptyInv(d); }
    RunKeepsRequestsReceipted(EMPTY, d, events);
  }

  lemma EmptyInv(d: Digest)
    ensures Inv(EMPTY, d)
  {
    InvHolds(d, []);
  }

  /* ---- Retrying a request ---- */

  lemma RequestReceiptIsValid(store: Store, d: Digest, rd: Reading, id: Id)
    requires id in store.approvals && RequestReceipted(store, d, id)
    requires ValidSuccessor(store.approvals[id]) && store.approvals[id].id == id
    ensures var a := store.approvals[id];
      ValidRequestReceipt(d, rd, store.receipts[a.requestSource], a, a.requestSource)
      <==> IsUuid(a.requestSource.id)
           && InScope(rd, true, a.requestSource, a.exceptionType, a.subject, a.snapshot)
  {
    hide InScope, NonBlank, IsUuid, ValidSuccessor;
  }

  lemma ScopedSourceIsUuid(
    rd: Reading, isRequest: bool, source: Source, exceptionType: string, subject: Subject, snapshot: Snapshot)
    requires InScope(rd, isRequest, source, exceptionType, subject, snapshot) && IsUuid(subject.subjectId)
    ensures IsUuid(source.id)
  {
    hide NonBlank, IsUuid;
  }

  lemma StatedSubjectIsUuid(source: Source, p: Payload)
    requires Stated(source, p) && (p.ExceptionRequest? || p.ExceptionDecide?)
    ensures IsUuid(p.subject.subjectId) && IsUuid(p.actorId) && NonBlank(p.reason)
  {
    hide IsUuid, NonBlank;
  }

  /** What a first financial request leaves in the store. */
  lemma RequestWrites(
    store: Store, d: Digest, rd: Reading, source: Source, p: Payload, w: World, now: Moment)
    requires p.ExceptionRequest? && PerformFinancial(store, d, rd, source, p, w, now).1.Wrote?
    ensures var (after, reply) := PerformFinancial(store, d, rd, source, p, w, now);
      && source !in store.receipts && Stated(source, At(p, now))
      && InScope(rd, true, source, p.exceptionType, p.subject, p.snapshot)
      && var a := Requested(source, d, At(p, now), w.freshId);
         && reply == Wrote(OfApproval(a)) && a.id !in store.approvals
         && after == WithApproval(store, d, source, At(p, now), a)
         && after == Step(store, d, Performed(source, At(p, now), w))
  {
    hide InScope, Stated, HasLive, IsUuid, ValidRequestReceipt, ValidDecisionReceipt;
  }

  /**
   Retrying a closure-financial request at any later time, whatever was decided or expired since:
   the first outcome is returned, nothing is written, and the time is the first one, not `later`.
   */
  lemma RequestRetryReplays(
    d: Digest, rd: Reading, events: seq<Event>, source: Source, p: Payload, w: World, now: Moment,
    more: seq<Event>, w': World, later: Moment)
    requires p.ExceptionRequest?
    requires PerformFinancial(Run(EMPTY, d, events), d, rd, source, p, w, now).1.Wrote?
    requires w'.actorLive && !w'.busy
    ensures var (after, first) := PerformFinancial(Run(EMPTY, d, events), d, rd, source, p, w, now);
      var store := Run(after, d, more);
      && TimeCandidate(store, d, rd, source, p, later) == Success(now)
      && PerformFinancial(store, d, rd, source, p, w', later) == (store, Replayed(first.outcome))
  {
    hide Perform, Run, InScope, Stated, IsUuid, NonBlank, Step, Inv, ValidRequestReceipt, ValidDecisionReceipt;
    hide RequestReceipted, ValidSuccessor;
    var before := Run(EMPTY, d, events);
    RequestWrites(before, d, rd, source, p, w, now);
    var event := Performed(source, At(p, now), w);
    var all := events + [event];
    RunAppend(EMPTY, d, events, [event]);
    RunOne(before, d, event);
    RunAppend(EMPTY, d, all, more);
    var a := Requested(source, d, At(p, now), w.freshId);
    InvHolds(d, all);
    RunRemembers(Run(EMPTY, d, all), d, more);
    RunIsLater(Run(EMPTY, d, all), d, more, a.id);
    var store := Run(EMPTY, d, all + more);
    RequestIsReceipted(d, all + more, a.id);
    StatedSubjectIsUuid(source, At(p, now));
    ScopedSourceIsUuid(rd, true, source, p.exceptionType, p.subject, p.snapshot);
    RequestReceiptIsValid(store, d, rd, a.id);
    ReplayAtRecordedTime(store, d, source, At(p, now), w');
  }

  lemma RunOne(store: Store, d: Digest, event: Event)
    ensures Run(store, d, [event]) == Step(store, d, event)
  {
    hide Step;
    assert Run(Step(store, d, event), d, [event][1..]) == Step(store, d, event);
  }

  lemma ReplayAtRecordedTime(store: Store, d: Digest, source: Source, p: Payload, w: World)
    requires Stated(source, p) && !IsCost(TypeOf(p)) && source in store.receipts
    requires var r := store.receipts[source];
      r.commandType == TypeOf(p) && r.payload == p && r.payloadHash == d.ofPayload(p)
      && r.approvalId.Some? && r.costEntryId.None?
    ensures Perform(store, d, source, p, w) == (store, Replayed(store.receipts[source].outcome))
  {
    hide Stated, FirstTime;
  }

  /* ---- Retrying a decision ---- */

  lemma DecisionWrites(
    store: Store, d: Digest, rd: Reading, source: Source, p: Payload, w: World, now: Moment)
    requires p.ExceptionDecide? && PerformFinancial(store, d, rd, source, p, w, now).1.Wrote?
    ensures var (after, reply) := PerformFinancial(store, d, rd, source, p, w, now);
      && source !in store.receipts && Stated(source, At(p, now)) && p.approvalId in store.approvals
      && InScope(rd, false, source, p.exceptionType, p.subject, p.snapshot)
      && var b := store.approvals[p.approvalId];
         && b.status.Pending? && b.version == p.expectedVersion && b.exceptionType == p.exceptionType
         && b.subject == p.subject && HasSnapshot(b, d, p.snapshot)
         && var a := Decided(b, At(p, now));
            && reply == Wrote(OfApproval(a))
            && after == WithApproval(store, d, source, At(p, now), a)
            && after == Step(store, d, Performed(source, At(p, now), w))
  {
    hide InScope, Stated, IsUuid, ValidRequestReceipt, ValidDecisionReceipt, HasSnapshot;
  }

  /** The receipt of a decision fits its approval, as decided or since expired. */
  lemma DecisionReceiptIsValid(
    d: Digest, rd: Reading, source: Source, p: Payload, b: Approval, a: Approval)
    requires p.ExceptionDecide? && IsUuid(p.actorId) && NonBlank(p.reason) && p.approvalId == b.id && IsUuid(b.id)
    requires IsUuid(b.requestedBy) && IsUuid(b.subject.subjectId) && IsUuid(b.requestSource.id)
    requires b.status.Pending? && b.version == p.expectedVersion && b.exceptionType == p.exceptionType
    requires b.subject == p.subject && HasSnapshot(b, d, p.snapshot) && ValidSuccessor(b)
    requires Later(Decided(b, p), a) && ValidSuccessor(a)
    requires InScope(rd, false, source, p.exceptionType, p.subject, p.snapshot)
    ensures ValidDecisionReceipt(
      d, rd, Receipt(EXCEPTION_DECIDE, p, d.ofPayload(p), OfApproval(Decided(b, p)), None, Some(b.id), p.actorId), a,
      source)
  {
    hide InScope, IsUuid, NonBlank;
  }

  lemma RequestFacts(store: Store, d: Digest, id: Id)
    requires id in store.approvals && RequestReceipted(store, d, id) && store.approvals[id].id == id
    ensures var a := store.approvals[id]; IsUuid(a.id) && IsUuid(a.requestedBy) && IsUuid(a.subject.subjectId)
  {
    hide IsUuid, NonBlank;
  }

  /**
   Retrying a closure-financial decision at any later time replays the first outcome at the first
   time, exactly when the approval itself was requested in the closure-financial scope; otherwise
   the retry is a source conflict. Either way nothing is written.
   */
  lemma DecisionRetryReplays(
    d: Digest, rd: Reading, events: seq<Event>, source: Source, p: Payload, w: World, now: Moment,
    more: seq<Event>, w': World, later: Moment)
    requires p.ExceptionDecide?
    requires PerformFinancial(Run(EMPTY, d, events), d, rd, source, p, w, now).1.Wrote?
    requires w'.actorLive && !w'.busy
    ensures var (after, first) := PerformFinancial(Run(EMPTY, d, events), d, rd, source, p, w, now);
      var store := Run(after, d, more);
      && p.approvalId in after.approvals
      && var a := after.approvals[p.approvalId];
         PerformFinancial(store, d, rd, source, p, w', later)
         == (store, if IsUuid(a.requestSource.id)
                       && InScope(rd, true, a.requestSource, a.exceptionType, a.subject, a.snapshot)
                    then Replayed(first.outcome) else Refused(SourceConflict))
  {
    hide Perform, Run, InScope, Stated, IsUuid, NonBlank, Step, Inv, ValidRequestReceipt, ValidDecisionReceipt;
    hide RequestReceipted, ValidSuccessor, HasSnapshot, Later;
    var before := Run(EMPTY, d, events);
    DecisionWrites(before, d, rd, source, p, w, now);
    var event := Performed(source, At(p, now), w);
    var all := events + [event];
    RunAppend(EMPTY, d, events, [event]);
    RunOne(before, d, event);
    RunAppend(EMPTY, d, all, more);
    RequestIsReceipted(d, events, p.approvalId);
    RequestFacts(before, d, p.approvalId);
    InvHolds(d, all);
    RunRemembers(Run(EMPTY, d, all), d, more);
    RunIsLater(Run(EMPTY, d, all), d, more, p.approvalId);
    DecisionRetry(d, rd, all + more, source, At(p, now), before.approvals[p.approvalId], w', later);
  }

  /** The retry itself, in a store that still holds the decision's receipt. */
  lemma DecisionRetry(
    d: Digest, rd: Reading, events: seq<Event>, source: Source, p: Payload, b: Approval, w: World, later: Moment)
    requires p.ExceptionDecide? && Stated(source, p) && b.id == p.approvalId && IsUuid(b.id)
    requires IsUuid(b.requestedBy) && IsUuid(b.subject.subjectId)
    requires b.status.Pending? && b.version == p.expectedVersion && b.exceptionType == p.exceptionType
    requires b.subject == p.subject && HasSnapshot(b, d, p.snapshot) && ValidSuccessor(b)
    requires InScope(rd, false, source, p.exceptionType, p.subject, p.snapshot)
    requires w.actorLive && !w.busy
    requires var store := Run(EMPTY, d, events);
      && source in store.receipts && b.id in store.approvals && Later(Decided(b, p), store.approvals[b.id])
      && store.receipts[source]
         == Receipt(EXCEPTION_DECIDE, p, d.ofPayload(p), OfApproval(Decided(b, p)), None, Some(b.id), p.actorId)
    ensures var store := Run(EMPTY, d, events);
      PerformFinancial(store, d, rd, source, At(p, later), w, later)
      == (store, if IsUuid(b.requestSource.id)
                    && InScope(rd, true, b.requestSource, b.exceptionType, b.subject, b.snapshot)
                 then Replayed(OfApproval(Decided(b, p))) else Refused(SourceConflict))
  {
    hide Perform, Run, InScope, Stated, IsUuid, NonBlank, ValidRequestReceipt, ValidDecisionReceipt;
    hide RequestReceipted, ValidSuccessor, HasSnapshot, Later;
    var store := Run(EMPTY, d, events);
    var a := store.approvals[b.id];
    LaterIsSameRequest(Decided(b, p), a);
    RequestIsReceipted(d, events, b.id);
    RequestReceiptIsValid(store, d, rd, b.id);
    RequestSourceReceipted(store, d, b.id);
    StatedSubjectIsUuid(source, p);
    if IsUuid(b.requestSource.id) && InScope(rd, true, b.requestSource, b.exceptionType, b.subject, b.snapshot) {
      DecisionReceiptIsValid(d, rd, source, p, b, a);
      ReplayAtRecordedTime(store, d, source, p, w);
    }
  }

  lemma RequestSourceReceipted(store: Store, d: Digest, id: Id)
    requires id in store.approvals && RequestReceipted(store, d, id)
    ensures store.approvals[id].requestSource in store.receipts
  {
  }

  /* ---- An approval requested outside the financial scope ---- */

  function UuidOf(c: char): string { seq(36, i => if i in {8, 13, 18, 23} then '-' else c) }

  lemma UuidOfIsUuid(c: char)
    requires '0' <= c <= '9' || 'a' <= c <= 'f'
    ensures IsUuid(UuidOf(c)) && NonBlank(UuidOf(c))
  {
    assert UuidOf(c)[0] == c;
  }

  const CASE := UuidOf('1')
  const BILL := UuidOf('2')
  const READING := Reading(_ => Some(CASE), _ => Some(BILL))
  const MATTER := Subject("SETTLEMENT_CASE", CASE, "settlementWaiver:" + BILL)
  const PRESENT := World(false, true, true, true, false, UuidOf('3'))

  /** Requested by one user as any exception is, not as a closure approval. */
  const ASKED_AT := Source("MANUAL", CASE, "ask")
  const ASKED := ExceptionRequest(UuidOf('a'), "SETTLEMENT_WAIVER", MATTER, "{}", None, "r", 0)

  /** Decided by another as a closure approval. */
  const DECIDED_AT := Source("SUBSCRIPTION_CLOSURE_APPROVAL", CASE, DECISION_PREFIX + "1")
  const DECIDED := ExceptionDecide(UuidOf('b'), UuidOf('3'), "SETTLEMENT_WAIVER", MATTER, "{}", 0, Approve, "r", 0)

  lemma RequestIsAccepted(d: Digest)
    ensures Run(EMPTY, d, [Performed(ASKED_AT, ASKED, PRESENT)])
      == WithApproval(EMPTY, d, ASKED_AT, ASKED, Requested(ASKED_AT, d, ASKED, UuidOf('3')))
  {
    hide IsUuid, NonBlank, UuidOf, WithApproval;
    UuidOfIsUuid('1');
    UuidOfIsUuid('3');
    UuidOfIsUuid('a');
    TextsAreNotBlank();
    RunOne(EMPTY, d, Performed(ASKED_AT, ASKED, PRESENT));
  }

  lemma TextsAreNotBlank()
    ensures NonBlank("MANUAL") && NonBlank("ask") && NonBlank("r") && NonBlank("1")
    ensures NonBlank("SUBSCRIPTION_CLOSURE_APPROVAL") && NonBlank(DECISION_PREFIX + "1")
    ensures NonBlank("settlementWaiver:" + BILL)
  {
    assert "MANUAL"[0] == 'M' && "ask"[0] == 'a' && "r"[0] == 'r' && "1"[0] == '1';
    assert "SUBSCRIPTION_CLOSURE_APPROVAL"[0] == 'S' && (DECISION_PREFIX + "1")[0] == 'c';
    assert ("settlementWaiver:" + BILL)[0] == 's';
  }

  lemma DecisionIsInScope()
    ensures InScope(READING, false, DECIDED_AT, "SETTLEMENT_WAIVER", MATTER, "{}")
    ensures !InScope(READING, true, ASKED_AT, "SETTLEMENT_WAIVER", MATTER, "{}")
  {
    hide NonBlank, UuidOf;
    TextsAreNotBlank();
    var key := DECISION_PREFIX + "1";
    assert key[..|DECISION_PREFIX|] == DECISION_PREFIX && key[|DECISION_PREFIX|..] == "1";
  }

  lemma DecisionIsAccepted(d: Digest)
    ensures var store := WithApproval(EMPTY, d, ASKED_AT, ASKED, Requested(ASKED_AT, d, ASKED, UuidOf('3')));
      PerformFinancial(store, d, READING, DECIDED_AT, DECIDED, PRESENT, 0).1.Wrote?
  {
    hide IsUuid, NonBlank, UuidOf, InScope;
    UuidOfIsUuid('1');
    UuidOfIsUuid('3');
    UuidOfIsUuid('b');
    TextsAreNotBlank();
    DecisionIsInScope();
    assert UuidOf('a') != UuidOf('b') by { UuidsDiffer('a', 'b'); }
  }

  lemma UuidsDiffer(a: char, b: char)
    requires a != b
    ensures UuidOf(a) != UuidOf(b)
  {
    assert UuidOf(a)[0] == a && UuidOf(b)[0] == b;
  }

  /** A decision on such an approval is accepted, and no retry of it ever is, whatever happens in between. */
  lemma OutOfScopeRequestBlocksTheRetry(d: Digest, more: seq<Event>, w: World, later: Moment)
    requires w.actorLive && !w.busy
    ensures var (after, first) :=
        PerformFinancial(
          Run(EMPTY, d, [Performed(ASKED_AT, ASKED, PRESENT)]), d, READING, DECIDED_AT, DECIDED, PRESENT, 0);
      var store := Run(after, d, more);
      && first.Wrote?
      && PerformFinancial(store, d, READING, DECIDED_AT, DECIDED, w, later) == (store, Refused(SourceConflict))
  {
    hide Run, PerformFinancial, InScope, WithApproval, UuidOf, IsUuid;
    var events := [Performed(ASKED_AT, ASKED, PRESENT)];
    RequestIsAccepted(d);
    DecisionIsAccepted(d);
    DecisionIsInScope();
    DecisionRetryReplays(d, READING, events, DECIDED_AT, DECIDED, PRESENT, 0, more, w, later);
    DecidedKeepsRequest(d);
  }

  /** The approval after the decision is still the one requested. */
  lemma DecidedKeepsRequest(d: Digest)
    ensures var store := WithApproval(EMPTY, d, ASKED_AT, ASKED, Requested(ASKED_AT, d, ASKED, UuidOf('3')));
      var after := PerformFinancial(store, d, READING, DECIDED_AT, DECIDED, PRESENT, 0).0;
      && UuidOf('3') in after.approvals
      && var a := after.approvals[UuidOf('3')];
         && a.requestSource == ASKED_AT && a.exceptionType == "SETTLEMENT_WAIVER"
         && a.subject == MATTER && a.snapshot == "{}"
  {
    hide PerformFinancial, InScope, IsUuid, UuidOf, HasSnapshot, Stated;
    var store := WithApproval(EMPTY, d, ASKED_AT, ASKED, Requested(ASKED_AT, d, ASKED, UuidOf('3')));
    DecisionIsAccepted(d);
    DecisionWrites(store, d, READING, DECIDED_AT, DECIDED, PRESENT, 0);
  }
}
