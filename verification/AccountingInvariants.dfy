/** What holds of the accounting tables after any run of commands. */
module AccountingInvariants {
  import opened Wrappers
  import opened AssetTypes
  import opened CostLedger
  import opened CostSummary
  import opened AccountingStore

  /* ---- The invariants ---- */

  /** A receipt is about exactly one row, and says what that row became. */
  ghost predicate ReceiptOk(store: Store, d: Digest, source: Source, r: Receipt) {
    && r.commandType == TypeOf(r.payload) && r.payloadHash == d.ofPayload(r.payload)
    && if IsCost(r.commandType) then
         && r.costEntryId.Some? && r.approvalId.None?
         && r.costEntryId.value in store.ledger && store.ledger[r.costEntryId.value].source == source
         && r.outcome == OfEntry(store.ledger[r.costEntryId.value])
       else
         && r.costEntryId.None? && r.approvalId.Some?
         && r.approvalId.value in store.approvals
         && r.outcome.OfApproval? && r.outcome.approval.id == r.approvalId.value
         && (r.payload.ExceptionExpire? ==>
               r.payload.approvalId == r.approvalId.value && store.approvals[r.approvalId.value].status.Expired?)
  }

  ghost predicate ReceiptsOk(store: Store, d: Digest) {
    forall s :: s in store.receipts ==> ReceiptOk(store, d, s, store.receipts[s])
  }

  ghost predicate Receipted(store: Store, id: Id)
    requires id in store.ledger
  {
    var source := store.ledger[id].source;
    source in store.receipts && IsCost(store.receipts[source].commandType)
    && store.receipts[source].costEntryId == Some(id)
  }

  ghost predicate EntriesReceipted(store: Store) {
    forall id :: id in store.ledger ==> Receipted(store, id)
  }

  /** The three fields a decision fills. */
  predicate NotDecided(a: Approval) {
    a.decision.None? && a.decidedBy.None? && a.decidedAt.None? && a.decisionComment.None?
  }

  predicate NotExpired(a: Approval) {
    a.expiredBy.None? && a.expiredAt.None? && a.expiryReason.None?
  }

  predicate ProperlyDecided(a: Approval) {
    && a.decision.Some? && a.decidedBy.Some? && IsUuid(a.decidedBy.value) && a.decidedBy.value != a.requestedBy
    && a.decidedAt.Some? && a.decisionComment.Some? && NonBlank(a.decisionComment.value)
  }

  /** An approval in one of its legal states: versions are 0, 1 or 2 by what happened to it. */
  predicate ValidSuccessor(a: Approval) {
    match a.status
    case Pending => a.version == 0 && NotDecided(a) && NotExpired(a)
    case Approved => a.version == 1 && a.decision == Some(Approve) && ProperlyDecided(a) && NotExpired(a)
    case Rejected => a.version == 1 && a.decision == Some(Reject) && ProperlyDecided(a) && NotExpired(a)
    case Expired =>
      && a.expiredAt.Some? && a.expiredBy.Some? && IsUuid(a.expiredBy.value)
      && a.expiryReason.Some? && NonBlank(a.expiryReason.value)
      && ((a.version == 1 && NotDecided(a)) || (a.version == 2 && a.decision == Some(Approve) && ProperlyDecided(a)))
  }

  ghost predicate ApprovalsValid(store: Store) {
    forall id :: id in store.approvals ==> ValidSuccessor(store.approvals[id])
  }

  ghost predicate OneLive(store: Store) {
    forall a, b :: a in store.approvals && b in store.approvals
      && Live(store.approvals[a]) && Live(store.approvals[b])
      && SameMatter(store.approvals[a], store.approvals[b].subject, store.approvals[b].snapshotHash)
      ==> a == b
  }

  /** The sources of the decisions and expiries of an approval. */
  function Moves(receipts: map<Source, Receipt>, id: Id): set<Source> {
    set s | s in receipts && (receipts[s].payload.ExceptionDecide? || receipts[s].payload.ExceptionExpire?)
            && receipts[s].approvalId == Some(id)
  }

  ghost predicate VersionsCount(store: Store) {
    forall id :: id in store.approvals ==> |Moves(store.receipts, id)| == store.approvals[id].version
  }

  ghost predicate Inv(store: Store, d: Digest) {
    && IndexedById(store) && LedgerInv(store.ledger) && ReceiptsOk(store, d) && EntriesReceipted(store)
    && ApprovalsValid(store) && OneLive(store) && VersionsCount(store)
  }

  /* ---- A new entry ---- */

  lemma UuidIsNotBlank(s: string)
    requires IsUuid(s)
    ensures NonBlank(s)
  {
    assert HexAt(s, 0);
  }

  lemma NewEntryIsWellFormed(store: Store, source: Source, p: Payload, e: Entry)
    requires EntryAllowed(store, source, p, e) && LedgerInv(store.ledger)
    ensures WellFormed(e)
  {
    hide IsReversed, ValidPeriod, NonBlank, IsUuid, SameTarget, ReversesProperly;
    UuidIsNotBlank(e.id);
    if p.CostAppend? {
      UuidIsNotBlank(p.facts.vehicleId);
    } else {
      UuidIsNotBlank(p.originalId);
    }
  }

  lemma NewEntryKeepsLedger(store: Store, source: Source, p: Payload, e: Entry)
    requires IndexedById(store) && EntryAllowed(store, source, p, e) && LedgerInv(store.ledger)
    ensures LedgerInv(store.ledger[e.id := e])
  {
    hide WellFormed, Stated, IsUuid, LedgerInv, IsReversed;
    NewEntryIsWellFormed(store, source, p, e);
    AddingKeepsLedger(store.ledger, e);
  }

  lemma NewEntryKeepsReceipts(store: Store, d: Digest, source: Source, p: Payload, e: Entry)
    requires EntryAllowed(store, source, p, e) && ReceiptsOk(store, d)
    ensures ReceiptsOk(WithEntry(store, d, source, p, e), d)
  {
    hide Stated, IsUuid, IsReversed;
    var after := WithEntry(store, d, source, p, e);
    forall s | s in after.receipts
      ensures ReceiptOk(after, d, s, after.receipts[s])
    {
      if s != source { assert ReceiptOk(store, d, s, store.receipts[s]); }
    }
  }

  lemma NewEntryKeepsEntriesReceipted(store: Store, d: Digest, source: Source, p: Payload, e: Entry)
    requires EntryAllowed(store, source, p, e) && EntriesReceipted(store)
    ensures EntriesReceipted(WithEntry(store, d, source, p, e))
  {
    hide Stated, IsUuid, IsReversed;
    var after := WithEntry(store, d, source, p, e);
    forall id | id in after.ledger
      ensures Receipted(after, id)
    {
      if id != e.id { assert Receipted(store, id); }
    }
  }

  lemma NewEntryKeepsVersions(store: Store, d: Digest, source: Source, p: Payload, e: Entry)
    requires EntryAllowed(store, source, p, e) && VersionsCount(store)
    ensures VersionsCount(WithEntry(store, d, source, p, e))
  {
    hide Stated, IsUuid, IsReversed;
    var after := WithEntry(store, d, source, p, e);
    forall id | id in after.approvals
      ensures |Moves(after.receipts, id)| == after.approvals[id].version
    {
      assert Moves(after.receipts, id) == Moves(store.receipts, id);
    }
  }

  lemma NewEntryKeepsInv(store: Store, d: Digest, source: Source, p: Payload, e: Entry)
    requires EntryAllowed(store, source, p, e) && Inv(store, d)
    ensures Inv(WithEntry(store, d, source, p, e), d)
  {
    hide EntryAllowed, LedgerInv, ReceiptsOk, EntriesReceipted, ApprovalsValid, OneLive, VersionsCount;
    NewEntryKeepsLedger(store, source, p, e);
    NewEntryKeepsReceipts(store, d, source, p, e);
    NewEntryKeepsEntriesReceipted(store, d, source, p, e);
    NewEntryKeepsVersions(store, d, source, p, e);
    NewEntryKeepsApprovals(store, d, source, p, e);
  }

  lemma NewEntryKeepsApprovals(store: Store, d: Digest, source: Source, p: Payload, e: Entry)
    requires ApprovalsValid(store) && OneLive(store)
    ensures ApprovalsValid(WithEntry(store, d, source, p, e)) && OneLive(WithEntry(store, d, source, p, e))
  {
    hide ValidSuccessor, Live, SameMatter;
  }

  /* ---- A new or updated approval ---- */

  lemma NewApprovalIsValid(store: Store, d: Digest, source: Source, p: Payload, a: Approval)
    requires ApprovalAllowed(store, d, source, p, a) && ApprovalsValid(store) && IndexedById(store)
    ensures ValidSuccessor(a)
    ensures p.ExceptionRequest? ==> a.id !in store.approvals && a.version == 0
    ensures !p.ExceptionRequest? ==>
      && (p.ExceptionDecide? || p.ExceptionExpire?) && a.id == p.approvalId && a.id in store.approvals
      && a.version == store.approvals[a.id].version + 1 && Live(store.approvals[a.id])
      && a.subject == store.approvals[a.id].subject && a.snapshotHash == store.approvals[a.id].snapshotHash
    ensures p.ExceptionExpire? ==> a.status.Expired?
  {
    hide HasLive, IsUuid, NonBlank, HasSnapshot, SubjectStated;
  }

  lemma NewApprovalKeepsReceipts(store: Store, d: Digest, source: Source, p: Payload, a: Approval)
    requires ApprovalAllowed(store, d, source, p, a) && ReceiptsOk(store, d) && ApprovalsValid(store)
    requires IndexedById(store)
    ensures ReceiptsOk(WithApproval(store, d, source, p, a), d)
  {
    hide ApprovalAllowed, ValidSuccessor;
    NewApprovalIsValid(store, d, source, p, a);
    SourceIsFree(store, d, source, p, a);
    var after := WithApproval(store, d, source, p, a);
    forall s | s in after.receipts
      ensures ReceiptOk(after, d, s, after.receipts[s])
    {
      if s != source { assert ReceiptOk(store, d, s, store.receipts[s]); }
    }
  }

  lemma SourceIsFree(store: Store, d: Digest, source: Source, p: Payload, a: Approval)
    requires ApprovalAllowed(store, d, source, p, a)
    ensures source !in store.receipts && !IsCost(TypeOf(p))
  {
  }

  lemma NewApprovalKeepsEntriesReceipted(store: Store, d: Digest, source: Source, p: Payload, a: Approval)
    requires ApprovalAllowed(store, d, source, p, a) && EntriesReceipted(store)
    ensures EntriesReceipted(WithApproval(store, d, source, p, a))
  {
    hide ApprovalAllowed;
    SourceIsFree(store, d, source, p, a);
    var after := WithApproval(store, d, source, p, a);
    forall id | id in after.ledger
      ensures Receipted(after, id)
    {
      assert Receipted(store, id);
    }
  }

  lemma NewApprovalKeepsOneLive(store: Store, d: Digest, source: Source, p: Payload, a: Approval)
    requires ApprovalAllowed(store, d, source, p, a) && OneLive(store) && ApprovalsValid(store) && IndexedById(store)
    ensures OneLive(WithApproval(store, d, source, p, a))
  {
    hide ValidSuccessor, Stated, IsUuid;
    NewApprovalIsValid(store, d, source, p, a);
  }

  /** A receipt that moves no approval, or another one, leaves the moves of this one. */
  lemma OtherMovesStay(receipts: map<Source, Receipt>, source: Source, r: Receipt, id: Id)
    requires source !in receipts
    requires r.approvalId != Some(id) || !(r.payload.ExceptionDecide? || r.payload.ExceptionExpire?)
    ensures Moves(receipts[source := r], id) == Moves(receipts, id)
  {
    var after := receipts[source := r];
    forall s
      ensures s in Moves(after, id) <==> s in Moves(receipts, id)
    {
    }
  }

  /** A decision or expiry is one more move of its approval. */
  lemma OneMoreMove(receipts: map<Source, Receipt>, source: Source, r: Receipt, id: Id)
    requires source !in receipts
    requires r.approvalId == Some(id) && (r.payload.ExceptionDecide? || r.payload.ExceptionExpire?)
    ensures Moves(receipts[source := r], id) == Moves(receipts, id) + {source}
    ensures |Moves(receipts[source := r], id)| == |Moves(receipts, id)| + 1
  {
    var after := receipts[source := r];
    forall s
      ensures s in Moves(after, id) <==> s in Moves(receipts, id) + {source}
    {
    }
  }

  lemma NewApprovalKeepsVersions(store: Store, d: Digest, source: Source, p: Payload, a: Approval)
    requires ApprovalAllowed(store, d, source, p, a) && VersionsCount(store) && ReceiptsOk(store, d)
    requires ApprovalsValid(store) && IndexedById(store)
    ensures VersionsCount(WithApproval(store, d, source, p, a))
  {
    hide ApprovalAllowed, ValidSuccessor, ReceiptsOk, Moves, ApprovalsValid, IndexedById, Live, SameMatter;
    NewApprovalIsValid(store, d, source, p, a);
    SourceIsFree(store, d, source, p, a);
    var r := Receipt(TypeOf(p), p, d.ofPayload(p), OfApproval(a), None, Some(a.id), p.actorId);
    forall id | id in store.approvals || id == a.id
      ensures id != a.id || p.ExceptionRequest? ==>
        Moves(store.receipts[source := r], id) == Moves(store.receipts, id)
    {
      if id != a.id || p.ExceptionRequest? { OtherMovesStay(store.receipts, source, r, id); }
    }
    if p.ExceptionRequest? {
      NothingAboutTheNew(store, d, a.id);
    } else {
      OneMoreMove(store.receipts, source, r, a.id);
    }
  }

  lemma NothingAboutTheNew(store: Store, d: Digest, id: Id)
    requires ReceiptsOk(store, d) && id !in store.approvals
    ensures Moves(store.receipts, id) == {}
  {
    forall s | s in store.receipts
      ensures store.receipts[s].approvalId != Some(id)
    {
      assert ReceiptOk(store, d, s, store.receipts[s]);
    }
  }

  lemma NewApprovalKeepsInv(store: Store, d: Digest, source: Source, p: Payload, a: Approval)
    requires ApprovalAllowed(store, d, source, p, a) && Inv(store, d)
    ensures Inv(WithApproval(store, d, source, p, a), d)
  {
    hide ApprovalAllowed, LedgerInv, ReceiptsOk, EntriesReceipted, OneLive, VersionsCount, ValidSuccessor;
    NewApprovalIsValid(store, d, source, p, a);
    NewApprovalKeepsReceipts(store, d, source, p, a);
    NewApprovalKeepsEntriesReceipted(store, d, source, p, a);
    NewApprovalKeepsOneLive(store, d, source, p, a);
    NewApprovalKeepsVersions(store, d, source, p, a);
  }

  /* ---- Any run ---- */

  lemma InvIsIndexed(store: Store, d: Digest)
    requires Inv(store, d)
    ensures IndexedById(store)
  {
  }

  lemma StepKeepsInv(store: Store, d: Digest, event: Event)
    requires Inv(store, d)
    ensures Inv(Step(store, d, event), d)
  {
    hide Inv, EntryAllowed, ApprovalAllowed, ChangeOf, Step, WithEntry, WithApproval, IndexedById;
    InvIsIndexed(store, d);
    StepIsItsChange(store, d, event);
    match ChangeOf(store, d, event)
    case NoChange =>
    case NewEntry(p, source, e) => NewEntryKeepsInv(store, d, source, p, e);
    case NewApproval(p, source, a) => NewApprovalKeepsInv(store, d, source, p, a);
  }

  lemma {:induction false} RunKeepsInv(store: Store, d: Digest, events: seq<Event>)
    requires Inv(store, d)
    ensures Inv(Run(store, d, events), d)
    decreases |events|
  {
    hide Inv, Step;
    if events != [] {
      StepKeepsInv(store, d, events[0]);
      RunKeepsInv(Step(store, d, events[0]), d, events[1..]);
    }
  }

  lemma InvHolds(d: Digest, events: seq<Event>)
    ensures Inv(Run(EMPTY, d, events), d)
  {
    assert Inv(EMPTY, d) by { assert forall id: Id :: Moves(EMPTY.receipts, id) == {}; }
    RunKeepsInv(EMPTY, d, events);
  }

  /* ---- Exactly once ---- */

  /** What a step never takes back: receipts and ledger entries. */
  ghost predicate Remembers(before: Store, after: Store) {
    && (forall s :: s in before.receipts ==> s in after.receipts && after.receipts[s] == before.receipts[s])
    && (forall id :: id in before.ledger ==> id in after.ledger && after.ledger[id] == before.ledger[id])
  }

  lemma StepRemembers(store: Store, d: Digest, event: Event)
    requires Inv(store, d)
    ensures Remembers(store, Step(store, d, event))
  {
    hide Inv, EntryAllowed, ApprovalAllowed, ChangeOf, Step, IndexedById;
    InvIsIndexed(store, d);
    StepIsItsChange(store, d, event);
    match ChangeOf(store, d, event)
    case NoChange =>
    case NewEntry(p, source, e) => EntryIsFree(store, source, p, e);
    case NewApproval(p, source, a) => SourceIsFree(store, d, source, p, a);
  }

  lemma EntryIsFree(store: Store, source: Source, p: Payload, e: Entry)
    requires EntryAllowed(store, source, p, e)
    ensures source !in store.receipts && e.id !in store.ledger
  {
  }

  lemma {:induction false} RunRemembers(store: Store, d: Digest, events: seq<Event>)
    requires Inv(store, d)
    ensures Remembers(store, Run(store, d, events))
    decreases |events|
  {
    hide Inv, Step;
    if events != [] {
      StepKeepsInv(store, d, events[0]);
      StepRemembers(store, d, events[0]);
      RunRemembers(Step(store, d, events[0]), d, events[1..]);
    }
  }

  lemma {:induction false} RunAppend(store: Store, d: Digest, a: seq<Event>, b: seq<Event>)
    ensures Run(store, d, a + b) == Run(Run(store, d, a), d, b)
    decreases |a|
  {
    hide Step;
    if a == [] {
      assert a + b == b;
    } else {
      assert (a + b)[1..] == a[1..] + b;
      RunAppend(Step(store, d, a[0]), d, a[1..], b);
    }
  }

  /**
   Once a source has a receipt, at any later time: the same command on it returns the stored
   outcome and changes nothing, and any other command on it is a source conflict and changes
   nothing, whatever the rest of the database says.
   */
  lemma ExactlyOnce(d: Digest, events: seq<Event>, more: seq<Event>, source: Source, p: Payload, w: World)
    requires source in Run(EMPTY, d, events).receipts && Stated(source, p)
    ensures var first := Run(EMPTY, d, events).receipts[source];
      var later := Run(EMPTY, d, events + more);
      && source in later.receipts && later.receipts[source] == first
      && (p == first.payload ==> Perform(later, d, source, p, w) == (later, Replayed(first.outcome)))
      && (p != first.payload ==> Perform(later, d, source, p, w) == (later, Refused(SourceConflict)))
  {
    hide Stated, Run, Inv, Perform, ReceiptOk;
    InvHolds(d, events);
    RunAppend(EMPTY, d, events, more);
    RunRemembers(Run(EMPTY, d, events), d, more);
    ReceiptIsOk(Run(EMPTY, d, events), d, source);
    ReceiptDecides(Run(EMPTY, d, events + more), Run(EMPTY, d, events), d, source, p, w);
  }

  lemma ReceiptDecides(store: Store, was: Store, d: Digest, source: Source, p: Payload, w: World)
    requires source in store.receipts && Stated(source, p) && ReceiptOk(was, d, source, store.receipts[source])
    ensures var r := store.receipts[source];
      && (p == r.payload ==> Perform(store, d, source, p, w) == (store, Replayed(r.outcome)))
      && (p != r.payload ==> Perform(store, d, source, p, w) == (store, Refused(SourceConflict)))
  {
    hide Stated, FirstTime;
  }

  lemma ReceiptIsOk(store: Store, d: Digest, source: Source)
    requires Inv(store, d) && source in store.receipts
    ensures ReceiptOk(store, d, source, store.receipts[source])
  {
    hide IndexedById, LedgerInv, EntriesReceipted, ApprovalsValid, OneLive, VersionsCount;
  }

  /** A command that wrote leaves the receipt that later replays it. */
  lemma WritingLeavesItsReceipt(d: Digest, events: seq<Event>, source: Source, p: Payload, w: World)
    requires var reply := Perform(Run(EMPTY, d, events), d, source, p, w).1; reply.Wrote?
    ensures var (after, reply) := Perform(Run(EMPTY, d, events), d, source, p, w);
      && source in after.receipts
      && after.receipts[source].payload == p && after.receipts[source].outcome == reply.outcome
      && source !in Run(EMPTY, d, events).receipts
  {
    hide Stated, FirstTime, EntryAllowed, ApprovalAllowed, Inv;
    var store := Run(EMPTY, d, events);
    InvHolds(d, events);
    InvIsIndexed(store, d);
    FirstTimeIsItsChange(store, d, source, p, w);
  }

  /** Ledger entries and the receipts of cost commands correspond one to one. */
  lemma EntriesAreCostReceipts(d: Digest, events: seq<Event>, source: Source, id: Id)
    ensures var store := Run(EMPTY, d, events);
      (source in store.receipts && store.receipts[source].costEntryId == Some(id))
      <==> (id in store.ledger && store.ledger[id].source == source)
    ensures var store := Run(EMPTY, d, events);
      source in store.receipts ==>
        (IsCost(store.receipts[source].commandType) <==> store.receipts[source].costEntryId.Some?)
  {
    hide LedgerInv, ApprovalsValid, OneLive, VersionsCount, Run;
    InvHolds(d, events);
    var store := Run(EMPTY, d, events);
    if source in store.receipts { assert ReceiptOk(store, d, source, store.receipts[source]); }
    if id in store.ledger { assert Receipted(store, id); }
  }

  /** The version of an approval is the number of decisions and expiries receipted for it. */
  lemma VersionCountsDecisionsAndExpiries(d: Digest, events: seq<Event>, id: Id)
    requires id in Run(EMPTY, d, events).approvals
    ensures var store := Run(EMPTY, d, events); store.approvals[id].version == |Moves(store.receipts, id)| <= 2
  {
    hide Run, LedgerInv, ReceiptsOk, EntriesReceipted, OneLive;
    InvHolds(d, events);
  }

  /**
   Every approval is in a legal state, decided by someone other than its requester; only pending
   or approved ones can have expired; at most one is live for a subject and snapshot hash.
   */
  lemma ApprovalsStayLegal(d: Digest, events: seq<Event>, a: Id, b: Id)
    requires a in Run(EMPTY, d, events).approvals && b in Run(EMPTY, d, events).approvals
    ensures var approvals := Run(EMPTY, d, events).approvals;
      && ValidSuccessor(approvals[a])
      && (Live(approvals[a]) && Live(approvals[b])
          && SameMatter(approvals[a], approvals[b].subject, approvals[b].snapshotHash)
          ==> a == b)
  {
    hide Run, LedgerInv, ReceiptsOk, EntriesReceipted, VersionsCount, ValidSuccessor;
    InvHolds(d, events);
  }

  /* ---- Stale for ever ---- */

  lemma StepKeepsExpired(store: Store, d: Digest, event: Event, id: Id)
    requires Inv(store, d) && id in store.approvals && store.approvals[id].status.Expired?
    ensures var after := Step(store, d, event); id in after.approvals && after.approvals[id] == store.approvals[id]
  {
    hide Inv, EntryAllowed, ApprovalAllowed, ChangeOf, Step, IndexedById;
    InvIsIndexed(store, d);
    StepIsItsChange(store, d, event);
    match ChangeOf(store, d, event)
    case NoChange =>
    case NewEntry(p, source, e) =>
    case NewApproval(p, source, a) => AllowedIsNotExpired(store, d, source, p, a);
  }

  lemma AllowedIsNotExpired(store: Store, d: Digest, source: Source, p: Payload, a: Approval)
    requires ApprovalAllowed(store, d, source, p, a) && Inv(store, d)
    ensures a.id in store.approvals ==> !store.approvals[a.id].status.Expired?
  {
    hide LedgerInv, ReceiptsOk, EntriesReceipted, VersionsCount, OneLive, ValidSuccessor, Stated, HasLive;
    NewApprovalIsValid(store, d, source, p, a);
  }

  lemma {:induction false} RunKeepsExpired(store: Store, d: Digest, events: seq<Event>, id: Id)
    requires Inv(store, d) && id in store.approvals && store.approvals[id].status.Expired?
    ensures var after := Run(store, d, events); id in after.approvals && after.approvals[id] == store.approvals[id]
    decreases |events|
  {
    hide Inv, Step;
    if events != [] {
      StepKeepsInv(store, d, events[0]);
      StepKeepsExpired(store, d, events[0], id);
      RunKeepsExpired(Step(store, d, events[0]), d, events[1..], id);
    }
  }

  lemma StaleMeansExpired(store: Store, d: Digest, source: Source, p: Payload, w: World)
    requires Inv(store, d) && p.ExceptionExpire? && RequireCurrent(store, d, source, p, w).1.Stale?
    ensures var after := RequireCurrent(store, d, source, p, w).0;
      p.approvalId in after.approvals && after.approvals[p.approvalId].status.Expired?
  {
    hide Stated, LedgerInv, EntriesReceipted, VersionsCount, OneLive, ApprovalsValid, HasSnapshot;
    if source in store.receipts {
      assert ReceiptOk(store, d, source, store.receipts[source]);
    }
  }

  lemma ExpiredIsNeverCurrent(store: Store, d: Digest, source: Source, p: Payload, w: World)
    requires p.ExceptionExpire? && p.approvalId in store.approvals && store.approvals[p.approvalId].status.Expired?
    ensures !RequireCurrent(store, d, source, p, w).1.Current?
  {
    hide Stated;
  }

  /** Once an approval was reported stale, no later call about it, by anyone, with any snapshot, reports it current. */
  lemma StaleForEver(
    d: Digest, events: seq<Event>, source: Source, p: Payload, w: World,
    more: seq<Event>, source': Source, p': Payload, w': World)
    requires p.ExceptionExpire? && p'.ExceptionExpire? && p'.approvalId == p.approvalId
    requires RequireCurrent(Run(EMPTY, d, events), d, source, p, w).1.Stale?
    ensures var later := Run(RequireCurrent(Run(EMPTY, d, events), d, source, p, w).0, d, more);
      !RequireCurrent(later, d, source', p', w').1.Current?
  {
    hide Inv, RequireCurrent;
    var store := Run(EMPTY, d, events);
    InvHolds(d, events);
    StaleMeansExpired(store, d, source, p, w);
    StepKeepsInv(store, d, Required(source, p, w));
    var stale := Step(store, d, Required(source, p, w));
    assert stale == RequireCurrent(store, d, source, p, w).0;
    RunKeepsExpired(stale, d, more, p.approvalId);
    ExpiredIsNeverCurrent(Run(stale, d, more), d, source', p', w');
  }

  /* ---- Summaries of any reachable ledger ---- */

  /** After any run, every listing of the ledger can be summarized, in the same way whatever its order. */
  lemma ReachableLedgersSummarize(d: Digest, events: seq<Event>, filter: Filter, a: seq<Entry>, b: seq<Entry>)
    requires Lists(a, Run(EMPTY, d, events).ledger, filter) && Lists(b, Run(EMPTY, d, events).ledger, filter)
    ensures Summable(a) && SummaryOf(a) == SummaryOf(b)
  {
    hide Lists, Summable, SummaryOf, Run, LedgerInv, ReceiptsOk, EntriesReceipted, OneLive, VersionsCount;
    InvHolds(d, events);
    var ledger := Run(EMPTY, d, events).ledger;
    ListingsAreSummable(a, ledger, filter);
    SummaryIgnoresOrder(a, b, ledger, filter);
  }
}
