/**
 When each accounting command on a free source writes, and what it leaves, said of the tables and the
 command alone. In every other case nothing is written.
 */
module AccountingAnswers {
  import opened Wrappers
  import opened AssetTypes
  import opened CostLedger
  import opened CostSummary
  import opened AccountingStore
  import opened AccountingInvariants

  /* ---- What a command must state ---- */

  /** Lower-case hexadecimal digits in groups of 8, 4, 4, 4 and 12 between hyphens. */
  lemma UuidsAreGrouped(s: string)
    ensures IsUuid(s) <==>
      && |s| == 36 && s[8] == s[13] == s[18] == s[23] == '-'
      && forall i :: 0 <= i < 36 && i != 8 && i != 13 && i != 18 && i != 23 ==> s[i] in "0123456789abcdef"
  {
    forall c: char
      ensures c in "0123456789abcdef" <==> '0' <= c <= '9' || 'a' <= c <= 'f'
    {
      HexDigits(c);
    }
    if IsUuid(s) {
      assert s[8] == '-' && s[13] == '-' && s[18] == '-' && s[23] == '-';
      forall i | 0 <= i < 36 && i != 8 && i != 13 && i != 18 && i != 23
        ensures s[i] in "0123456789abcdef"
      {
        assert HexAt(s, i);
      }
    }
  }

  lemma HexDigits(c: char)
    ensures c in "0123456789abcdef" <==> '0' <= c <= '9' || 'a' <= c <= 'f'
  {
    var hex := "0123456789abcdef";
    if '0' <= c <= '9' { assert hex[c as int - '0' as int] == c; }
    if 'a' <= c <= 'f' { assert hex[c as int - 'a' as int + 10] == c; }
  }

  /** A text is blank if it has nothing but spaces, tabs and line ends. */
  lemma BlankMeans(s: string)
    ensures !NonBlank(s) <==> forall i :: 0 <= i < |s| ==> s[i] == ' ' || s[i] == '\t' || s[i] == '\n' || s[i] == '\r'
  {
  }

  lemma StatedMeans(source: Source, p: Payload)
    ensures Stated(source, p) <==>
      && NonBlank(source.sourceType) && NonBlank(source.id) && NonBlank(source.key) && IsUuid(p.actorId)
      && NonBlank(p.reason)
      && (p.CostAppend? ==> p.amount >= 1 && FactsStated(p.facts))
      && (p.CostReverse? ==> IsUuid(p.originalId))
      && (p.ExceptionDecide? || p.ExceptionExpire? ==> IsUuid(p.approvalId))
      && (p.ExceptionRequest? || p.ExceptionDecide? || p.ExceptionExpire? ==>
            IsUuid(p.subject.subjectId) && NonBlank(p.subject.subjectField))
    ensures p.CostAppend? ==>
      (FactsStated(p.facts) <==>
         && IsUuid(p.facts.vehicleId) && ValidPeriod(p.facts.accountingPeriod)
         && (forall id :: id in ReferencesOf(p.facts) ==> IsUuid(id)))
  {
    hide IsUuid, NonBlank, ValidPeriod;
  }

  /** The references an entry may have besides its vehicle. */
  function ReferencesOf(f: Facts): set<Id> {
    OneOrNone(f.orderId) + OneOrNone(f.workOrderId) + OneOrNone(f.contractId) + OneOrNone(f.customerId)
    + OneOrNone(f.partyId) + OneOrNone(f.assetOwnerId) + OneOrNone(f.evidenceId)
  }

  function OneOrNone(id: Option<Id>): set<Id> { if id.Some? then {id.value} else {} }

  /** A month of a year: four digits, a hyphen and 01 to 12. */
  lemma PeriodsAreMonths(s: string)
    ensures ValidPeriod(s) <==>
      && |s| == 7 && s[4] == '-' && (forall i :: 0 <= i < 7 && i != 4 ==> '0' <= s[i] <= '9')
      && 1 <= (s[5] as int - '0' as int) * 10 + (s[6] as int - '0' as int) <= 12
  {
  }

  /** A source with a receipt never writes: the receipt replays for its very payload and refuses every other. */
  lemma ReplaysExactlyWhen(store: Store, d: Digest, source: Source, p: Payload, w: World)
    requires source in store.receipts && Stated(source, p)
    ensures var (after, reply), r := Perform(store, d, source, p, w), store.receipts[source];
      var same := r.payload == p && r.payloadHash == d.ofPayload(p) && r.commandType == TypeOf(p)
        && (p.CostAppend? || p.CostReverse? || (r.approvalId.Some? && r.costEntryId.None?));
      after == store && (if same then reply == Replayed(r.outcome) else reply.Refused?)
  {
    hide Stated;
  }

  /* ---- Costs ---- */

  /** The receipt a written command leaves. */
  predicate Leaves(store: Store, after: Store, source: Source, r: Receipt) {
    after.receipts == store.receipts[source := r]
  }

  lemma AppendWritesExactlyWhen(store: Store, d: Digest, source: Source, p: Payload, w: World)
    requires p.CostAppend? && source !in store.receipts && Stated(source, p)
    ensures var (after, reply) := Perform(store, d, source, p, w);
      && (reply.Wrote? <==>
            && !w.busy && w.actorLive && w.authorized && w.settlementOpen
            && w.freshId !in store.ledger && IsUuid(w.freshId))
      && (!reply.Wrote? ==> after == store && reply.Refused?)
      && (reply.Wrote? ==>
            var e := Entry(w.freshId, Original, p.facts, p.amount, None, p.at, p.actorId, source);
            && reply == Wrote(OfEntry(e)) && after.ledger == store.ledger[w.freshId := e]
            && after.approvals == store.approvals
            && Leaves(store, after, source, Receipt(COST_APPEND, p, d.ofPayload(p), OfEntry(e), Some(e.id), None,
                                                    p.actorId)))
  {
    hide Stated, IsUuid;
  }

  /** Some other actual cost of the order stands. */
  ghost predicate AnotherCostStands(ledger: Ledger, order: Id, id: Id) {
    exists x :: x in ledger && x != id && ledger[x].kind.Original? && ledger[x].facts.actionType.ActualCost?
      && ledger[x].facts.workOrderId == Some(order) && !Cancelled(ledger, x)
  }

  ghost predicate Cancelled(ledger: Ledger, id: Id) {
    exists r :: r in ledger && ledger[r].kind.Reversal? && ledger[r].reversalOf == Some(id)
  }

  lemma RetentionMeans(ledger: Ledger, original: Entry)
    ensures RetainsCost(ledger, original) <==>
      (original.facts.workOrderId.Some? && original.facts.actionType.ActualCost? ==>
         AnotherCostStands(ledger, original.facts.workOrderId.value, original.id))
  {
    if original.facts.workOrderId.Some? && original.facts.actionType.ActualCost? {
      var order := original.facts.workOrderId.value;
      if RetainsCost(ledger, original) {
        var x :| x in ledger && Replaces(ledger, x, original);
        assert !Cancelled(ledger, x);
      }
      if AnotherCostStands(ledger, order, original.id) {
        var x :| x in ledger && x != original.id && ledger[x].kind.Original? && ledger[x].facts.actionType.ActualCost?
          && ledger[x].facts.workOrderId == Some(order) && !Cancelled(ledger, x);
        assert Replaces(ledger, x, original);
      }
    }
  }

  /** After any run: a reversal of an original not yet reversed, which leaves a closed order its cost. */
  lemma ReverseWritesExactlyWhen(d: Digest, events: seq<Event>, source: Source, p: Payload, w: World)
    requires p.CostReverse? && source !in Run(EMPTY, d, events).receipts && Stated(source, p)
    ensures var store := Run(EMPTY, d, events);
      var (after, reply) := Perform(store, d, source, p, w);
      && (reply.Wrote? <==>
            && p.originalId in store.ledger && store.ledger[p.originalId].kind.Original?
            && !w.busy && w.actorLive && w.settlementOpen && !Cancelled(store.ledger, p.originalId)
            && (w.costRequired && store.ledger[p.originalId].facts.actionType.ActualCost?
                && store.ledger[p.originalId].facts.workOrderId.Some? ==>
                  AnotherCostStands(store.ledger, store.ledger[p.originalId].facts.workOrderId.value, p.originalId))
            && w.freshId !in store.ledger && IsUuid(w.freshId))
      && (!reply.Wrote? ==> after == store && reply.Refused?)
      && (reply.Wrote? ==>
            var o := store.ledger[p.originalId];
            var e := Entry(w.freshId, Reversal, o.facts, -o.amount, Some(p.originalId), p.at, p.actorId, source);
            && reply == Wrote(OfEntry(e)) && after.ledger == store.ledger[w.freshId := e]
            && after.approvals == store.approvals
            && Leaves(store, after, source, Receipt(COST_REVERSE, p, d.ofPayload(p), OfEntry(e), Some(e.id), None,
                                                    p.actorId)))
  {
    hide Stated, IsUuid, Run, RetainsCost, LedgerInv, ReceiptsOk, EntriesReceipted, ApprovalsValid, OneLive;
    hide VersionsCount;
    InvHolds(d, events);
    var store := Run(EMPTY, d, events);
    if p.originalId in store.ledger { RetentionMeans(store.ledger, store.ledger[p.originalId]); }
  }

  /* ---- Approvals ---- */

  /** No pending or approved approval of the subject has this hash. */
  predicate NoneLive(store: Store, subject: Subject, hash: int) {
    forall id ::
      id in store.approvals && store.approvals[id].subject == subject && store.approvals[id].snapshotHash == hash ==>
      store.approvals[id].status.Rejected? || store.approvals[id].status.Expired?
  }

  function ApprovalReceipt(t: CommandType, d: Digest, p: Payload, a: Approval): Receipt {
    Receipt(t, p, d.ofPayload(p), OfApproval(a), None, Some(a.id), p.actorId)
  }

  lemma RequestWritesExactlyWhen(store: Store, d: Digest, source: Source, p: Payload, w: World)
    requires p.ExceptionRequest? && source !in store.receipts && Stated(source, p)
    ensures var (after, reply) := Perform(store, d, source, p, w);
      && (reply.Wrote? <==>
            && !w.busy && w.actorLive && NoneLive(store, p.subject, d.ofSnapshot(p.snapshot))
            && w.freshId !in store.approvals && IsUuid(w.freshId))
      && (!reply.Wrote? ==> after == store && reply.Refused?)
      && (reply.Wrote? ==>
            && after.ledger == store.ledger && after.approvals.Keys == store.approvals.Keys + {w.freshId}
            && (forall id :: id in store.approvals ==> after.approvals[id] == store.approvals[id])
            && var a := after.approvals[w.freshId];
               && reply == Wrote(OfApproval(a)) && a.id == w.freshId && a.status.Pending? && a.version == 0
               && a.exceptionType == p.exceptionType && a.subject == p.subject && a.snapshot == p.snapshot
               && a.snapshotHash == d.ofSnapshot(p.snapshot) && a.requestReason == p.reason && a.evidence == p.evidence
               && a.requestedBy == p.actorId && a.requestedAt == p.at && a.requestSource == source
               && a.decision.None? && a.decidedBy.None? && a.decidedAt.None? && a.decisionComment.None?
               && a.expiredBy.None? && a.expiredAt.None? && a.expiryReason.None?
               && Leaves(store, after, source, ApprovalReceipt(EXCEPTION_REQUEST, d, p, a)))
  {
    hide Stated, IsUuid;
    var hash := d.ofSnapshot(p.snapshot);
    LiveMeans(store, p.subject, hash);
  }

  lemma LiveMeans(store: Store, subject: Subject, hash: int)
    ensures HasLive(store, subject, hash) <==> !NoneLive(store, subject, hash)
  {
    if !NoneLive(store, subject, hash) {
      var id :| id in store.approvals && store.approvals[id].subject == subject
        && store.approvals[id].snapshotHash == hash
        && !(store.approvals[id].status.Rejected? || store.approvals[id].status.Expired?);
      assert Live(store.approvals[id]) && SameMatter(store.approvals[id], subject, hash);
    }
  }

  /** The approval is there, of this kind and subject, and at the version expected. */
  predicate IsMeant(store: Store, id: Id, exceptionType: string, subject: Subject, version: nat) {
    && id in store.approvals && store.approvals[id].exceptionType == exceptionType
    && store.approvals[id].subject == subject && store.approvals[id].version == version
  }

  /** After any run: a decision by someone else than the requester, on the very snapshot that was requested. */
  lemma DecideWritesExactlyWhen(d: Digest, events: seq<Event>, source: Source, p: Payload, w: World)
    requires p.ExceptionDecide? && source !in Run(EMPTY, d, events).receipts && Stated(source, p)
    ensures var store := Run(EMPTY, d, events);
      var (after, reply) := Perform(store, d, source, p, w);
      && (reply.Wrote? <==>
            && !w.busy && w.actorLive && IsMeant(store, p.approvalId, p.exceptionType, p.subject, p.expectedVersion)
            && store.approvals[p.approvalId].status.Pending? && store.approvals[p.approvalId].requestedBy != p.actorId
            && store.approvals[p.approvalId].snapshot == p.snapshot
            && store.approvals[p.approvalId].snapshotHash == d.ofSnapshot(p.snapshot))
      && (!reply.Wrote? ==> after == store && reply.Refused?)
      && (reply.Wrote? ==>
            var a := store.approvals[p.approvalId].(
              status := match p.decision case Approve => Approved case Reject => Rejected,
              version := p.expectedVersion + 1, decision := Some(p.decision),
              decidedBy := Some(p.actorId), decidedAt := Some(p.at), decisionComment := Some(p.reason));
            && reply == Wrote(OfApproval(a)) && after.ledger == store.ledger
            && after.approvals == store.approvals[p.approvalId := a]
            && Leaves(store, after, source, ApprovalReceipt(EXCEPTION_DECIDE, d, p, a)))
  {
    hide Stated, Run, LedgerInv, ReceiptsOk, EntriesReceipted, ApprovalsValid, OneLive, VersionsCount;
    InvHolds(d, events);
  }

  function Expiry(a: Approval, p: Payload): Approval
    requires p.ExceptionExpire?
  {
    a.(status := Expired, version := a.version + 1, expiredBy := Some(p.actorId), expiredAt := Some(p.at),
       expiryReason := Some(p.reason))
  }

  /** After any run: pending and approved approvals can expire, once. */
  lemma ExpireWritesExactlyWhen(d: Digest, events: seq<Event>, source: Source, p: Payload, w: World)
    requires p.ExceptionExpire? && source !in Run(EMPTY, d, events).receipts && Stated(source, p)
    ensures var store := Run(EMPTY, d, events);
      var (after, reply) := Perform(store, d, source, p, w);
      && (reply.Wrote? <==>
            && !w.busy && w.actorLive && IsMeant(store, p.approvalId, p.exceptionType, p.subject, p.expectedVersion)
            && (store.approvals[p.approvalId].status.Pending? || store.approvals[p.approvalId].status.Approved?))
      && (!reply.Wrote? ==> after == store && reply.Refused?)
      && (reply.Wrote? ==> ExpiresWith(store, after, d, source, p, reply.outcome))
  {
    hide Stated, Run, LedgerInv, ReceiptsOk, EntriesReceipted, ApprovalsValid, OneLive, VersionsCount;
    InvHolds(d, events);
  }

  /** Exactly this approval is expired, with the command's actor, time and reason. */
  predicate ExpiresWith(store: Store, after: Store, d: Digest, source: Source, p: Payload, o: Outcome)
    requires p.ExceptionExpire?
  {
    && p.approvalId in store.approvals
    && var a := Expiry(store.approvals[p.approvalId], p);
       && o == OfApproval(a) && after.ledger == store.ledger && after.approvals == store.approvals[p.approvalId := a]
       && Leaves(store, after, source, ApprovalReceipt(EXCEPTION_EXPIRE, d, p, a))
  }

  /**
   After any run, an approval is current if and only if it is the one meant, approved, for this very
   snapshot, and then nothing changes; it is stale if and only if it is the one meant and approved, but for
   another snapshot, and the actor is live, and then exactly this approval is expired.
   */
  lemma CurrencyExactlyWhen(d: Digest, events: seq<Event>, source: Source, p: Payload, w: World)
    requires p.ExceptionExpire? && source !in Run(EMPTY, d, events).receipts
    ensures var store := Run(EMPTY, d, events);
      var (after, answer) := RequireCurrent(store, d, source, p, w);
      var approved := Stated(source, p) && !w.busy
        && IsMeant(store, p.approvalId, p.exceptionType, p.subject, p.expectedVersion)
        && store.approvals[p.approvalId].status.Approved?;
      var same := approved && store.approvals[p.approvalId].snapshot == p.snapshot
        && store.approvals[p.approvalId].snapshotHash == d.ofSnapshot(p.snapshot);
      && (answer.Current? <==> same)
      && (answer.Current? ==> answer.approval == store.approvals[p.approvalId] && after == store)
      && (answer.Stale? <==> approved && !same && w.actorLive)
      && (answer.Stale? ==> ExpiresWith(store, after, d, source, p, answer.outcome))
      && (!answer.Stale? ==> after == store)
  {
    hide Stated, Run, LedgerInv, ReceiptsOk, EntriesReceipted, ApprovalsValid, OneLive, VersionsCount;
    InvHolds(d, events);
  }
}
