/**
 The repository that executes accounting commands on the tables, step by step, and the
 single-use capabilities by which a caller that already holds the source lock appends.
 */
module AccountingRepository {
  import opened Wrappers
  import opened AssetTypes
  import opened CostLedger
  import opened CostSummary
  import opened AccountingStore

  /** A transaction and the source it locked. */
  datatype Capability = Capability(transaction: int, source: Source)

  class AssetAccountingRepository {
    var ledger: Ledger
    var approvals: map<Id, Approval>
    var receipts: map<Source, Receipt>
    /** Capabilities handed out and not yet taken. */
    var capabilities: map<int, Capability>
    const digest: Digest

    ghost function Tables(): Store
      reads this
    {
      Store(ledger, approvals, receipts)
    }

    constructor (digest: Digest)
      ensures Tables() == EMPTY && this.digest == digest && capabilities == map[]
    {
      this.digest := digest;
      ledger, approvals, receipts, capabilities := map[], map[], map[], map[];
    }

    method ReplayReceipt(source: Source, p: Payload) returns (replay: Option<Reply>)
      ensures replay == Replay(Tables(), digest, source, p)
    {
      if source !in receipts { return None; }
      var receipt := receipts[source];
      if receipt.commandType != TypeOf(p) || receipt.payloadHash != digest.ofPayload(p) || receipt.payload != p {
        return Some(Refused(SourceConflict));
      }
      if !IsCost(TypeOf(p)) && (receipt.approvalId.None? || receipt.costEntryId.Some?) {
        return Some(Refused(SourceConflict));
      }
      return Some(Replayed(receipt.outcome));
    }

    method CreateCostReceipt(source: Source, p: Payload, entry: Entry)
      modifies `receipts
      ensures receipts == old(receipts)[source :=
        Receipt(TypeOf(p), p, digest.ofPayload(p), OfEntry(entry), Some(entry.id), None, p.actorId)]
    {
      receipts := receipts[source :=
        Receipt(TypeOf(p), p, digest.ofPayload(p), OfEntry(entry), Some(entry.id), None, p.actorId)];
    }

    method CreateApprovalReceipt(source: Source, p: Payload, approval: Approval)
      modifies `receipts
      ensures receipts == old(receipts)[source :=
        Receipt(TypeOf(p), p, digest.ofPayload(p), OfApproval(approval), None, Some(approval.id), p.actorId)]
    {
      receipts := receipts[source :=
        Receipt(TypeOf(p), p, digest.ofPayload(p), OfApproval(approval), None, Some(approval.id), p.actorId)];
    }

    /** With a capability, the caller already locked the source; the capability is spent either way. */
    method TakeCapability(handle: int, transaction: int, source: Source) returns (accepted: bool)
      modifies `capabilities
      ensures accepted <==> handle in old(capabilities) && old(capabilities)[handle] == Capability(transaction, source)
      ensures capabilities == old(capabilities) - {handle} && handle !in capabilities
    {
      if handle !in capabilities {
        assert capabilities - {handle} == capabilities;
        return false;
      }
      var state := capabilities[handle];
      capabilities := capabilities - {handle};
      accepted := state.transaction == transaction && state.source.id == source.id
                  && state.source.key == source.key && state.source.sourceType == source.sourceType;
    }

    method AppendCostEntry(source: Source, p: Payload, w: World) returns (reply: Reply)
      requires p.CostAppend?
      modifies `ledger, `receipts
      ensures (Tables(), reply) == Perform(old(Tables()), digest, source, p, w)
    {
      hide Stated, NonBlank, IsUuid;
      if !Stated(source, p) { return Refused(InvalidCommand); }
      var replay := ReplayReceipt(source, p);
      if replay.Some? { return replay.value; }
      if w.busy { return Refused(AuthorityBusy); }
      if !w.authorized || !w.actorLive { return Refused(AuthorityInvalid); }
      if !w.settlementOpen { return Refused(SettlementClosed); }
      if w.freshId in ledger || !IsUuid(w.freshId) { return Refused(WriteConflict); }
      var entry := Entry(w.freshId, Original, p.facts, p.amount, None, p.at, p.actorId, source);
      ledger := ledger[entry.id := entry];
      CreateCostReceipt(source, p, entry);
      return Wrote(OfEntry(entry));
    }

    method ReverseCostEntry(source: Source, p: Payload, w: World) returns (reply: Reply)
      requires p.CostReverse?
      modifies `ledger, `receipts
      ensures (Tables(), reply) == Perform(old(Tables()), digest, source, p, w)
    {
      hide Stated, NonBlank, IsUuid, RetainsCost, IsReversed;
      if !Stated(source, p) { return Refused(InvalidCommand); }
      var replay := ReplayReceipt(source, p);
      if replay.Some? { return replay.value; }
      if p.originalId !in ledger { return Refused(EntryNotFound); }
      var original := ledger[p.originalId];
      if !original.kind.Original? { return Refused(ReversalInvalid); }
      if w.busy { return Refused(AuthorityBusy); }
      if !w.actorLive { return Refused(AuthorityInvalid); }
      if !w.settlementOpen { return Refused(SettlementClosed); }
      if w.costRequired && !RetainsCost(ledger, original) { return Refused(CostNotRetained); }
      if IsReversed(ledger, p.originalId) { return Refused(AlreadyReversed); }
      if w.freshId in ledger || !IsUuid(w.freshId) { return Refused(WriteConflict); }
      var entry := Entry(w.freshId, Reversal, original.facts, -original.amount, Some(original.id), p.at, p.actorId,
                         source);
      ledger := ledger[entry.id := entry];
      CreateCostReceipt(source, p, entry);
      return Wrote(OfEntry(entry));
    }

    method RequestExceptionApproval(source: Source, p: Payload, w: World) returns (reply: Reply)
      requires p.ExceptionRequest?
      modifies `approvals, `receipts
      ensures (Tables(), reply) == Perform(old(Tables()), digest, source, p, w)
    {
      hide Stated, NonBlank, IsUuid;
      if !Stated(source, p) { return Refused(InvalidCommand); }
      var replay := ReplayReceipt(source, p);
      if replay.Some? { return replay.value; }
      if w.busy { return Refused(AuthorityBusy); }
      var hash := digest.ofSnapshot(p.snapshot);
      if exists id :: id in approvals && Live(approvals[id]) && SameMatter(approvals[id], p.subject, hash) {
        return Refused(AlreadyLive);
      }
      if !w.actorLive { return Refused(AuthorityInvalid); }
      if w.freshId in approvals || !IsUuid(w.freshId) { return Refused(WriteConflict); }
      var approval := Approval(w.freshId, p.exceptionType, p.subject, p.snapshot, hash, p.reason, p.evidence, p.actorId,
                               p.at, source, Pending, 0, None, None, None, None, None, None, None);
      approvals := approvals[approval.id := approval];
      CreateApprovalReceipt(source, p, approval);
      return Wrote(OfApproval(approval));
    }

    /** Loads the approval a command means, checking identity and version. */
    method LoadApproval(id: Id, exceptionType: string, subject: Subject, expectedVersion: nat)
      returns (found: Result<Approval, Rejection>)
      ensures found == Found(Tables(), id, exceptionType, subject, expectedVersion)
    {
      if id !in approvals { return Failure(ApprovalNotFound); }
      var approval := approvals[id];
      if approval.exceptionType != exceptionType || approval.subject != subject { return Failure(SubjectMismatch); }
      if approval.version != expectedVersion { return Failure(VersionConflict); }
      return Success(approval);
    }

    method DecideExceptionApproval(source: Source, p: Payload, w: World) returns (reply: Reply)
      requires p.ExceptionDecide?
      modifies `approvals, `receipts
      ensures (Tables(), reply) == Perform(old(Tables()), digest, source, p, w)
    {
      hide Stated, NonBlank, IsUuid, Found;
      if !Stated(source, p) { return Refused(InvalidCommand); }
      var replay := ReplayReceipt(source, p);
      if replay.Some? { return replay.value; }
      if w.busy { return Refused(AuthorityBusy); }
      var found := LoadApproval(p.approvalId, p.exceptionType, p.subject, p.expectedVersion);
      if found.Failure? { return Refused(found.error); }
      var approval := found.value;
      if !approval.status.Pending? { return Refused(StatusConflict); }
      if approval.requestedBy == p.actorId { return Refused(SelfApproval); }
      if approval.snapshotHash != digest.ofSnapshot(p.snapshot) || approval.snapshot != p.snapshot {
        return Refused(SnapshotMismatch);
      }
      if !w.actorLive { return Refused(AuthorityInvalid); }
      var decided := approval.(
        decision := Some(p.decision), decisionComment := Some(p.reason), decidedAt := Some(p.at),
        decidedBy := Some(p.actorId), status := if p.decision.Approve? then Approved else Rejected,
        version := approval.version + 1);
      approvals := approvals[decided.id := decided];
      CreateApprovalReceipt(source, p, decided);
      return Wrote(OfApproval(decided));
    }

    method ExpireLockedApproval(source: Source, p: Payload, approval: Approval) returns (expired: Approval)
      requires p.ExceptionExpire?
      modifies `approvals, `receipts
      ensures expired == ExpiredNow(approval, p)
      ensures Tables() == WithApproval(old(Tables()), digest, source, p, expired)
    {
      expired := approval.(
        expiredAt := Some(p.at), expiredBy := Some(p.actorId), expiryReason := Some(p.reason), status := Expired,
        version := approval.version + 1);
      approvals := approvals[expired.id := expired];
      CreateApprovalReceipt(source, p, expired);
    }

    method ExpireExceptionApproval(source: Source, p: Payload, w: World) returns (reply: Reply)
      requires p.ExceptionExpire?
      modifies `approvals, `receipts
      ensures (Tables(), reply) == Perform(old(Tables()), digest, source, p, w)
    {
      hide Stated, NonBlank, IsUuid, Found, WithApproval;
      if !Stated(source, p) { return Refused(InvalidCommand); }
      var replay := ReplayReceipt(source, p);
      if replay.Some? { return replay.value; }
      if w.busy { return Refused(AuthorityBusy); }
      var found := LoadApproval(p.approvalId, p.exceptionType, p.subject, p.expectedVersion);
      if found.Failure? { return Refused(found.error); }
      var approval := found.value;
      if !approval.status.Pending? && !approval.status.Approved? { return Refused(StatusConflict); }
      if !w.actorLive { return Refused(AuthorityInvalid); }
      var expired := ExpireLockedApproval(source, p, approval);
      return Wrote(OfApproval(expired));
    }

    method RequireCurrentApprovedException(source: Source, p: Payload, w: World) returns (currency: Currency)
      requires p.ExceptionExpire?
      modifies `approvals, `receipts
      ensures (Tables(), currency) == RequireCurrent(old(Tables()), digest, source, p, w)
    {
      hide Stated, NonBlank, IsUuid, Found, WithApproval;
      if !Stated(source, p) { return NotJudged(InvalidCommand); }
      var replay := ReplayReceipt(source, p);
      if replay.Some? {
        return if replay.value.Replayed? then Stale(replay.value.outcome) else NotJudged(SourceConflict);
      }
      if w.busy { return NotJudged(AuthorityBusy); }
      var found := LoadApproval(p.approvalId, p.exceptionType, p.subject, p.expectedVersion);
      if found.Failure? { return NotJudged(found.error); }
      var approval := found.value;
      if !approval.status.Approved? { return NotJudged(StatusConflict); }
      if approval.snapshotHash == digest.ofSnapshot(p.snapshot) && approval.snapshot == p.snapshot {
        return Current(approval);
      }
      if !w.actorLive { return NotJudged(AuthorityInvalid); }
      var expired := ExpireLockedApproval(source, p, approval);
      return Stale(OfApproval(expired));
    }
  }
}
