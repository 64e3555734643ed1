/**
 The accounting tables and the commands on them. Every command names a source; its receipt
 makes the command happen once. A command is one transaction: what is rejected changes nothing.
 What the rest of the database says at that moment (live users, valid references, open
 settlement, row locks) comes with the command as its world.
 */
module AccountingStore {
  import opened Wrappers
  import opened AssetTypes
  import opened CostLedger
  import opened CostSummary

  /** A snapshot is its canonical text. */
  type Snapshot = string

  datatype Subject = Subject(subjectType: string, subjectId: Id, subjectField: string)
  datatype Status = Pending | Approved | Rejected | Expired
  datatype Decision = Approve | Reject

  datatype Approval = Approval(
    id: Id, exceptionType: string, subject: Subject, snapshot: Snapshot, snapshotHash: int,
    requestReason: string, evidence: Option<Snapshot>, requestedBy: Id, requestedAt: Moment, requestSource: Source,
    status: Status, version: nat,
    decision: Option<Decision>, decidedBy: Option<Id>, decidedAt: Option<Moment>, decisionComment: Option<string>,
    expiredBy: Option<Id>, expiredAt: Option<Moment>, expiryReason: Option<string>)

  /** What a command says, apart from its source; a receipt compares all of it. */
  datatype Payload =
    | CostAppend(actorId: Id, facts: Facts, amount: int, reason: string, at: Moment)
    | CostReverse(actorId: Id, originalId: Id, reason: string, at: Moment)
    | ExceptionRequest(actorId: Id, exceptionType: string, subject: Subject, snapshot: Snapshot,
                       evidence: Option<Snapshot>, reason: string, at: Moment)
    | ExceptionDecide(actorId: Id, approvalId: Id, exceptionType: string, subject: Subject, snapshot: Snapshot,
                      expectedVersion: nat, decision: Decision, reason: string, at: Moment)
    | ExceptionExpire(actorId: Id, approvalId: Id, exceptionType: string, subject: Subject, snapshot: Snapshot,
                      expectedVersion: nat, reason: string, at: Moment)

  datatype CommandType = COST_APPEND | COST_REVERSE | EXCEPTION_REQUEST | EXCEPTION_DECIDE | EXCEPTION_EXPIRE

  function TypeOf(p: Payload): CommandType {
    match p
    case CostAppend(_, _, _, _, _) => COST_APPEND
    case CostReverse(_, _, _, _) => COST_REVERSE
    case ExceptionRequest(_, _, _, _, _, _, _) => EXCEPTION_REQUEST
    case ExceptionDecide(_, _, _, _, _, _, _, _, _) => EXCEPTION_DECIDE
    case ExceptionExpire(_, _, _, _, _, _, _, _) => EXCEPTION_EXPIRE
  }

  predicate IsCost(t: CommandType) { t.COST_APPEND? || t.COST_REVERSE? }

  datatype Outcome = OfEntry(entry: Entry) | OfApproval(approval: Approval)

  datatype Receipt = Receipt(
    commandType: CommandType, payload: Payload, payloadHash: int, outcome: Outcome,
    costEntryId: Option<Id>, approvalId: Option<Id>, actorId: Id)

  datatype Store = Store(ledger: Ledger, approvals: map<Id, Approval>, receipts: map<Source, Receipt>)

  const EMPTY := Store(map[], map[], map[])

  /** The two uses of the digest, which may be any functions whatever. */
  datatype Digest = Digest(ofPayload: Payload -> int, ofSnapshot: Snapshot -> int)

  datatype World = World(
    busy: bool,            // a row lock is held by someone else
    actorLive: bool,       // the acting user exists and is active
    authorized: bool,      // every other reference of an appended entry is valid and live
    settlementOpen: bool,  // no completed or terminated closure case covers the order
    costRequired: bool,    // the work order is closed and required cost confirmation
    freshId: Id)           // the random id of the row to be created

  datatype Rejection =
    | InvalidCommand | SourceConflict | AuthorityBusy | AuthorityInvalid | SettlementClosed
    | EntryNotFound | ReversalInvalid | CostNotRetained | AlreadyReversed | WriteConflict
    | AlreadyLive | ApprovalNotFound | SubjectMismatch | VersionConflict | StatusConflict
    | SelfApproval | SnapshotMismatch

  datatype Reply = Wrote(outcome: Outcome) | Replayed(outcome: Outcome) | Refused(rejection: Rejection)

  /* ---- Input checks ---- */

  predicate HexAt(s: string, i: nat)
    requires i < |s|
  {
    '0' <= s[i] <= '9' || 'a' <= s[i] <= 'f'
  }

  /** A lower-case UUID. */
  predicate IsUuid(s: string) {
    |s| == 36 && forall i :: 0 <= i < 36 ==> if i in {8, 13, 18, 23} then s[i] == '-' else HexAt(s, i)
  }

  predicate OptionalUuid(s: Option<string>) { s.Some? ==> IsUuid(s.value) }

  predicate FactsStated(f: Facts) {
    && IsUuid(f.vehicleId) && OptionalUuid(f.orderId) && OptionalUuid(f.workOrderId) && OptionalUuid(f.contractId)
    && OptionalUuid(f.customerId) && OptionalUuid(f.partyId) && OptionalUuid(f.assetOwnerId)
    && OptionalUuid(f.evidenceId) && ValidPeriod(f.accountingPeriod)
  }

  predicate SubjectStated(s: Subject) { IsUuid(s.subjectId) && NonBlank(s.subjectField) }

  /** The command survives normalization. */
  predicate Stated(source: Source, p: Payload) {
    && NonBlank(source.sourceType) && NonBlank(source.id) && NonBlank(source.key)
    && IsUuid(p.actorId) && NonBlank(p.reason)
    && match p
       case CostAppend(_, facts, amount, _, _) => FactsStated(facts) && amount > 0
       case CostReverse(_, originalId, _, _) => IsUuid(originalId)
       case ExceptionRequest(_, _, subject, _, _, _, _) => SubjectStated(subject)
       case ExceptionDecide(_, id, _, subject, _, _, _, _, _) => IsUuid(id) && SubjectStated(subject)
       case ExceptionExpire(_, id, _, subject, _, _, _, _) => IsUuid(id) && SubjectStated(subject)
  }

  /* ---- Replay ---- */

  /** None when the source is free; otherwise the receipt decides, and nothing else is looked at. */
  function Replay(store: Store, d: Digest, source: Source, p: Payload): Option<Reply> {
    if source !in store.receipts then None
    else
      var r := store.receipts[source];
      if r.commandType != TypeOf(p) || r.payloadHash != d.ofPayload(p) || r.payload != p
         || (!IsCost(TypeOf(p)) && (r.approvalId.None? || r.costEntryId.Some?))
      then Some(Refused(SourceConflict))
      else Some(Replayed(r.outcome))
  }

  /* ---- Cost commands ---- */

  function WithEntry(store: Store, d: Digest, source: Source, p: Payload, e: Entry): Store {
    store.(ledger := store.ledger[e.id := e],
           receipts := store.receipts[source :=
             Receipt(TypeOf(p), p, d.ofPayload(p), OfEntry(e), Some(e.id), None, p.actorId)])
  }

  function Appended(source: Source, p: Payload, id: Id): Entry
    requires p.CostAppend?
  {
    Entry(id, Original, p.facts, p.amount, None, p.at, p.actorId, source)
  }

  function ReversalOf(original: Entry, source: Source, p: Payload, id: Id): Entry
    requires p.CostReverse?
  {
    Entry(id, Reversal, original.facts, -original.amount, Some(original.id), p.at, p.actorId, source)
  }

  function Append(store: Store, d: Digest, source: Source, p: Payload, w: World): (Store, Reply)
    requires p.CostAppend?
  {
    if w.busy then (store, Refused(AuthorityBusy))
    else if !w.authorized || !w.actorLive then (store, Refused(AuthorityInvalid))
    else if !w.settlementOpen then (store, Refused(SettlementClosed))
    else if w.freshId in store.ledger || !IsUuid(w.freshId) then (store, Refused(WriteConflict))
    else
      var e := Appended(source, p, w.freshId);
      (WithEntry(store, d, source, p, e), Wrote(OfEntry(e)))
  }

  /** Another unreversed actual cost of the same work order. */
  predicate Replaces(ledger: Ledger, id: Id, original: Entry) {
    && id in ledger && id != original.id
    && ledger[id].kind.Original? && ledger[id].facts.actionType.ActualCost?
    && ledger[id].facts.workOrderId == original.facts.workOrderId
    && !IsReversed(ledger, id)
  }

  predicate RetainsCost(ledger: Ledger, original: Entry) {
    || original.facts.workOrderId.None?
    || !original.facts.actionType.ActualCost?
    || exists id :: id in ledger && Replaces(ledger, id, original)
  }

  function Reverse(store: Store, d: Digest, source: Source, p: Payload, w: World): (Store, Reply)
    requires p.CostReverse?
  {
    if p.originalId !in store.ledger then (store, Refused(EntryNotFound))
    else
      var original := store.ledger[p.originalId];
      if !original.kind.Original? then (store, Refused(ReversalInvalid))
      else if w.busy then (store, Refused(AuthorityBusy))
      else if !w.actorLive then (store, Refused(AuthorityInvalid))
      else if !w.settlementOpen then (store, Refused(SettlementClosed))
      else if w.costRequired && !RetainsCost(store.ledger, original) then (store, Refused(CostNotRetained))
      else if IsReversed(store.ledger, p.originalId) then (store, Refused(AlreadyReversed))
      else if w.freshId in store.ledger || !IsUuid(w.freshId) then (store, Refused(WriteConflict))
      else
        var e := ReversalOf(original, source, p, w.freshId);
        (WithEntry(store, d, source, p, e), Wrote(OfEntry(e)))
  }

  /* ---- Approval commands ---- */

  function WithApproval(store: Store, d: Digest, source: Source, p: Payload, a: Approval): Store {
    store.(approvals := store.approvals[a.id := a],
           receipts := store.receipts[source :=
             Receipt(TypeOf(p), p, d.ofPayload(p), OfApproval(a), None, Some(a.id), p.actorId)])
  }

  predicate Live(a: Approval) { a.status.Pending? || a.status.Approved? }

  predicate SameMatter(a: Approval, subject: Subject, hash: int) { a.subject == subject && a.snapshotHash == hash }

  predicate HasLive(store: Store, subject: Subject, hash: int) {
    exists id :: id in store.approvals && Live(store.approvals[id]) && SameMatter(store.approvals[id], subject, hash)
  }

  function Requested(source: Source, d: Digest, p: Payload, id: Id): Approval
    requires p.ExceptionRequest?
  {
    Approval(id, p.exceptionType, p.subject, p.snapshot, d.ofSnapshot(p.snapshot), p.reason, p.evidence, p.actorId,
             p.at, source, Pending, 0, None, None, None, None, None, None, None)
  }

  function Request(store: Store, d: Digest, source: Source, p: Payload, w: World): (Store, Reply)
    requires p.ExceptionRequest?
  {
    if w.busy then (store, Refused(AuthorityBusy))
    else if HasLive(store, p.subject, d.ofSnapshot(p.snapshot)) then (store, Refused(AlreadyLive))
    else if !w.actorLive then (store, Refused(AuthorityInvalid))
    else if w.freshId in store.approvals || !IsUuid(w.freshId) then (store, Refused(WriteConflict))
    else
      var a := Requested(source, d, p, w.freshId);
      (WithApproval(store, d, source, p, a), Wrote(OfApproval(a)))
  }

  /** The approval a decision or expiry is about, when it is the one meant. */
  function Found(store: Store, id: Id, exceptionType: string, subject: Subject, expectedVersion: nat)
    : Result<Approval, Rejection>
  {
    if id !in store.approvals then Failure(ApprovalNotFound)
    else
      var a := store.approvals[id];
      if a.exceptionType != exceptionType || a.subject != subject then Failure(SubjectMismatch)
      else if a.version != expectedVersion then Failure(VersionConflict)
      else Success(a)
  }

  predicate HasSnapshot(a: Approval, d: Digest, snapshot: Snapshot) {
    a.snapshotHash == d.ofSnapshot(snapshot) && a.snapshot == snapshot
  }

  function Decided(a: Approval, p: Payload): Approval
    requires p.ExceptionDecide?
  {
    a.(decision := Some(p.decision), decidedBy := Some(p.actorId), decidedAt := Some(p.at),
       decisionComment := Some(p.reason),
       status := if p.decision.Approve? then Approved else Rejected, version := a.version + 1)
  }

  function Decide(store: Store, d: Digest, source: Source, p: Payload, w: World): (Store, Reply)
    requires p.ExceptionDecide?
  {
    if w.busy then (store, Refused(AuthorityBusy))
    else
      var found := Found(store, p.approvalId, p.exceptionType, p.subject, p.expectedVersion);
      if found.Failure? then (store, Refused(found.error))
      else
        var a := found.value;
        if !a.status.Pending? then (store, Refused(StatusConflict))
        else if a.requestedBy == p.actorId then (store, Refused(SelfApproval))
        else if !HasSnapshot(a, d, p.snapshot) then (store, Refused(SnapshotMismatch))
        else if !w.actorLive then (store, Refused(AuthorityInvalid))
        else (WithApproval(store, d, source, p, Decided(a, p)), Wrote(OfApproval(Decided(a, p))))
  }

  function ExpiredNow(a: Approval, p: Payload): Approval
    requires p.ExceptionExpire?
  {
    a.(expiredBy := Some(p.actorId), expiredAt := Some(p.at), expiryReason := Some(p.reason),
       status := Expired, version := a.version + 1)
  }

  function Expire(store: Store, d: Digest, source: Source, p: Payload, w: World): (Store, Reply)
    requires p.ExceptionExpire?
  {
    if w.busy then (store, Refused(AuthorityBusy))
    else
      var found := Found(store, p.approvalId, p.exceptionType, p.subject, p.expectedVersion);
      if found.Failure? then (store, Refused(found.error))
      else
        var a := found.value;
        if !Live(a) then (store, Refused(StatusConflict))
        else if !w.actorLive then (store, Refused(AuthorityInvalid))
        else (WithApproval(store, d, source, p, ExpiredNow(a, p)), Wrote(OfApproval(ExpiredNow(a, p))))
  }

  /** Current, or expired (now or by the receipt), or refused. */
  datatype Currency = Current(approval: Approval) | Stale(outcome: Outcome) | NotJudged(rejection: Rejection)

  /** Requires that the approval is approved for this very snapshot; a differing snapshot expires it. */
  function CheckCurrent(store: Store, d: Digest, source: Source, p: Payload, w: World): (Store, Currency)
    requires p.ExceptionExpire?
  {
    if w.busy then (store, NotJudged(AuthorityBusy))
    else
      var found := Found(store, p.approvalId, p.exceptionType, p.subject, p.expectedVersion);
      if found.Failure? then (store, NotJudged(found.error))
      else
        var a := found.value;
        if !a.status.Approved? then (store, NotJudged(StatusConflict))
        else if HasSnapshot(a, d, p.snapshot) then (store, Current(a))
        else if !w.actorLive then (store, NotJudged(AuthorityInvalid))
        else (WithApproval(store, d, source, p, ExpiredNow(a, p)), Stale(OfApproval(ExpiredNow(a, p))))
  }

  /* ---- Whole commands ---- */

  function FirstTime(store: Store, d: Digest, source: Source, p: Payload, w: World): (Store, Reply) {
    match p
    case CostAppend(_, _, _, _, _) => Append(store, d, source, p, w)
    case CostReverse(_, _, _, _) => Reverse(store, d, source, p, w)
    case ExceptionRequest(_, _, _, _, _, _, _) => Request(store, d, source, p, w)
    case ExceptionDecide(_, _, _, _, _, _, _, _, _) => Decide(store, d, source, p, w)
    case ExceptionExpire(_, _, _, _, _, _, _, _) => Expire(store, d, source, p, w)
  }

  function Perform(store: Store, d: Digest, source: Source, p: Payload, w: World): (Store, Reply) {
    if !Stated(source, p) then (store, Refused(InvalidCommand))
    else
      var replay := Replay(store, d, source, p);
      if replay.Some? then (store, replay.value) else FirstTime(store, d, source, p, w)
  }

  function RequireCurrent(store: Store, d: Digest, source: Source, p: Payload, w: World): (Store, Currency)
    requires p.ExceptionExpire?
  {
    if !Stated(source, p) then (store, NotJudged(InvalidCommand))
    else
      var replay := Replay(store, d, source, p);
      if replay.Some? then
        if replay.value.Replayed? then (store, Stale(replay.value.outcome)) else (store, NotJudged(SourceConflict))
      else CheckCurrent(store, d, source, p, w)
  }

  datatype Event =
    | Performed(source: Source, payload: Payload, world: World)
    | Required(source: Source, payload: Payload, world: World)

  function Step(store: Store, d: Digest, event: Event): Store {
    match event
    case Performed(source, p, w) => Perform(store, d, source, p, w).0
    case Required(source, p, w) => if p.ExceptionExpire? then RequireCurrent(store, d, source, p, w).0 else store
  }

  function Run(store: Store, d: Digest, events: seq<Event>): Store
    decreases |events|
  {
    if events == [] then store else Run(Step(store, d, events[0]), d, events[1..])
  }

  /* ---- Every command is one of three changes ---- */

  /** What a step does to the store: nothing, one new entry, or one new or updated approval. */
  datatype Change =
    | NoChange
    | NewEntry(p: Payload, source: Source, entry: Entry)
    | NewApproval(p: Payload, source: Source, approval: Approval)

  function ChangeOf(store: Store, d: Digest, event: Event): Change {
    var p, source, w := event.payload, event.source, event.world;
    if event.Performed? then
      var reply := Perform(store, d, source, p, w).1;
      if !reply.Wrote? then NoChange
      else if reply.outcome.OfEntry? then NewEntry(p, source, reply.outcome.entry)
      else NewApproval(p, source, reply.outcome.approval)
    else if !p.ExceptionExpire? || source in store.receipts then NoChange
    else
      var currency := RequireCurrent(store, d, source, p, w).1;
      if currency.Stale? && currency.outcome.OfApproval? then NewApproval(p, source, currency.outcome.approval)
      else NoChange
  }

  function Apply(store: Store, d: Digest, change: Change): Store {
    match change
    case NoChange => store
    case NewEntry(p, source, e) => WithEntry(store, d, source, p, e)
    case NewApproval(p, source, a) => WithApproval(store, d, source, p, a)
  }

  /** When an entry may be added. */
  ghost predicate EntryAllowed(store: Store, source: Source, p: Payload, e: Entry) {
    && source !in store.receipts && e.id !in store.ledger && IsUuid(e.id) && e.source == source && Stated(source, p)
    && match p
       case CostAppend(_, _, _, _, _) => e == Appended(source, p, e.id)
       case CostReverse(_, originalId, _, _) =>
         && originalId in store.ledger && store.ledger[originalId].kind.Original?
         && !IsReversed(store.ledger, originalId)
         && e == ReversalOf(store.ledger[originalId], source, p, e.id)
       case _ => false
  }

  /** When an approval may be added or replaced. */
  ghost predicate ApprovalAllowed(store: Store, d: Digest, source: Source, p: Payload, a: Approval) {
    && source !in store.receipts && Stated(source, p)
    && match p
       case ExceptionRequest(_, _, _, _, _, _, _) =>
         && a.id !in store.approvals && IsUuid(a.id) && a == Requested(source, d, p, a.id)
         && !HasLive(store, a.subject, a.snapshotHash)
       case ExceptionDecide(_, id, _, _, _, _, _, _, _) =>
         && id in store.approvals && store.approvals[id].status.Pending? && a == Decided(store.approvals[id], p)
         && store.approvals[id].requestedBy != p.actorId
         && store.approvals[id].version == p.expectedVersion
         && store.approvals[id].exceptionType == p.exceptionType && store.approvals[id].subject == p.subject
         && HasSnapshot(store.approvals[id], d, p.snapshot)
       case ExceptionExpire(_, id, _, _, _, _, _, _) =>
         && id in store.approvals && Live(store.approvals[id]) && a == ExpiredNow(store.approvals[id], p)
       case _ => false
  }

  ghost predicate Allowed(store: Store, d: Digest, change: Change) {
    match change
    case NoChange => true
    case NewEntry(p, source, e) => EntryAllowed(store, source, p, e)
    case NewApproval(p, source, a) => ApprovalAllowed(store, d, source, p, a)
  }

  lemma FirstTimeIsItsChange(store: Store, d: Digest, source: Source, p: Payload, w: World)
    requires source !in store.receipts && Stated(source, p) && IndexedById(store)
    ensures var (next, reply) := FirstTime(store, d, source, p, w);
      match reply
      case Wrote(OfEntry(e)) => next == WithEntry(store, d, source, p, e) && EntryAllowed(store, source, p, e)
      case Wrote(OfApproval(a)) =>
        next == WithApproval(store, d, source, p, a) && ApprovalAllowed(store, d, source, p, a)
      case Replayed(_) => false
      case Refused(_) => next == store
  {
    hide Stated, IsUuid, HasLive, IsReversed, RetainsCost, WithEntry, WithApproval;
  }

  ghost predicate IndexedById(store: Store) {
    && (forall id :: id in store.ledger ==> store.ledger[id].id == id)
    && (forall id :: id in store.approvals ==> store.approvals[id].id == id)
  }

  lemma CheckIsItsChange(store: Store, d: Digest, source: Source, p: Payload, w: World)
    requires p.ExceptionExpire? && source !in store.receipts && Stated(source, p) && IndexedById(store)
    ensures var (next, currency) := CheckCurrent(store, d, source, p, w);
      match currency
      case Stale(OfApproval(a)) =>
        next == WithApproval(store, d, source, p, a) && ApprovalAllowed(store, d, source, p, a)
      case Stale(OfEntry(_)) => false
      case _ => next == store
  {
    hide Stated, IsUuid, HasLive, WithApproval;
  }

  /** Every step applies an allowed change. */
  lemma StepIsItsChange(store: Store, d: Digest, event: Event)
    requires IndexedById(store)
    ensures Allowed(store, d, ChangeOf(store, d, event))
    ensures Step(store, d, event) == Apply(store, d, ChangeOf(store, d, event))
  {
    hide Stated, FirstTime, CheckCurrent, EntryAllowed, ApprovalAllowed, WithEntry, WithApproval, IndexedById;
    var p, source, w := event.payload, event.source, event.world;
    if Stated(source, p) && source !in store.receipts {
      if event.Performed? {
        FirstTimeIsItsChange(store, d, source, p, w);
      } else if p.ExceptionExpire? {
        CheckIsItsChange(store, d, source, p, w);
      }
    }
  }
}
