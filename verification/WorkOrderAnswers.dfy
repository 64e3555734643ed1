/**
 When each work-order command on a free source writes, and what it leaves, said of the tables and the
 command alone. In every other case it is refused and nothing is written.
 */
module WorkOrderAnswers {
  import opened Wrappers
  import opened AssetTypes
  import opened WorkOrders
  import opened WorkOrderCommands
  import opened WorkOrderInvariants
  import opened WorkOrderReplay

  /* ---- The edges of the status graph ---- */

  /** Every edge there is, one by one. */
  predicate Edge(from: Status, to: Status, costRequired: bool) {
    match to
    case Pending => false
    case InProgress => from.Pending? || from.WaitingExternal? || from.PendingAcceptance?
      || from.PendingCostConfirmation?
    case WaitingExternal => from.InProgress?
    case PendingAcceptance => from.InProgress?
    case PendingCostConfirmation => from.PendingAcceptance? && costRequired
    case Closed => from.PendingCostConfirmation? || (from.PendingAcceptance? && !costRequired)
    case Cancelled => !from.Closed? && !from.Cancelled?
  }

  lemma AllowedIsEdge(from: Status, to: Status, costRequired: bool)
    ensures TransitionAllowed(from, to, costRequired) <==> Edge(from, to, costRequired)
  {
  }

  /** The fold before an event is of the same order as the fold of the whole log. */
  lemma {:induction false} TransitionsFollowEdges(log: seq<Event>, i: nat)
    requires LogOk(log) && i < |log| && log[i].command.detail.Transition?
    ensures log[i].before.Some? && log[i].after.Some?
    ensures Edge(log[i].before.value, log[i].after.value, Fold(log).costRequired)
    decreases |log|
  {
    hide OpensLog, Edge, TransitionAllowed;
    var n := |log| - 1;
    if i < n {
      TransitionsFollowEdges(log[..n], i);
      PrefixIsSameOrder(log, n);
    } else {
      OpensWithCreation(log);
      PrefixIsSameOrder(log, n);
      AllowedIsEdge(log[i].before.value, log[i].after.value, Fold(log[..n]).costRequired);
    }
  }

  lemma OpensWithCreation(log: seq<Event>)
    requires LogOk(log) && log[|log| - 1].command.detail.Transition?
    ensures |log| > 1
  {
  }

  /**
   In every valid log: an order is submitted for acceptance and put to waiting from IN_PROGRESS alone;
   waiting ends in IN_PROGRESS or CANCELLED alone; no transition keeps the status, returns to PENDING, or
   leaves a terminal status; acceptance goes to cost confirmation or to CLOSED as the order requires costs.
   */
  lemma StatusGraph(log: seq<Event>, i: nat)
    requires LogOk(log) && i < |log| && log[i].command.detail.Transition?
    ensures log[i].before.Some? && log[i].after.Some?
    ensures var from, to, costRequired := log[i].before.value, log[i].after.value, Fold(log).costRequired;
      && from != to && to != Pending && from != Closed && from != Cancelled
      && (to == PendingAcceptance || to == WaitingExternal ==> from == InProgress)
      && (from == WaitingExternal ==> to == InProgress || to == Cancelled)
      && (from == Pending ==> to == InProgress || to == Cancelled)
      && (to == PendingCostConfirmation ==> from == PendingAcceptance && costRequired)
      && (to == Closed ==> from == if costRequired then PendingCostConfirmation else from)
      && (to == Closed ==> from == PendingCostConfirmation || from == PendingAcceptance)
  {
    hide LogOk, Fold;
    TransitionsFollowEdges(log, i);
  }

  /* ---- Orders ---- */

  /** No command has used the source. */
  predicate IsFree(ops: Ops, s: Source) { EventOf(ops.journal, s).None? && s !in ops.starts && s !in ops.releases }

  /** The header a command works with: the one of its handle, or else the row. */
  function Known(ops: Ops, id: Id, w: World): Header
    requires HasOrder(ops, id)
  {
    match w.locked
    case Some(h) => h
    case None => ops.journal.orders[id]
  }

  /** The event the tables gain, at the end of its order's log. */
  predicate GainsEvent(ops: Ops, after: Ops, e: Event) {
    && HasOrder(ops, e.workOrderId) && e.sequence == |ops.journal.logs[e.workOrderId]| + 1
    && after.journal.logs == ops.journal.logs[e.workOrderId := ops.journal.logs[e.workOrderId] + [e]]
    && after.journal.index ==
       ops.journal.index[e.command.source := Place(e.workOrderId, |ops.journal.logs[e.workOrderId]|)]
  }

  predicate SameBesidesJournal(ops: Ops, after: Ops) { after == ops.(journal := after.journal) }

  lemma CreateWritesExactlyWhen(ops: Ops, c: Command, w: World)
    requires Inv(ops) && c.detail.Create? && IsFree(ops, c.source)
    ensures var (after, reply) := Execute(ops, c, w);
      && (reply.Wrote? <==> !w.busy && w.rowsExist && c.occurredAt <= w.now && w.freshId !in ops.journal.orders)
      && (!reply.Wrote? ==> after == ops && reply.Refused?)
      && (reply.Wrote? ==>
            && after.journal.orders.Keys == ops.journal.orders.Keys + {w.freshId}
            && (forall id :: id in ops.journal.orders ==> after.journal.orders[id] == ops.journal.orders[id])
            && after.created == ops.created[c.source := w.freshId]
            && after == ops.(journal := after.journal, created := after.created)
            && var h := after.journal.orders[w.freshId];
               && h.id == w.freshId && h.number == w.number && h.vehicleId == c.detail.vehicleId
               && h.recovery == c.detail.recovery && h.costRequired == c.detail.costRequired
               && h.facts == c.detail.facts
               && h.createSource == c.source && h.status == Pending && h.version == 0
               && h.createdBy == h.updatedBy == c.actorId
               && h.assignedUserId.None? && h.scheduledAt.None? && h.slaDueAt.None? && h.startedAt.None?
               && h.acceptedAt.None? && h.costConfirmedAt.None? && h.closedAt.None? && h.cancelledAt.None?
               && h.closeReason.None? && h.solution.None?
               && reply == Wrote(OnOrder(Event(w.freshId, 1, CREATED, None, Some(Pending), c, h)))
               && after.journal.logs == ops.journal.logs[w.freshId := [reply.outcome.event]]
               && after.journal.index == ops.journal.index[c.source := Place(w.freshId, 0)])
  {
    hide EventsSourced, EvidencesSourced, RowsFit, SourcesFit, OrderOk, Indexed;
    FreeIsUnnamed(ops, c.source);
  }

  lemma FreeIsUnnamed(ops: Ops, s: Source)
    requires Inv(ops) && IsFree(ops, s)
    ensures s !in ops.journal.index && s !in ops.created && s !in ops.evidenceIndex
  {
    hide JournalOk, EvidencesSourced, RowsFit, SourcesFit, EventSourced;
    UnnamedSource(ops, s);
    IndexesCover(ops, s);
  }

  lemma NextIsLast(ops: Ops, id: Id)
    requires Inv(ops) && HasOrder(ops, id)
    ensures MaxSequence(ops.journal.logs[id]) == |ops.journal.logs[id]|
  {
    hide EventsSourced, EvidencesSourced, RowsFit, SourcesFit, IndexOk, LogOk, Fold, MaxSequence;
    assert OrderOk(ops.journal, id);
    MaxSequenceIsLength(ops.journal.logs[id]);
  }

  /** The header known has the version expected, and the row is still like it. */
  predicate UpToDate(ops: Ops, id: Id, w: World, expectedVersion: nat)
    requires HasOrder(ops, id)
  {
    && Known(ops, id, w).version == expectedVersion == ops.journal.orders[id].version
    && Known(ops, id, w).status == ops.journal.orders[id].status
  }

  lemma AssignWritesExactlyWhen(ops: Ops, c: Command, w: World)
    requires Inv(ops) && GivenOk(ops, c, w) && c.detail.Assign? && IsFree(ops, c.source)
    ensures var ((after, reply), id) := (Execute(ops, c, w), c.detail.workOrderId);
      && (reply.Wrote? <==>
            && !w.busy && w.rowsExist && HasOrder(ops, id) && UpToDate(ops, id, w, c.detail.expectedVersion)
            && ops.journal.orders[id].status != Closed && ops.journal.orders[id].status != Cancelled
            && c.occurredAt <= w.now)
      && (!reply.Wrote? ==> after == ops && reply.Refused?)
      && (reply.Wrote? ==>
            var row := ops.journal.orders[id];
            var h := row.(version := row.version + 1, updatedBy := c.actorId, assignedUserId := Some(c.detail.userId),
                          scheduledAt := c.detail.scheduledAt, slaDueAt := c.detail.slaDueAt);
            var e := Event(id, |ops.journal.logs[id]| + 1, ASSIGNED, Some(row.status), Some(row.status), c, h);
            && reply == Wrote(OnOrder(e)) && GainsEvent(ops, after, e) && SameBesidesJournal(ops, after)
            && after.journal.orders == ops.journal.orders[id := h])
  {
    hide Inv, EventOf, MaxSequence, CreateOrder, TransitionOrder, AppendNote, AppendEvidence, CreateRestriction;
    hide ReleaseRestriction, GivenOk;
    if HasOrder(ops, c.detail.workOrderId) {
      NextIsLast(ops, c.detail.workOrderId);
      OrderHasItsId(ops, c.detail.workOrderId);
    }
  }

  lemma OrderHasItsId(ops: Ops, id: Id)
    requires Inv(ops) && HasOrder(ops, id)
    ensures ops.journal.orders[id].id == id
  {
    hide EventsSourced, EvidencesSourced, RowsFit, SourcesFit, IndexOk, LogOk, Fold;
    assert OrderOk(ops.journal, id);
  }

  /** What a transition is recorded as. */
  predicate RecordedAs(from: Status, to: Status, t: EventType) {
    match t
    case STARTED => from.Pending? && to.InProgress?
    case RESUMED => !from.Pending? && to.InProgress?
    case WAITING_EXTERNAL => to.WaitingExternal?
    case SUBMITTED_FOR_ACCEPTANCE => to.PendingAcceptance?
    case ACCEPTED => to.PendingCostConfirmation?
    case COST_CONFIRMED => from.PendingCostConfirmation? && to.Closed?
    case CLOSED => from.PendingAcceptance? && to.Closed?
    case CANCELLED => to.Cancelled?
    case _ => false
  }

  /** The columns a transition sets: start, acceptance, cost confirmation, closing and cancellation, each once. */
  predicate SetsDates(row: Header, h: Header, c: Command)
    requires c.detail.Transition?
  {
    var from, to, at := row.status, c.detail.target, Some(c.occurredAt);
    && h == row.(status := to, version := row.version + 1, updatedBy := c.actorId,
                 startedAt := h.startedAt, acceptedAt := h.acceptedAt, costConfirmedAt := h.costConfirmedAt,
                 closedAt := h.closedAt, cancelledAt := h.cancelledAt, closeReason := h.closeReason,
                 solution := h.solution)
    && (if from.Pending? then h.startedAt == at else h.startedAt == row.startedAt)
    && (if to.PendingCostConfirmation? || (to.Closed? && from.PendingAcceptance?)
        then h.acceptedAt == at else h.acceptedAt == row.acceptedAt)
    && (if to.Closed? && from.PendingCostConfirmation?
        then h.costConfirmedAt == at else h.costConfirmedAt == row.costConfirmedAt)
    && (if to.Closed? then h.closedAt == at && h.solution == c.detail.solution
        else h.closedAt == row.closedAt && h.solution == row.solution)
    && (if to.Cancelled? then h.cancelledAt == at else h.cancelledAt == row.cancelledAt)
    && (if to.Closed? || to.Cancelled? then h.closeReason == c.detail.closeReason else h.closeReason == row.closeReason)
  }

  /**
   With the current header, a free source, a free row and a time not in the future, a transition is written
   if and only if it is an edge of the status graph; it sets the dates of its edge and no others.
   */
  lemma TransitionWritesExactlyWhen(ops: Ops, c: Command, w: World)
    requires Inv(ops) && GivenOk(ops, c, w) && c.detail.Transition? && IsFree(ops, c.source)
    ensures var ((after, reply), id) := (Execute(ops, c, w), c.detail.workOrderId);
      && (reply.Wrote? <==>
            && !w.busy && HasOrder(ops, id) && UpToDate(ops, id, w, c.detail.expectedVersion)
            && Edge(ops.journal.orders[id].status, c.detail.target, ops.journal.orders[id].costRequired)
            && c.occurredAt <= w.now)
      && (!reply.Wrote? ==> after == ops && reply.Refused?)
      && (reply.Wrote? ==> reply.outcome.OnOrder? && TransitionLeaves(ops, after, c, reply.outcome.event))
  {
    hide Inv, EventOf, MaxSequence, CreateOrder, AssignOrder, AppendNote, AppendEvidence, CreateRestriction;
    hide ReleaseRestriction, TransitionAllowed, Edge, TransitionLeaves, Transitioned, TransitionEventType;
    var id := c.detail.workOrderId;
    if HasOrder(ops, id) {
      var row, h := ops.journal.orders[id], HeaderFor(ops, id, w);
      NextIsLast(ops, id);
      OrderHasItsId(ops, id);
      AllowedIsEdge(h.status, c.detail.target, h.costRequired);
      if Execute(ops, c, w).1.Wrote? { TransitionLeft(ops, c, w); }
    }
  }

  predicate TransitionLeaves(ops: Ops, after: Ops, c: Command, e: Event)
    requires c.detail.Transition?
  {
    && HasOrder(ops, c.detail.workOrderId) && e.workOrderId == c.detail.workOrderId && e.command == c
    && var row := ops.journal.orders[e.workOrderId];
       && e.before == Some(row.status) && e.after == Some(c.detail.target)
       && RecordedAs(row.status, c.detail.target, e.eventType) && SetsDates(row, e.result, c)
       && GainsEvent(ops, after, e) && SameBesidesJournal(ops, after)
       && after.journal.orders == ops.journal.orders[e.workOrderId := e.result]
  }

  lemma TransitionLeft(ops: Ops, c: Command, w: World)
    requires Inv(ops) && GivenOk(ops, c, w) && c.detail.Transition? && TransitionOrder(ops, c, w).1.Wrote?
    ensures var (after, reply) := TransitionOrder(ops, c, w);
      reply.outcome.OnOrder? && TransitionLeaves(ops, after, c, reply.outcome.event)
  {
    hide Inv, EventOf, MaxSequence, Edge, TransitionAllowed;
    var id := c.detail.workOrderId;
    NextIsLast(ops, id);
    var row, h := ops.journal.orders[id], HeaderFor(ops, id, w);
    AllowedIsEdge(h.status, c.detail.target, h.costRequired);
    EdgeIsRecorded(row, c);
  }

  lemma EdgeIsRecorded(row: Header, c: Command)
    requires c.detail.Transition? && Edge(row.status, c.detail.target, row.costRequired)
    ensures RecordedAs(row.status, c.detail.target, TransitionEventType(row.status, c.detail.target))
    ensures SetsDates(row, Transitioned(row, c), c)
  {
  }

  /** An event that moves nothing, with the header known. */
  function QuietEvent(ops: Ops, c: Command, id: Id, t: EventType, w: World): Event
    requires HasOrder(ops, id)
  {
    Event(id, |ops.journal.logs[id]| + 1, t, None, None, c, Known(ops, id, w))
  }

  /** The journal gains this event and no header changes. */
  predicate GainsQuietly(ops: Ops, after: Ops, e: Event) {
    GainsEvent(ops, after, e) && after.journal.orders == ops.journal.orders
  }

  lemma NoteWritesExactlyWhen(ops: Ops, c: Command, w: World)
    requires Inv(ops) && c.detail.Note? && IsFree(ops, c.source)
    ensures var ((after, reply), id) := (Execute(ops, c, w), c.detail.workOrderId);
      && (reply.Wrote? <==> !w.busy && HasOrder(ops, id) && c.occurredAt <= w.now)
      && (!reply.Wrote? ==> after == ops && reply.Refused?)
      && (reply.Wrote? ==>
            var e := QuietEvent(ops, c, id, NOTE_ADDED, w);
            reply == Wrote(OnOrder(e)) && GainsQuietly(ops, after, e) && SameBesidesJournal(ops, after))
  {
    hide Inv, EventOf, MaxSequence, CreateOrder, AssignOrder, TransitionOrder, AppendEvidence, CreateRestriction;
    hide ReleaseRestriction;
    if HasOrder(ops, c.detail.workOrderId) { NextIsLast(ops, c.detail.workOrderId); }
  }

  /* ---- Evidence ---- */

  /** A file goes with attaching and superseding, and a row superseded with superseding and removing. */
  predicate RightlyShaped(d: Detail)
    requires d.Evidence?
  {
    && (d.fileId.Some? <==> d.action != Remove) && (d.sha256.Some? <==> d.action != Remove)
    && (d.supersedes.Some? <==> d.action != Attach)
  }

  /** The row superseded is there, of the same order and type, and no other row supersedes it. */
  predicate MaySupersede(rows: map<Id, EvidenceRow>, d: Detail)
    requires d.Evidence?
  {
    d.supersedes.Some? ==>
      && d.supersedes.value in rows && rows[d.supersedes.value].detail.Evidence?
      && rows[d.supersedes.value].detail.workOrderId == d.workOrderId
      && rows[d.supersedes.value].detail.evidenceType == d.evidenceType
      && forall x :: x in rows && rows[x].detail.Evidence? ==> rows[x].detail.supersedes != d.supersedes
  }

  lemma MaySupersedeMeans(rows: map<Id, EvidenceRow>, d: Detail)
    requires d.Evidence?
    ensures MaySupersede(rows, d) <==>
      (d.supersedes.Some? ==> d.supersedes.value in rows
                              && SameKind(rows[d.supersedes.value], d) && !IsSuperseded(rows, d.supersedes.value))
  {
    if d.supersedes.Some? && !IsSuperseded(rows, d.supersedes.value) {
      forall x | x in rows && rows[x].detail.Evidence?
        ensures rows[x].detail.supersedes != d.supersedes
      {
      }
    }
  }

  lemma EvidenceWritesExactlyWhen(ops: Ops, c: Command, w: World)
    requires Inv(ops) && c.detail.Evidence? && IsFree(ops, c.source)
    ensures var ((after, reply), d) := (Execute(ops, c, w), c.detail);
      && (reply.Wrote? <==>
            && !w.busy && RightlyShaped(d) && (d.fileId.Some? ==> w.rowsExist) && HasOrder(ops, d.workOrderId)
            && MaySupersede(ops.evidence, d)
            && (d.eventSequence.Some? ==> 1 <= d.eventSequence.value <= |ops.journal.logs[d.workOrderId]|)
            && c.occurredAt <= w.now && w.freshId !in ops.evidence)
      && (!reply.Wrote? ==> after == ops && reply.Refused?)
      && (reply.Wrote? ==>
            var row := EvidenceRow(w.freshId, c.source, c.actorId, d);
            var e := QuietEvent(ops, c, d.workOrderId, EVIDENCE_ATTACHED, w);
            && reply == Wrote(OnEvidence(row, e)) && GainsQuietly(ops, after, e)
            && after == ops.(journal := after.journal, evidence := ops.evidence[w.freshId := row],
                             evidenceIndex := ops.evidenceIndex[c.source := w.freshId]))
  {
    hide Inv, EventOf, MaxSequence, CreateOrder, AssignOrder, TransitionOrder, AppendNote, CreateRestriction;
    hide ReleaseRestriction, SameKind, IsSuperseded, MaySupersede;
    FreeIsUnnamed(ops, c.source);
    MaySupersedeMeans(ops.evidence, c.detail);
    if HasOrder(ops, c.detail.workOrderId) { NextIsLast(ops, c.detail.workOrderId); }
  }

  /* ---- Restrictions ---- */

  /** The event of a restriction command: one if an order is linked, none otherwise. */
  predicate LinksEvent(ops: Ops, after: Ops, c: Command, order: Option<Id>, t: EventType, w: World, e: Option<Event>) {
    if order.None? then e.None? && after.journal == ops.journal
    else
      && HasOrder(ops, order.value) && e == Some(QuietEvent(ops, c, order.value, t, w))
      && GainsQuietly(ops, after, e.value)
  }

  lemma RestrictWritesExactlyWhen(ops: Ops, c: Command, w: World)
    requires Inv(ops) && c.detail.Restrict? && IsFree(ops, c.source)
    ensures var ((after, reply), d) := (Execute(ops, c, w), c.detail);
      && (reply.Wrote? <==>
            && !w.busy && w.rowsExist && d.scopes != {} && |d.conditions| > 0
            && (d.linkedOrder.Some? ==>
                  HasOrder(ops, d.linkedOrder.value) && Known(ops, d.linkedOrder.value, w).vehicleId == d.vehicleId)
            && c.occurredAt <= w.now && w.freshId !in ops.restrictions)
      && (!reply.Wrote? ==> after == ops && reply.Refused?)
      && (reply.Wrote? ==>
            && reply.outcome.OnRestriction? && RestrictionLeft(ops, after, c, w, reply.outcome.restriction)
            && LinksEvent(ops, after, c, d.linkedOrder, RESTRICTION_CREATED, w, reply.outcome.linked))
  {
    hide Inv, EventOf, MaxSequence, CreateOrder, AssignOrder, TransitionOrder, AppendNote, AppendEvidence;
    hide ReleaseRestriction;
    var order := c.detail.linkedOrder;
    if order.Some? && HasOrder(ops, order.value) { NextIsLast(ops, order.value); }
  }

  predicate RestrictionLeft(ops: Ops, after: Ops, c: Command, w: World, r: Restriction)
    requires c.detail.Restrict?
  {
    var d := c.detail;
    && r.id == w.freshId && r.vehicleId == d.vehicleId && r.workOrderId == d.linkedOrder && r.recovery == d.recovery
    && r.scopes == d.scopes && r.conditions == d.conditions && r.startedAt == d.startedAt && r.facts == d.facts
    && r.startSource == c.source && r.createdBy == r.updatedBy == c.actorId && r.createdAt == r.updatedAt == w.now
    && r.status == Active && r.releaseSource.None? && r.releasedAt.None? && r.releasedBy.None?
    && r.releaseReason.None? && r.releaseSnapshot.None?
    && after == ops.(journal := after.journal, starts := ops.starts[c.source := w.freshId],
                     restrictions := ops.restrictions[w.freshId := RestrictionRow(r, Envelope(c, r), None)])
  }

  /** The order of the restriction, if it has one, is accepted, or its recovery goes on and the release is prepared. */
  predicate MayRelease(ops: Ops, r: Restriction, w: World) {
    r.workOrderId.Some? ==>
      && HasOrder(ops, r.workOrderId.value)
      && var h := Known(ops, r.workOrderId.value, w);
         || h.status == PendingCostConfirmation || h.status == Closed
         || (w.prepared && r.recovery && h.recovery && h.status == InProgress)
  }

  lemma ReleaseIsAcceptedExactlyWhen(ops: Ops, c: Command, w: World)
    requires c.detail.Release? && IsFree(ops, c.source)
    ensures var ((after, reply), d) := (ReleaseRestriction(ops, c, w), c.detail);
      && (reply.Wrote? <==> ReleaseAllowed(ops, c, w)) && (!reply.Wrote? ==> after == ops && reply.Refused?)
  {
    hide EventOf, MaxSequence, NonBlank, Apply, ReleasedBy;
  }

  predicate ReleaseAllowed(ops: Ops, c: Command, w: World)
    requires c.detail.Release?
  {
    var d := c.detail;
    && !w.busy && NonBlank(d.reason) && |d.snapshot| > 0 && d.targetStatus != Active
    && d.restrictionId in ops.restrictions
    && var r := ops.restrictions[d.restrictionId].current;
       r.status == Active && r.startedAt <= c.occurredAt <= w.now && MayRelease(ops, r, w)
  }

  lemma ReleaseWritesExactlyWhen(ops: Ops, c: Command, w: World)
    requires Inv(ops) && c.detail.Release? && IsFree(ops, c.source)
    ensures var ((after, reply), d) := (Execute(ops, c, w), c.detail);
      && (reply.Wrote? <==> ReleaseAllowed(ops, c, w))
      && (!reply.Wrote? ==> after == ops && reply.Refused?)
      && (reply.Wrote? ==>
            && d.restrictionId in ops.restrictions && reply.outcome.OnRestriction?
            && ReleaseLeft(ops, after, c, w, reply.outcome.restriction)
            && LinksEvent(ops, after, c, reply.outcome.restriction.workOrderId, RESTRICTION_RELEASED, w,
                          reply.outcome.linked))
  {
    hide Inv, ReleaseRestriction, ReleaseAllowed, LinksEvent, ReleaseLeft;
    ReleaseIsAcceptedExactlyWhen(ops, c, w);
    if ReleaseAllowed(ops, c, w) { ReleaseLeaves(ops, c, w); }
  }

  lemma ReleaseLeaves(ops: Ops, c: Command, w: World)
    requires Inv(ops) && c.detail.Release? && IsFree(ops, c.source) && ReleaseAllowed(ops, c, w)
    ensures var (after, reply) := ReleaseRestriction(ops, c, w);
      && c.detail.restrictionId in ops.restrictions && reply.Wrote? && reply.outcome.OnRestriction?
      && ReleaseLeft(ops, after, c, w, reply.outcome.restriction)
      && LinksEvent(ops, after, c, reply.outcome.restriction.workOrderId, RESTRICTION_RELEASED, w, reply.outcome.linked)
  {
    hide Inv, EventOf, MaxSequence, NonBlank;
    RowFacts(ops, c.detail.restrictionId);
    var order := ops.restrictions[c.detail.restrictionId].current.workOrderId;
    if order.Some? { NextIsLast(ops, order.value); }
  }

  predicate ReleaseLeft(ops: Ops, after: Ops, c: Command, w: World, r: Restriction)
    requires c.detail.Release? && c.detail.restrictionId in ops.restrictions
  {
    var d, row := c.detail, ops.restrictions[c.detail.restrictionId];
    && r == row.current.(status := d.targetStatus, releaseSource := Some(c.source), releasedAt := Some(c.occurredAt),
                         releasedBy := Some(c.actorId), releaseReason := Some(d.reason),
                         releaseSnapshot := Some(d.snapshot), updatedAt := w.now, updatedBy := c.actorId)
    && after == ops.(journal := after.journal, releases := ops.releases[c.source := d.restrictionId],
                     restrictions := ops.restrictions[
                       d.restrictionId := row.(current := r, released := Some(Envelope(c, r)))])
  }

  /* ---- Replays, whatever the tables hold ---- */

  /** The event is this very command's on this order. */
  predicate IsEventOf(e: Option<Event>, c: Command, order: Id, t: EventType) {
    e.Some? && e.value.workOrderId == order && e.value.eventType == t && e.value.command == c
  }

  /** It states no statuses. */
  predicate IsQuietEventOf(e: Option<Event>, c: Command, order: Id, t: EventType) {
    IsEventOf(e, c, order, t) && e.value.before.None? && e.value.after.None?
  }

  predicate IsLinkedEvent(e: Option<Event>, c: Command, order: Option<Id>, t: EventType) {
    match order
    case None => e.None?
    case Some(id) => IsQuietEventOf(e, c, id, t)
  }

  /** A source that has an event replays the command of that event and refuses every other, and nothing changes. */
  lemma EventsReplayExactly(ops: Ops, c: Command, w: World)
    requires !w.busy && w.rowsExist && EventOf(ops.journal, c.source).Some?
    requires c.detail.Assign? || c.detail.Transition? || c.detail.Note?
    ensures var ((after, reply), e) := (Execute(ops, c, w), EventOf(ops.journal, c.source));
      var same := match c.detail
        case Note(id, _) => IsQuietEventOf(e, c, id, NOTE_ADDED)
        case Assign(id, _, _, _, _, _) => IsEventOf(e, c, id, ASSIGNED) && e.value.before.Some?
          && e.value.after == e.value.before
        case Transition(id, _, to, _, _, _) =>
          e.value.workOrderId == id && e.value.command == c && e.value.after == Some(to) && e.value.before.Some?
          && e.value.eventType == TransitionEventType(e.value.before.value, to)
        case _ => false;
      after == ops && (if same then reply == Replayed(OnOrder(e.value)) else reply.Refused?)
  {
    hide EventOf, TransitionEventType;
  }

  lemma CreationsReplayExactly(ops: Ops, c: Command, w: World)
    requires !w.busy && w.rowsExist && c.detail.Create? && c.source in ops.created
    ensures var ((after, reply), e) := (Execute(ops, c, w), EventOf(ops.journal, c.source));
      var same := IsEventOf(e, c, ops.created[c.source], CREATED)
        && e.value.sequence == 1 && e.value.before.None? && e.value.after == Some(Pending);
      after == ops && (if same then reply == Replayed(OnOrder(e.value)) else reply.Refused?)
  {
    hide EventOf;
  }

  lemma EvidenceReplaysExactly(ops: Ops, c: Command, w: World)
    requires !w.busy && w.rowsExist && c.detail.Evidence? && c.source in ops.evidenceIndex
    requires RightlyShaped(c.detail) && HasOrder(ops, c.detail.workOrderId)
    requires c.detail.supersedes.Some? ==> c.detail.supersedes.value in ops.evidence
    ensures var ((after, reply), e) := (Execute(ops, c, w), EventOf(ops.journal, c.source));
      var id := ops.evidenceIndex[c.source];
      var same := id in ops.evidence && ops.evidence[id].source == c.source && ops.evidence[id].actorId == c.actorId
        && ops.evidence[id].detail == c.detail && IsQuietEventOf(e, c, c.detail.workOrderId, EVIDENCE_ATTACHED);
      after == ops && (if same then reply == Replayed(OnEvidence(ops.evidence[id], e.value)) else reply.Refused?)
  {
    hide EventOf, SameKind, IsSuperseded;
  }

  /** An event of this very command that has no row yet gets its row and no second event; any other is a conflict. */
  lemma LoggedEvidenceGetsItsRow(ops: Ops, c: Command, w: World)
    requires !w.busy && w.rowsExist && c.detail.Evidence? && EventOf(ops.journal, c.source).Some?
    requires c.source !in ops.evidenceIndex && c.source !in ops.starts && c.source !in ops.releases
    ensures var ((after, reply), e) := (Execute(ops, c, w), EventOf(ops.journal, c.source));
      var d, row := c.detail, EvidenceRow(w.freshId, c.source, c.actorId, c.detail);
      var accepted := RightlyShaped(d) && HasOrder(ops, d.workOrderId) && MaySupersede(ops.evidence, d)
        && (d.eventSequence.Some? ==> 1 <= d.eventSequence.value <= |ops.journal.logs[d.workOrderId]|)
        && c.occurredAt <= w.now && w.freshId !in ops.evidence
        && IsQuietEventOf(e, c, d.workOrderId, EVIDENCE_ATTACHED);
      if accepted then
        && reply == Wrote(OnEvidence(row, e.value))
        && after == ops.(evidence := ops.evidence[row.id := row],
                         evidenceIndex := ops.evidenceIndex[c.source := row.id])
      else after == ops && reply.Refused?
  {
    hide EventOf, SameKind, IsSuperseded, MaySupersede;
    MaySupersedeMeans(ops.evidence, c.detail);
  }

  lemma RestrictionsReplayExactly(ops: Ops, c: Command, w: World)
    requires !w.busy && w.rowsExist && c.detail.Restrict? && c.source in ops.starts
    requires c.detail.scopes != {} && c.detail.conditions != ""
    requires c.detail.linkedOrder.Some? ==>
      HasOrder(ops, c.detail.linkedOrder.value)
        && Known(ops, c.detail.linkedOrder.value, w).vehicleId == c.detail.vehicleId
    ensures var ((after, reply), e) := (Execute(ops, c, w), EventOf(ops.journal, c.source));
      var id, order := ops.starts[c.source], c.detail.linkedOrder;
      var same := id in ops.restrictions && ops.restrictions[id].created.command == c
        && ops.restrictions[id].created.result.id == id && ops.restrictions[id].created.result.workOrderId == order
        && IsLinkedEvent(e, c, order, RESTRICTION_CREATED);
      after == ops
      && (if same then reply == Replayed(OnRestriction(ops.restrictions[id].created.result, e)) else reply.Refused?)
  {
    hide EventOf;
  }

  lemma ReleasesReplayExactly(ops: Ops, c: Command, w: World)
    requires !w.busy && c.detail.Release? && c.source in ops.releases
    requires NonBlank(c.detail.reason) && c.detail.snapshot != "" && !c.detail.targetStatus.Active?
    ensures var ((after, reply), e) := (Execute(ops, c, w), EventOf(ops.journal, c.source));
      var id := ops.releases[c.source];
      var same := id in ops.restrictions && ops.restrictions[id].released.Some?
        && ops.restrictions[id].released.value.command == c && id == c.detail.restrictionId
        && ops.restrictions[id].released.value.result.id == id
        && IsLinkedEvent(e, c, ops.restrictions[id].current.workOrderId, RESTRICTION_RELEASED);
      after == ops
      && (if same then reply == Replayed(OnRestriction(ops.restrictions[id].released.value.result, e))
          else reply.Refused?)
  {
    hide EventOf, NonBlank;
  }

  /* ---- Lock handles ---- */

  /** A handle is taken once, of an order there is, and keeps the header as it is then. */
  lemma HandlesAreTakenExactly(s: Session, taken: nat, transaction: int, id: Id)
    ensures var after := Perform(s, Take(taken, transaction, id));
      if taken !in s.handles && id in s.ops.journal.orders && id in s.ops.journal.logs then
        && after.ops == s.ops
        && after.handles == s.handles[taken := Handle(transaction, id, s.ops.journal.orders[id])]
        && after.takenAt == s.takenAt[taken := |s.ops.journal.logs[id]|]
      else after == s
  {
  }

  /** The order a command is about. */
  predicate IsAbout(ops: Ops, c: Command, id: Id) {
    match c.detail
    case Create(_, _, _, _) => false
    case Restrict(_, linked, _, _, _, _, _) => linked == Some(id)
    case Release(r, _, _, _) => r in ops.restrictions && ops.restrictions[r].current.workOrderId == Some(id)
    case d => d.workOrderId == id
  }

  /**
   A command works with the header of its handle if the handle is unspent, of the command's transaction, and of
   the order the command is about. Every command but a creation spends its handle once it has locked its source.
   */
  lemma HandlesAreUsedExactly(s: Session, step: Step)
    requires step.Do?
    ensures var c, w, n := step.command, Given(s, step), step.handle;
      && w == step.world.(locked := w.locked)
      && (w.locked.Some? <==>
            && n.Some? && n.value in s.handles && s.handles[n.value].transaction == step.transaction
            && IsAbout(s.ops, c, s.handles[n.value].workOrderId))
      && (w.locked.Some? ==> w.locked.value == s.handles[n.value].header)
    ensures var c, w, n := step.command, Given(s, step), step.handle;
      var after := Perform(s, step);
      && after.ops == Execute(s.ops, c, w).0 && ReplyTo(s, step) == Execute(s.ops, c, w).1 && after.takenAt == s.takenAt
      && after.handles == if n.None? || c.detail.Create? || w.busy then s.handles else s.handles - {n.value}
  {
    hide Execute;
  }

  /** Nothing is there at first. */
  lemma StartsEmpty()
    ensures START.handles == map[] && START.ops.journal.orders == map[] && START.ops.journal.logs == map[]
    ensures START.ops.journal.index == map[] && START.ops.created == map[] && START.ops.evidence == map[]
    ensures START.ops.evidenceIndex == map[] && START.ops.restrictions == map[]
    ensures START.ops.starts == map[] && START.ops.releases == map[]
  {
  }
}
