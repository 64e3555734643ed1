/** The repository that executes work-order commands on the tables, row by row. */
module AssetOperationsRepository {
  import opened Wrappers
  import opened AssetTypes
  import opened WorkOrders
  import opened WorkOrderCommands

  class AssetOperationsRepository {
    var orders: map<Id, Header>
    var logs: map<Id, seq<Event>>
    var index: map<Source, Place>
    var created: map<Source, Id>
    var evidence: map<Id, EvidenceRow>
    var evidenceIndex: map<Source, Id>
    var restrictions: map<Id, RestrictionRow>
    var starts: map<Source, Id>
    var releases: map<Source, Id>
    var handles: map<nat, Handle>

    ghost function Tables(): Ops
      reads this
    {
      Ops(Journal(orders, logs, index), created, evidence, evidenceIndex, restrictions, starts, releases)
    }

    constructor ()
      ensures Tables() == EMPTY && handles == map[]
    {
      orders, logs, index, created := map[], map[], map[], map[];
      evidence, evidenceIndex, restrictions, starts, releases := map[], map[], map[], map[], map[];
      handles := map[];
    }

    /** Keeps the locked header under a new handle, as it is now. */
    method LockWorkOrder(handle: nat, transaction: int, workOrderId: Id) returns (found: bool)
      requires handle !in handles
      modifies `handles
      ensures found == HasOrder(Tables(), workOrderId)
      ensures handles == Perform(Session(Tables(), old(handles), map[]), Take(handle, transaction, workOrderId)).handles
    {
      if workOrderId !in orders || workOrderId !in logs { return false; }
      handles := handles[handle := Handle(transaction, workOrderId, orders[workOrderId])];
      return true;
    }

    /** A handle is spent by being looked at, and only then does it stand for the header it keeps. */
    method ConsumeLockedHeader(c: Command, w: World, transaction: int, handle: Option<nat>)
      returns (locked: Option<Header>)
      requires !c.detail.Create? && !w.busy
      modifies `handles
      ensures locked == HeaderIn(old(handles), Tables(), c, transaction, handle)
      ensures handles == Spend(old(handles), c, w, handle)
    {
      if handle.None? { return None; }
      if handle.value !in handles {
        assert handles - {handle.value} == handles;
        return None;
      }
      var state := handles[handle.value];
      handles := handles - {handle.value};
      var order := FindOrderNamed(c);
      if state.transaction == transaction && order == Some(state.workOrderId) { return Some(state.header); }
      return None;
    }

    /** The order whose header a command needs; a release learns it from the restriction. */
    method FindOrderNamed(c: Command) returns (order: Option<Id>)
      ensures order == OrderNamed(Tables(), c)
    {
      match c.detail
      case Create(_, _, _, _) => return None;
      case Assign(id, _, _, _, _, _) => return Some(id);
      case Transition(id, _, _, _, _, _) => return Some(id);
      case Note(id, _) => return Some(id);
      case Evidence(id, _, _, _, _, _, _, _) => return Some(id);
      case Restrict(_, linked, _, _, _, _, _) => return linked;
      case Release(id, _, _, _) =>
        if id !in restrictions { return None; }
        return restrictions[id].current.workOrderId;
    }

    /** The locked header, or else the row. */
    method LockedHeaderOrLoad(id: Id, locked: Option<Header>) returns (header: Header)
      requires id in orders
      ensures header == if locked.Some? then locked.value else orders[id]
    {
      if locked.Some? { return locked.value; }
      return orders[id];
    }

    method FindEventBySource(s: Source) returns (event: Option<Event>)
      ensures event == EventOf(Tables().journal, s)
    {
      if s !in index { return None; }
      var place := index[s];
      if place.workOrderId !in logs || place.index >= |logs[place.workOrderId]| { return None; }
      return Some(logs[place.workOrderId][place.index]);
    }

    /** Adds the next event of an order, after the largest sequence there is. */
    method AppendEventRow(
      c: Command, id: Id, eventType: EventType, before: Option<Status>, after: Option<Status>, result: Header)
      returns (event: Event)
      requires id in logs
      modifies `logs, `index
      ensures event == NextEvent(old(Tables()), c, id, eventType, before, after, result)
      ensures logs == old(logs)[id := old(logs)[id] + [event]]
      ensures index == old(index)[c.source := Place(id, |old(logs)[id]|)]
    {
      var last := 0;
      var i := 0;
      var log := logs[id];
      while i < |log|
        invariant 0 <= i <= |log| && last == MaxSequence(log[..i])
      {
        assert log[..i + 1][..i] == log[..i];
        if log[i].sequence > last { last := log[i].sequence; }
        i := i + 1;
      }
      assert log[..i] == log;
      event := Event(id, last + 1, eventType, before, after, c, result);
      index := index[c.source := Place(id, |log|)];
      logs := logs[id := log + [event]];
    }

    method CreateWorkOrder(c: Command, w: World) returns (reply: Reply)
      requires c.detail.Create?
      modifies this
      ensures (Tables(), reply) == Execute(old(Tables()), c, w)
    {
      hide EventOf;
      if w.busy { return Refused(Busy); }
      if !w.rowsExist { return Refused(AuthorityNotFound); }
      if c.source in created {
        var event := FindEventBySource(c.source);
        if event.Some? && event.value.sequence == 1 && event.value.before.None? && event.value.after == Some(Pending)
           && SameCommandEvent(event.value, c, created[c.source], CREATED) {
          return Replayed(OnOrder(event.value));
        }
        return Refused(SourceConflict);
      }
      if c.source in starts || c.source in releases { return Refused(SourceConflict); }
      if c.occurredAt > w.now { return Refused(TimeInvalid); }
      if w.freshId in orders || w.freshId in logs { return Refused(WriteConflict); }
      if c.source in index { return Refused(SourceConflict); }
      var header := NewHeader(c, w.freshId, w.number);
      orders := orders[header.id := header];
      created := created[c.source := header.id];
      var event := Event(header.id, 1, CREATED, None, Some(Pending), c, header);
      logs := logs[header.id := [event]];
      index := index[c.source := Place(header.id, 0)];
      return Wrote(OnOrder(event));
    }

    method AssignWorkOrder(c: Command, w: World, transaction: int, handle: Option<nat>) returns (reply: Reply)
      requires c.detail.Assign?
      modifies this
      ensures (Tables(), reply)
           == Execute(old(Tables()), c, w.(locked := HeaderIn(old(handles), old(Tables()), c, transaction, handle)))
      ensures handles == Spend(old(handles), c, w, handle)
    {
      hide EventOf, MaxSequence;
      var id := c.detail.workOrderId;
      if w.busy { return Refused(Busy); }
      var locked := ConsumeLockedHeader(c, w, transaction, handle);
      if !w.rowsExist { return Refused(AuthorityNotFound); }
      var replay := FindEventBySource(c.source);
      if replay.Some? {
        if replay.value.before.None? || replay.value.before != replay.value.after
           || !SameCommandEvent(replay.value, c, id, ASSIGNED) {
          return Refused(SourceConflict);
        }
        return Replayed(OnOrder(replay.value));
      }
      if c.source in starts || c.source in releases { return Refused(SourceConflict); }
      if id !in orders || id !in logs { return Refused(OrderNotFound); }
      var current := LockedHeaderOrLoad(id, locked);
      if current.version != c.detail.expectedVersion { return Refused(VersionConflict); }
      if Terminal(current.status) { return Refused(TransitionInvalid); }
      if c.occurredAt > w.now { return Refused(TimeInvalid); }
      var row := orders[id];
      if row.status != current.status || row.version != c.detail.expectedVersion { return Refused(VersionConflict); }
      var updated := row.(
        assignedUserId := Some(c.detail.userId), scheduledAt := c.detail.scheduledAt, slaDueAt := c.detail.slaDueAt,
        updatedBy := c.actorId, version := row.version + 1);
      var event := AppendEventRow(c, id, ASSIGNED, Some(current.status), Some(current.status), updated);
      orders := orders[id := updated];
      return Wrote(OnOrder(event));
    }

    /** The columns a transition sets, one after another. */
    method TransitionUpdate(row: Header, from: Status, c: Command) returns (updated: Header)
      requires c.detail.Transition? && row.status == from
      ensures updated == Transitioned(row, c)
    {
      var target := c.detail.target;
      updated := row.(status := target, updatedBy := c.actorId, version := row.version + 1);
      if from.Pending? { updated := updated.(startedAt := Some(c.occurredAt)); }
      if target.PendingCostConfirmation? { updated := updated.(acceptedAt := Some(c.occurredAt)); }
      if target.Closed? {
        updated := updated.(
          closedAt := Some(c.occurredAt), closeReason := c.detail.closeReason, solution := c.detail.solution);
        if from.PendingAcceptance? {
          updated := updated.(acceptedAt := Some(c.occurredAt));
        } else {
          updated := updated.(costConfirmedAt := Some(c.occurredAt));
        }
      }
      if target.Cancelled? {
        updated := updated.(cancelledAt := Some(c.occurredAt), closeReason := c.detail.closeReason);
      }
    }

    method TransitionWorkOrder(c: Command, w: World, transaction: int, handle: Option<nat>) returns (reply: Reply)
      requires c.detail.Transition?
      modifies this
      ensures (Tables(), reply)
           == Execute(old(Tables()), c, w.(locked := HeaderIn(old(handles), old(Tables()), c, transaction, handle)))
      ensures handles == Spend(old(handles), c, w, handle)
    {
      hide EventOf, MaxSequence, Transitioned, TransitionAllowed;
      var id, target := c.detail.workOrderId, c.detail.target;
      if w.busy { return Refused(Busy); }
      var locked := ConsumeLockedHeader(c, w, transaction, handle);
      var replay := FindEventBySource(c.source);
      if replay.Some? {
        if replay.value.before.None? || replay.value.after != Some(target)
           || !SameCommandEvent(replay.value, c, id, TransitionEventType(replay.value.before.value, target)) {
          return Refused(SourceConflict);
        }
        return Replayed(OnOrder(replay.value));
      }
      if c.source in starts || c.source in releases { return Refused(SourceConflict); }
      if id !in orders || id !in logs { return Refused(OrderNotFound); }
      var current := LockedHeaderOrLoad(id, locked);
      if current.version != c.detail.expectedVersion { return Refused(VersionConflict); }
      if !TransitionAllowed(current.status, target, current.costRequired) { return Refused(TransitionInvalid); }
      if c.occurredAt > w.now { return Refused(TimeInvalid); }
      var row := orders[id];
      if row.status != current.status || row.version != c.detail.expectedVersion { return Refused(VersionConflict); }
      var updated := TransitionUpdate(row, current.status, c);
      var eventType := TransitionEventType(current.status, target);
      var event := AppendEventRow(c, id, eventType, Some(current.status), Some(target), updated);
      orders := orders[id := updated];
      return Wrote(OnOrder(event));
    }

    method AppendOrderNote(c: Command, w: World, transaction: int, handle: Option<nat>) returns (reply: Reply)
      requires c.detail.Note?
      modifies this
      ensures (Tables(), reply)
           == Execute(old(Tables()), c, w.(locked := HeaderIn(old(handles), old(Tables()), c, transaction, handle)))
      ensures handles == Spend(old(handles), c, w, handle)
    {
      hide EventOf, MaxSequence;
      var id := c.detail.workOrderId;
      if w.busy { return Refused(Busy); }
      var locked := ConsumeLockedHeader(c, w, transaction, handle);
      var replay := FindEventBySource(c.source);
      if replay.Some? {
        if replay.value.before.Some? || replay.value.after.Some? || !SameCommandEvent(replay.value, c, id, NOTE_ADDED) {
          return Refused(SourceConflict);
        }
        return Replayed(OnOrder(replay.value));
      }
      if c.source in starts || c.source in releases { return Refused(SourceConflict); }
      if id !in orders || id !in logs { return Refused(OrderNotFound); }
      if c.occurredAt > w.now { return Refused(TimeInvalid); }
      var header := LockedHeaderOrLoad(id, locked);
      var event := AppendQuietEvent(c, id, NOTE_ADDED, header);
      return Wrote(OnOrder(event));
    }

    /** The checks of an evidence command that do not depend on a replay. */
    method CheckEvidence(c: Command, w: World) returns (problem: Option<Rejection>)
      requires c.detail.Evidence?
      ensures problem == (
        if w.busy then Some(Busy)
        else if !EvidenceShaped(c.detail) then Some(EvidenceInvalid)
        else if c.detail.fileId.Some? && !w.rowsExist then Some(AuthorityNotFound)
        else if !HasOrder(Tables(), c.detail.workOrderId) then Some(OrderNotFound)
        else if c.detail.supersedes.Some? && c.detail.supersedes.value !in evidence then Some(EvidenceNotFound)
        else None)
    {
      var d := c.detail;
      if w.busy { return Some(Busy); }
      if !EvidenceShaped(d) { return Some(EvidenceInvalid); }
      if d.fileId.Some? && !w.rowsExist { return Some(AuthorityNotFound); }
      if d.workOrderId !in orders || d.workOrderId !in logs { return Some(OrderNotFound); }
      if d.supersedes.Some? && d.supersedes.value !in evidence { return Some(EvidenceNotFound); }
      return None;
    }

    /** The checks that come after a replay: the row superseded, the linked event, the time and the new id. */
    method CheckChain(c: Command, w: World) returns (problem: Option<Rejection>)
      requires c.detail.Evidence? && HasOrder(Tables(), c.detail.workOrderId)
      requires c.detail.supersedes.Some? ==> c.detail.supersedes.value in evidence
      ensures problem == (
        if c.detail.supersedes.Some? && !SameKind(evidence[c.detail.supersedes.value], c.detail)
        then Some(EvidenceInvalid)
        else if c.detail.supersedes.Some? && IsSuperseded(evidence, c.detail.supersedes.value) then Some(ChainConflict)
        else if c.detail.eventSequence.Some? && !(1 <= c.detail.eventSequence.value <= |logs[c.detail.workOrderId]|)
        then Some(EventInvalid)
        else if c.occurredAt > w.now then Some(TimeInvalid)
        else if w.freshId in evidence then Some(WriteConflict)
        else None)
    {
      hide SameKind, IsSuperseded;
      var d := c.detail;
      if d.supersedes.Some? {
        if !SameKind(evidence[d.supersedes.value], d) { return Some(EvidenceInvalid); }
        if IsSuperseded(evidence, d.supersedes.value) { return Some(ChainConflict); }
      }
      if d.eventSequence.Some? && !(1 <= d.eventSequence.value <= |logs[d.workOrderId]|) { return Some(EventInvalid); }
      if c.occurredAt > w.now { return Some(TimeInvalid); }
      if w.freshId in evidence { return Some(WriteConflict); }
      return None;
    }

    /** What the evidence already recorded under the source answers, or the restriction that owns it. */
    method ReplayEvidence(c: Command, replay: Option<Event>) returns (reply: Option<Reply>)
      requires c.detail.Evidence?
      ensures reply == (
        if c.source in evidenceIndex then
          if evidenceIndex[c.source] in evidence && SameEvidence(evidence[evidenceIndex[c.source]], c)
             && replay.Some? && replay.value.before.None? && replay.value.after.None?
             && SameCommandEvent(replay.value, c, c.detail.workOrderId, EVIDENCE_ATTACHED)
          then Some(Replayed(OnEvidence(evidence[evidenceIndex[c.source]], replay.value)))
          else Some(Refused(SourceConflict))
        else if OwnedByRestriction(Tables(), c.source) then Some(Refused(SourceConflict))
        else None)
    {
      hide SameEvidence, SameCommandEvent;
      if c.source in evidenceIndex {
        var id := evidenceIndex[c.source];
        if id in evidence && SameEvidence(evidence[id], c)
           && replay.Some? && replay.value.before.None? && replay.value.after.None?
           && SameCommandEvent(replay.value, c, c.detail.workOrderId, EVIDENCE_ATTACHED) {
          return Some(Replayed(OnEvidence(evidence[id], replay.value)));
        }
        return Some(Refused(SourceConflict));
      }
      if c.source in starts || c.source in releases { return Some(Refused(SourceConflict)); }
      return None;
    }

    /** Inserts a row of evidence with its source, and its event unless there is one. */
    method AddEvidenceRow(c: Command, row: EvidenceRow, replay: Option<Event>, header: Header) returns (event: Event)
      requires c.detail.Evidence? && HasOrder(Tables(), c.detail.workOrderId)
      modifies this
      ensures handles == old(handles)
      ensures replay.Some? ==> event == replay.value && Tables() == old(Tables()).(
        evidence := old(evidence)[row.id := row], evidenceIndex := old(evidenceIndex)[row.source := row.id])
      ensures replay.None? ==>
        && event == NextEvent(old(Tables()), c, c.detail.workOrderId, EVIDENCE_ATTACHED, None, None, header)
        && Tables() == Apply(old(Tables()), AddEvidence(row, event))
    {
      hide MaxSequence, NextEvent, Logged;
      if replay.Some? {
        event := replay.value;
      } else {
        event := AppendQuietEvent(c, c.detail.workOrderId, EVIDENCE_ATTACHED, header);
      }
      evidence := evidence[row.id := row];
      evidenceIndex := evidenceIndex[row.source := row.id];
    }

    method AppendEvidenceRow(c: Command, w: World, transaction: int, handle: Option<nat>) returns (reply: Reply)
      requires c.detail.Evidence?
      modifies this
      ensures (Tables(), reply)
           == Execute(old(Tables()), c, w.(locked := HeaderIn(old(handles), old(Tables()), c, transaction, handle)))
      ensures handles == Spend(old(handles), c, w, handle)
    {
      hide EventOf, MaxSequence, EvidenceShaped, SameKind, IsSuperseded, SameEvidence, SameCommandEvent, HeaderIn;
      hide Apply, NextEvent;
      hide CreateOrder, AssignOrder, TransitionOrder, AppendNote, CreateRestriction, ReleaseRestriction;
      var d, id := c.detail, c.detail.workOrderId;
      if w.busy { return Refused(Busy); }
      var locked := ConsumeLockedHeader(c, w, transaction, handle);
      var problem := CheckEvidence(c, w);
      if problem.Some? { return Refused(problem.value); }
      var header := LockedHeaderOrLoad(id, locked);
      var replay := FindEventBySource(c.source);
      var recorded := ReplayEvidence(c, replay);
      if recorded.Some? { return recorded.value; }
      problem := CheckChain(c, w);
      if problem.Some? { return Refused(problem.value); }
      if replay.Some? && !(SameCommandEvent(replay.value, c, id, EVIDENCE_ATTACHED)
                           && replay.value.before.None? && replay.value.after.None?) {
        return Refused(SourceConflict);
      }
      var row := EvidenceRow(w.freshId, c.source, c.actorId, d);
      var event := AddEvidenceRow(c, row, replay, header);
      return Wrote(OnEvidence(row, event));
    }

    /** Adds an event that moves nothing. */
    method AppendQuietEvent(c: Command, id: Id, eventType: EventType, header: Header) returns (event: Event)
      requires id in logs && id in orders && !IsMove(c.detail)
      modifies `logs, `index
      ensures event == NextEvent(old(Tables()), c, id, eventType, None, None, header)
      ensures Journal(orders, logs, index) == Logged(old(Tables().journal), event)
    {
      hide MaxSequence;
      event := AppendEventRow(c, id, eventType, None, None, header);
      assert orders == orders[id := orders[id]];
    }

    /** Adds the event of a restriction command when an order is linked. */
    method AppendLinkedEvent(c: Command, order: Option<Id>, eventType: EventType, header: Option<Header>)
      returns (event: Option<Event>)
      requires order.Some? ==> header.Some? && order.value in logs && order.value in orders
      requires !IsMove(c.detail)
      modifies `logs, `index
      ensures event == QuietEvent(old(Tables()), c, order, eventType, header)
      ensures Journal(orders, logs, index) == LoggedIf(old(Tables().journal), event)
    {
      hide MaxSequence;
      if order.None? { return None; }
      var row := AppendQuietEvent(c, order.value, eventType, header.value);
      return Some(row);
    }

    method ReplayRestriction(c: Command, event: Option<Event>) returns (reply: Option<Reply>)
      requires c.detail.Restrict?
      ensures reply == (
        if c.source in starts then
          if starts[c.source] in restrictions && restrictions[starts[c.source]].created.command == c
             && restrictions[starts[c.source]].created.result.id == starts[c.source]
             && restrictions[starts[c.source]].created.result.workOrderId == c.detail.linkedOrder
             && SameRestrictionEvent(event, c, c.detail.linkedOrder, RESTRICTION_CREATED)
          then Some(Replayed(OnRestriction(restrictions[starts[c.source]].created.result, event)))
          else Some(Refused(SourceConflict))
        else if c.source in releases || event.Some? then Some(Refused(SourceConflict))
        else None)
    {
      hide SameRestrictionEvent;
      if c.source in starts {
        var id := starts[c.source];
        if id in restrictions && restrictions[id].created.command == c && restrictions[id].created.result.id == id
           && restrictions[id].created.result.workOrderId == c.detail.linkedOrder
           && SameRestrictionEvent(event, c, c.detail.linkedOrder, RESTRICTION_CREATED) {
          return Some(Replayed(OnRestriction(restrictions[id].created.result, event)));
        }
        return Some(Refused(SourceConflict));
      }
      if c.source in releases || event.Some? { return Some(Refused(SourceConflict)); }
      return None;
    }

    /** Inserts a restriction with its source and its event. */
    method AddRestrictionRow(c: Command, restriction: Restriction, header: Option<Header>)
      returns (linked: Option<Event>)
      requires c.detail.Restrict?
      requires restriction.workOrderId.Some? ==> header.Some? && HasOrder(Tables(), restriction.workOrderId.value)
      modifies this
      ensures linked == QuietEvent(old(Tables()), c, restriction.workOrderId, RESTRICTION_CREATED, header)
      ensures Tables() ==
        Apply(old(Tables()), AddRestriction(RestrictionRow(restriction, Envelope(c, restriction), None), linked))
      ensures handles == old(handles)
    {
      hide NextEvent, LoggedIf, MaxSequence;
      linked := AppendLinkedEvent(c, restriction.workOrderId, RESTRICTION_CREATED, header);
      restrictions := restrictions[restriction.id := RestrictionRow(restriction, Envelope(c, restriction), None)];
      starts := starts[c.source := restriction.id];
    }

    /** Updates a restriction to its release with the release's source and event. */
    method UpdateRestrictionRow(c: Command, row: RestrictionRow, released: Restriction, header: Option<Header>)
      returns (linked: Option<Event>)
      requires c.detail.Release?
      requires released.workOrderId.Some? ==> header.Some? && HasOrder(Tables(), released.workOrderId.value)
      modifies this
      ensures linked == QuietEvent(old(Tables()), c, released.workOrderId, RESTRICTION_RELEASED, header)
      ensures Tables() ==
        Apply(old(Tables()), EndRestriction(row.(current := released, released := Some(Envelope(c, released))), linked))
      ensures handles == old(handles)
    {
      hide NextEvent, LoggedIf, MaxSequence;
      linked := AppendLinkedEvent(c, released.workOrderId, RESTRICTION_RELEASED, header);
      restrictions := restrictions[released.id := RestrictionRow(released, row.created, Some(Envelope(c, released)))];
      releases := releases[c.source := released.id];
    }

    method CreateRestrictionRow(c: Command, w: World, transaction: int, handle: Option<nat>) returns (reply: Reply)
      requires c.detail.Restrict?
      modifies this
      ensures (Tables(), reply)
           == Execute(old(Tables()), c, w.(locked := HeaderIn(old(handles), old(Tables()), c, transaction, handle)))
      ensures handles == Spend(old(handles), c, w, handle)
    {
      hide EventOf, MaxSequence, LoggedIf, SameRestrictionEvent, HeaderIn, Apply, NextEvent;
      hide CreateOrder, AssignOrder, TransitionOrder, AppendNote, AppendEvidence, ReleaseRestriction;
      var d := c.detail;
      if w.busy { return Refused(Busy); }
      var locked := ConsumeLockedHeader(c, w, transaction, handle);
      if d.scopes == {} || d.conditions == "" || !w.rowsExist { return Refused(RestrictionInvalid); }
      var header: Option<Header> := None;
      if d.linkedOrder.Some? {
        if d.linkedOrder.value !in orders || d.linkedOrder.value !in logs { return Refused(OrderNotFound); }
        var loaded := LockedHeaderOrLoad(d.linkedOrder.value, locked);
        header := Some(loaded);
        if loaded.vehicleId != d.vehicleId { return Refused(RestrictionInvalid); }
      }
      var event := FindEventBySource(c.source);
      var recorded := ReplayRestriction(c, event);
      if recorded.Some? { return recorded.value; }
      if c.occurredAt > w.now { return Refused(TimeInvalid); }
      if w.freshId in restrictions { return Refused(WriteConflict); }
      var restriction := NewRestriction(c, w.freshId, w.now);
      var linked := AddRestrictionRow(c, restriction, header);
      return Wrote(OnRestriction(restriction, linked));
    }

    method ReplayRelease(c: Command, event: Option<Event>) returns (reply: Option<Reply>)
      requires c.detail.Release?
      ensures reply == (
        if c.source in releases then
          if releases[c.source] in restrictions && restrictions[releases[c.source]].released.Some?
             && restrictions[releases[c.source]].released.value.command == c
             && restrictions[releases[c.source]].released.value.result.id == c.detail.restrictionId
                == releases[c.source]
             && SameRestrictionEvent(event, c, restrictions[releases[c.source]].current.workOrderId,
                                     RESTRICTION_RELEASED)
          then Some(Replayed(OnRestriction(restrictions[releases[c.source]].released.value.result, event)))
          else Some(Refused(SourceConflict))
        else if c.source in starts || event.Some? then Some(Refused(SourceConflict))
        else None)
    {
      hide SameRestrictionEvent;
      if c.source in releases {
        var id := releases[c.source];
        if id in restrictions && restrictions[id].released.Some? && restrictions[id].released.value.command == c
           && restrictions[id].released.value.result.id == c.detail.restrictionId == id
           && SameRestrictionEvent(event, c, restrictions[id].current.workOrderId, RESTRICTION_RELEASED) {
          return Some(Replayed(OnRestriction(restrictions[id].released.value.result, event)));
        }
        return Some(Refused(SourceConflict));
      }
      if c.source in starts || event.Some? { return Some(Refused(SourceConflict)); }
      return None;
    }

    method ReleaseRestrictionRow(c: Command, w: World, transaction: int, handle: Option<nat>) returns (reply: Reply)
      requires c.detail.Release?
      modifies this
      ensures (Tables(), reply)
           == Execute(old(Tables()), c, w.(locked := HeaderIn(old(handles), old(Tables()), c, transaction, handle)))
      ensures handles == Spend(old(handles), c, w, handle)
    {
      hide EventOf, MaxSequence, LoggedIf, SameRestrictionEvent, NonBlank, ReleasableFor, ReleasedBy, HeaderIn, Apply;
      hide NextEvent;
      hide CreateOrder, AssignOrder, TransitionOrder, AppendNote, AppendEvidence, CreateRestriction;
      var d := c.detail;
      if w.busy { return Refused(Busy); }
      var locked := ConsumeLockedHeader(c, w, transaction, handle);
      if !NonBlank(d.reason) || d.snapshot == "" || d.targetStatus.Active? { return Refused(ReleaseInvalid); }
      var event := FindEventBySource(c.source);
      var recorded := ReplayRelease(c, event);
      if recorded.Some? { return recorded.value; }
      if d.restrictionId !in restrictions { return Refused(RestrictionNotFound); }
      var row := restrictions[d.restrictionId];
      var current := row.current;
      var order := current.workOrderId;
      var header: Option<Header> := None;
      if order.Some? {
        if order.value !in orders || order.value !in logs { return Refused(OrderNotFound); }
        var loaded := LockedHeaderOrLoad(order.value, locked);
        header := Some(loaded);
      }
      if !current.status.Active? { return Refused(ReleaseConflict); }
      if c.occurredAt > w.now { return Refused(TimeInvalid); }
      if c.occurredAt < current.startedAt { return Refused(RestrictionInvalid); }
      if order.Some? && !ReleasableFor(header.value, current, w.prepared) { return Refused(OrderNotAccepted); }
      var released := ReleasedBy(current, c, w.now);
      assert released.workOrderId == order by { ReleaseKeepsOrder(current, c, w.now); }
      var linked := UpdateRestrictionRow(c, row, released, header);
      return Wrote(OnRestriction(released, linked));
    }
  }

  /** The event of a restriction command, if an order is linked. */
  function QuietEvent(
    ops: Ops, c: Command, order: Option<Id>, eventType: EventType, header: Option<Header>): Option<Event>
    requires order.Some? ==> header.Some? && order.value in ops.journal.logs
  {
    if order.None? then None else Some(NextEvent(ops, c, order.value, eventType, None, None, header.value))
  }

  lemma ReleaseKeepsOrder(r: Restriction, c: Command, now: Moment)
    requires c.detail.Release?
    ensures ReleasedBy(r, c, now).workOrderId == r.workOrderId
  {
  }
}
