/**
 The work-order, evidence and restriction commands on their tables. A stable source names at
 most one command of any kind; executing that command again returns what it returned at first.
 */
module WorkOrderCommands {
  import opened Wrappers
  import opened AssetTypes
  import opened WorkOrders

  datatype EvidenceRow = EvidenceRow(id: Id, source: Source, actorId: Id, detail: Detail)

  datatype Restriction = Restriction(
    id: Id, vehicleId: Id, workOrderId: Option<Id>, recovery: bool, scopes: set<string>, conditions: string,
    startedAt: Moment, facts: string, startSource: Source, createdBy: Id, createdAt: Moment,
    status: RestrictionStatus, releaseSource: Option<Source>, releasedAt: Option<Moment>, releasedBy: Option<Id>,
    releaseReason: Option<string>, releaseSnapshot: Option<string>, updatedAt: Moment, updatedBy: Id)

  /** The command kept with a restriction and the restriction as that command left it. */
  datatype Envelope = Envelope(command: Command, result: Restriction)

  datatype RestrictionRow = RestrictionRow(current: Restriction, created: Envelope, released: Option<Envelope>)

  /** The tables and their unique indexes on sources. */
  datatype Ops = Ops(
    journal: Journal, created: map<Source, Id>,
    evidence: map<Id, EvidenceRow>, evidenceIndex: map<Source, Id>,
    restrictions: map<Id, RestrictionRow>, starts: map<Source, Id>, releases: map<Source, Id>)

  const EMPTY := Ops(Journal(map[], map[], map[]), map[], map[], map[], map[], map[], map[])

  /**
   What is given besides: row locks, rows of other tables, the clock, random ids, and the header kept
   in the lock handle the command was passed, if that stands for the order the command is about.
   */
  datatype World = World(
    busy: bool, rowsExist: bool, prepared: bool, now: Moment, freshId: Id, number: string, locked: Option<Header>)

  datatype Rejection =
    | Busy | SourceConflict | AuthorityNotFound | OrderNotFound | VersionConflict | TransitionInvalid | TimeInvalid
    | WriteConflict | EvidenceInvalid | EvidenceNotFound | ChainConflict | EventInvalid
    | RestrictionInvalid | RestrictionNotFound | ReleaseInvalid | ReleaseConflict | OrderNotAccepted

  /** The work order of an outcome is the one stored with its event. */
  datatype Outcome =
    | OnOrder(event: Event)
    | OnEvidence(row: EvidenceRow, event: Event)
    | OnRestriction(restriction: Restriction, linked: Option<Event>)

  datatype Reply = Wrote(outcome: Outcome) | Replayed(outcome: Outcome) | Refused(rejection: Rejection)

  predicate OwnedByRestriction(ops: Ops, s: Source) { s in ops.starts || s in ops.releases }

  /** The event stands for this very command on this order. */
  predicate SameCommandEvent(e: Event, c: Command, order: Id, eventType: EventType) {
    e.workOrderId == order && e.eventType == eventType && e.command == c
  }

  /** The next event of an order, leaving the header as `h`. */
  function NextEvent(
    ops: Ops, c: Command, order: Id, eventType: EventType, before: Option<Status>, after: Option<Status>,
    h: Header): Event
    requires order in ops.journal.logs
  {
    Event(order, MaxSequence(ops.journal.logs[order]) + 1, eventType, before, after, c, h)
  }

  predicate HasOrder(ops: Ops, id: Id) { id in ops.journal.orders && id in ops.journal.logs }

  /** The header a command works with: the one in its handle as it was read then, or else the row. */
  function HeaderFor(ops: Ops, id: Id, w: World): Header
    requires HasOrder(ops, id)
  {
    if w.locked.Some? then w.locked.value else ops.journal.orders[id]
  }

  /** The row is still as the header says, as far as the update looks. */
  predicate StillAs(row: Header, h: Header) { row.status == h.status && row.version == h.version }

  /* ---- Orders ---- */

  function CreateOrder(ops: Ops, c: Command, w: World): (Ops, Reply)
    requires c.detail.Create?
  {
    if w.busy then (ops, Refused(Busy))
    else if !w.rowsExist then (ops, Refused(AuthorityNotFound))
    else if c.source in ops.created then
      var e := EventOf(ops.journal, c.source);
      if e.Some? && e.value.sequence == 1 && e.value.before.None? && e.value.after == Some(Pending)
         && SameCommandEvent(e.value, c, ops.created[c.source], CREATED)
      then (ops, Replayed(OnOrder(e.value)))
      else (ops, Refused(SourceConflict))
    else if OwnedByRestriction(ops, c.source) then (ops, Refused(SourceConflict))
    else if c.occurredAt > w.now then (ops, Refused(TimeInvalid))
    else if w.freshId in ops.journal.orders || w.freshId in ops.journal.logs then (ops, Refused(WriteConflict))
    else if c.source in ops.journal.index then (ops, Refused(SourceConflict))
    else
      var e := Event(w.freshId, 1, CREATED, None, Some(Pending), c, NewHeader(c, w.freshId, w.number));
      (Apply(ops, Open(e)), Wrote(OnOrder(e)))
  }

  function AssignOrder(ops: Ops, c: Command, w: World): (Ops, Reply)
    requires c.detail.Assign?
  {
    var id, replay := c.detail.workOrderId, EventOf(ops.journal, c.source);
    if w.busy then (ops, Refused(Busy))
    else if !w.rowsExist then (ops, Refused(AuthorityNotFound))
    else if replay.Some? then
      if replay.value.before.Some? && replay.value.before == replay.value.after
         && SameCommandEvent(replay.value, c, id, ASSIGNED)
      then (ops, Replayed(OnOrder(replay.value)))
      else (ops, Refused(SourceConflict))
    else if OwnedByRestriction(ops, c.source) then (ops, Refused(SourceConflict))
    else if !HasOrder(ops, id) then (ops, Refused(OrderNotFound))
    else
      var row, h := ops.journal.orders[id], HeaderFor(ops, id, w);
      if h.version != c.detail.expectedVersion then (ops, Refused(VersionConflict))
      else if Terminal(h.status) then (ops, Refused(TransitionInvalid))
      else if c.occurredAt > w.now then (ops, Refused(TimeInvalid))
      else if !StillAs(row, h) then (ops, Refused(VersionConflict))
      else
        var e := NextEvent(ops, c, id, ASSIGNED, Some(h.status), Some(h.status), AssignedTo(row, c));
        (Apply(ops, Extend(e)), Wrote(OnOrder(e)))
  }

  function TransitionOrder(ops: Ops, c: Command, w: World): (Ops, Reply)
    requires c.detail.Transition?
  {
    var id, to, replay := c.detail.workOrderId, c.detail.target, EventOf(ops.journal, c.source);
    if w.busy then (ops, Refused(Busy))
    else if replay.Some? then
      if replay.value.before.Some? && replay.value.after == Some(to)
         && SameCommandEvent(replay.value, c, id, TransitionEventType(replay.value.before.value, to))
      then (ops, Replayed(OnOrder(replay.value)))
      else (ops, Refused(SourceConflict))
    else if OwnedByRestriction(ops, c.source) then (ops, Refused(SourceConflict))
    else if !HasOrder(ops, id) then (ops, Refused(OrderNotFound))
    else
      var row, h := ops.journal.orders[id], HeaderFor(ops, id, w);
      if h.version != c.detail.expectedVersion then (ops, Refused(VersionConflict))
      else if !TransitionAllowed(h.status, to, h.costRequired) then (ops, Refused(TransitionInvalid))
      else if c.occurredAt > w.now then (ops, Refused(TimeInvalid))
      else if !StillAs(row, h) then (ops, Refused(VersionConflict))
      else
        var e := NextEvent(ops, c, id, TransitionEventType(h.status, to), Some(h.status), Some(to),
                           Transitioned(row, c));
        (Apply(ops, Extend(e)), Wrote(OnOrder(e)))
  }

  function AppendNote(ops: Ops, c: Command, w: World): (Ops, Reply)
    requires c.detail.Note?
  {
    var id, replay := c.detail.workOrderId, EventOf(ops.journal, c.source);
    if w.busy then (ops, Refused(Busy))
    else if replay.Some? then
      if replay.value.before.None? && replay.value.after.None? && SameCommandEvent(replay.value, c, id, NOTE_ADDED)
      then (ops, Replayed(OnOrder(replay.value)))
      else (ops, Refused(SourceConflict))
    else if OwnedByRestriction(ops, c.source) then (ops, Refused(SourceConflict))
    else if !HasOrder(ops, id) then (ops, Refused(OrderNotFound))
    else if c.occurredAt > w.now then (ops, Refused(TimeInvalid))
    else
      var e := NextEvent(ops, c, id, NOTE_ADDED, None, None, HeaderFor(ops, id, w));
      (Apply(ops, Extend(e)), Wrote(OnOrder(e)))
  }

  /* ---- Evidence ---- */

  predicate EvidenceShaped(d: Detail)
    requires d.Evidence?
  {
    match d.action
    case Attach => d.fileId.Some? && d.sha256.Some? && d.supersedes.None?
    case Supersede => d.fileId.Some? && d.sha256.Some? && d.supersedes.Some?
    case Remove => d.fileId.None? && d.sha256.None? && d.supersedes.Some?
  }

  predicate IsSuperseded(evidence: map<Id, EvidenceRow>, id: Id) {
    exists s :: s in evidence && evidence[s].detail.Evidence? && evidence[s].detail.supersedes == Some(id)
  }

  predicate SameKind(row: EvidenceRow, d: Detail)
    requires d.Evidence?
  {
    row.detail.Evidence? && row.detail.workOrderId == d.workOrderId && row.detail.evidenceType == d.evidenceType
  }

  predicate SameEvidence(row: EvidenceRow, c: Command) {
    row.source == c.source && row.actorId == c.actorId && row.detail == c.detail
  }

  function AppendEvidence(ops: Ops, c: Command, w: World): (Ops, Reply)
    requires c.detail.Evidence?
  {
    var d, id, replay := c.detail, c.detail.workOrderId, EventOf(ops.journal, c.source);
    if w.busy then (ops, Refused(Busy))
    else if !EvidenceShaped(d) then (ops, Refused(EvidenceInvalid))
    else if d.fileId.Some? && !w.rowsExist then (ops, Refused(AuthorityNotFound))
    else if !HasOrder(ops, id) then (ops, Refused(OrderNotFound))
    else if d.supersedes.Some? && d.supersedes.value !in ops.evidence then (ops, Refused(EvidenceNotFound))
    else if c.source in ops.evidenceIndex then
      if ops.evidenceIndex[c.source] in ops.evidence && SameEvidence(ops.evidence[ops.evidenceIndex[c.source]], c)
         && replay.Some? && replay.value.before.None? && replay.value.after.None?
         && SameCommandEvent(replay.value, c, id, EVIDENCE_ATTACHED)
      then (ops, Replayed(OnEvidence(ops.evidence[ops.evidenceIndex[c.source]], replay.value)))
      else (ops, Refused(SourceConflict))
    else if OwnedByRestriction(ops, c.source) then (ops, Refused(SourceConflict))
    else if d.supersedes.Some? && !SameKind(ops.evidence[d.supersedes.value], d) then (ops, Refused(EvidenceInvalid))
    else if d.supersedes.Some? && IsSuperseded(ops.evidence, d.supersedes.value) then (ops, Refused(ChainConflict))
    else if d.eventSequence.Some? && !(1 <= d.eventSequence.value <= |ops.journal.logs[id]|)
    then (ops, Refused(EventInvalid))
    else if c.occurredAt > w.now then (ops, Refused(TimeInvalid))
    else if w.freshId in ops.evidence then (ops, Refused(WriteConflict))
    else
      var row := EvidenceRow(w.freshId, c.source, c.actorId, d);
      if replay.Some? then
        if SameCommandEvent(replay.value, c, id, EVIDENCE_ATTACHED)
           && replay.value.before.None? && replay.value.after.None?
        then (ops.(evidence := ops.evidence[row.id := row], evidenceIndex := ops.evidenceIndex[row.source := row.id]),
              Wrote(OnEvidence(row, replay.value)))
        else (ops, Refused(SourceConflict))
      else
        var e := NextEvent(ops, c, id, EVIDENCE_ATTACHED, None, None, HeaderFor(ops, id, w));
        (Apply(ops, AddEvidence(row, e)), Wrote(OnEvidence(row, e)))
  }

  /* ---- Restrictions ---- */

  function NewRestriction(c: Command, id: Id, now: Moment): Restriction
    requires c.detail.Restrict?
  {
    var d := c.detail;
    Restriction(id, d.vehicleId, d.linkedOrder, d.recovery, d.scopes, d.conditions, d.startedAt, d.facts, c.source,
                c.actorId, now, Active, None, None, None, None, None, now, c.actorId)
  }

  /** The event that belongs to a restriction command, when an order is linked. */
  predicate SameRestrictionEvent(e: Option<Event>, c: Command, order: Option<Id>, eventType: EventType) {
    if order.None? then e.None?
    else e.Some? && e.value.before.None? && e.value.after.None? && SameCommandEvent(e.value, c, order.value, eventType)
  }

  function CreateRestriction(ops: Ops, c: Command, w: World): (Ops, Reply)
    requires c.detail.Restrict?
  {
    var d, event := c.detail, EventOf(ops.journal, c.source);
    if w.busy then (ops, Refused(Busy))
    else if d.scopes == {} || d.conditions == "" then (ops, Refused(RestrictionInvalid))
    else if !w.rowsExist then (ops, Refused(RestrictionInvalid))
    else if d.linkedOrder.Some? && !HasOrder(ops, d.linkedOrder.value) then (ops, Refused(OrderNotFound))
    else if d.linkedOrder.Some? && HeaderFor(ops, d.linkedOrder.value, w).vehicleId != d.vehicleId
    then (ops, Refused(RestrictionInvalid))
    else if c.source in ops.starts then
      if ops.starts[c.source] in ops.restrictions && ops.restrictions[ops.starts[c.source]].created.command == c
         && ops.restrictions[ops.starts[c.source]].created.result.id == ops.starts[c.source]
         && ops.restrictions[ops.starts[c.source]].created.result.workOrderId == d.linkedOrder
         && SameRestrictionEvent(event, c, d.linkedOrder, RESTRICTION_CREATED)
      then (ops, Replayed(OnRestriction(ops.restrictions[ops.starts[c.source]].created.result, event)))
      else (ops, Refused(SourceConflict))
    else if c.source in ops.releases || event.Some? then (ops, Refused(SourceConflict))
    else if c.occurredAt > w.now then (ops, Refused(TimeInvalid))
    else if w.freshId in ops.restrictions then (ops, Refused(WriteConflict))
    else
      var r := NewRestriction(c, w.freshId, w.now);
      var row := RestrictionRow(r, Envelope(c, r), None);
      var e := if d.linkedOrder.None? then None
               else Some(NextEvent(ops, c, d.linkedOrder.value, RESTRICTION_CREATED, None, None,
                                   HeaderFor(ops, d.linkedOrder.value, w)));
      (Apply(ops, AddRestriction(row, e)), Wrote(OnRestriction(r, e)))
  }

  function ReleasedBy(r: Restriction, c: Command, now: Moment): Restriction
    requires c.detail.Release?
  {
    r.(status := c.detail.targetStatus, releaseSource := Some(c.source), releasedAt := Some(c.occurredAt),
       releasedBy := Some(c.actorId), releaseReason := Some(c.detail.reason),
       releaseSnapshot := Some(c.detail.snapshot),
       updatedAt := now, updatedBy := c.actorId)
  }

  /** An order must be accepted before its restrictions are released, but for a prepared recovery. */
  predicate ReleasableFor(h: Header, r: Restriction, prepared: bool) {
    || h.status.PendingCostConfirmation? || h.status.Closed?
    || (prepared && r.recovery && h.recovery && h.status.InProgress?)
  }

  function ReleaseRestriction(ops: Ops, c: Command, w: World): (Ops, Reply)
    requires c.detail.Release?
  {
    var d, event := c.detail, EventOf(ops.journal, c.source);
    if w.busy then (ops, Refused(Busy))
    else if !NonBlank(d.reason) || d.snapshot == "" || d.targetStatus.Active? then (ops, Refused(ReleaseInvalid))
    else if c.source in ops.releases then
      if ops.releases[c.source] in ops.restrictions && ops.restrictions[ops.releases[c.source]].released.Some?
         && ops.restrictions[ops.releases[c.source]].released.value.command == c
         && ops.restrictions[ops.releases[c.source]].released.value.result.id == d.restrictionId
            == ops.releases[c.source]
         && SameRestrictionEvent(event, c, ops.restrictions[ops.releases[c.source]].current.workOrderId,
                                 RESTRICTION_RELEASED)
      then (ops, Replayed(OnRestriction(ops.restrictions[ops.releases[c.source]].released.value.result, event)))
      else (ops, Refused(SourceConflict))
    else if c.source in ops.starts || event.Some? then (ops, Refused(SourceConflict))
    else if d.restrictionId !in ops.restrictions then (ops, Refused(RestrictionNotFound))
    else
      var row := ops.restrictions[d.restrictionId];
      var r := row.current;
      if r.workOrderId.Some? && !HasOrder(ops, r.workOrderId.value) then (ops, Refused(OrderNotFound))
      else if !r.status.Active? then (ops, Refused(ReleaseConflict))
      else if c.occurredAt > w.now then (ops, Refused(TimeInvalid))
      else if c.occurredAt < r.startedAt then (ops, Refused(RestrictionInvalid))
      else if r.workOrderId.Some? && !ReleasableFor(HeaderFor(ops, r.workOrderId.value, w), r, w.prepared)
      then (ops, Refused(OrderNotAccepted))
      else
        var released := ReleasedBy(r, c, w.now);
        var e := if r.workOrderId.None? then None
                 else Some(NextEvent(ops, c, r.workOrderId.value, RESTRICTION_RELEASED, None, None,
                                     HeaderFor(ops, r.workOrderId.value, w)));
        (Apply(ops, EndRestriction(row.(current := released, released := Some(Envelope(c, released))), e)),
         Wrote(OnRestriction(released, e)))
  }

  function Execute(ops: Ops, c: Command, w: World): (Ops, Reply) {
    match c.detail
    case Create(_, _, _, _) => CreateOrder(ops, c, w)
    case Assign(_, _, _, _, _, _) => AssignOrder(ops, c, w)
    case Transition(_, _, _, _, _, _) => TransitionOrder(ops, c, w)
    case Note(_, _) => AppendNote(ops, c, w)
    case Evidence(_, _, _, _, _, _, _, _) => AppendEvidence(ops, c, w)
    case Restrict(_, _, _, _, _, _, _) => CreateRestriction(ops, c, w)
    case Release(_, _, _, _) => ReleaseRestriction(ops, c, w)
  }

  /* ---- Lock handles and runs ---- */

  /** A transaction, the order it has locked for update, and the header it read then, which is kept as it was. */
  datatype Handle = Handle(transaction: int, workOrderId: Id, header: Header)

  /** The order a command is about, where it accepts a handle. */
  function OrderNamed(ops: Ops, c: Command): Option<Id> {
    match c.detail
    case Create(_, _, _, _) => None
    case Assign(id, _, _, _, _, _) => Some(id)
    case Transition(id, _, _, _, _, _) => Some(id)
    case Note(id, _) => Some(id)
    case Evidence(id, _, _, _, _, _, _, _) => Some(id)
    case Restrict(_, linked, _, _, _, _, _) => linked
    case Release(id, _, _, _) => if id in ops.restrictions then ops.restrictions[id].current.workOrderId else None
  }

  type Handles = map<nat, Handle>

  /** A handle stands for its header in its own transaction and for its own order only. */
  function HeaderIn(handles: Handles, ops: Ops, c: Command, transaction: int, handle: Option<nat>): Option<Header> {
    if handle.Some? && handle.value in handles && handles[handle.value].transaction == transaction
       && OrderNamed(ops, c) == Some(handles[handle.value].workOrderId)
    then Some(handles[handle.value].header)
    else None
  }

  /** A handle is spent by the first command it is passed to, once that has locked its source. */
  function Spend(handles: Handles, c: Command, w: World, handle: Option<nat>): Handles {
    if c.detail.Create? || w.busy || handle.None? then handles else handles - {handle.value}
  }

  datatype Step =
    | Take(taken: nat, transaction: int, workOrderId: Id)
    | Do(command: Command, world: World, transaction: int, handle: Option<nat>)

  /** The tables, the unspent handles, and how many events the order of each had when it was taken. */
  datatype Session = Session(ops: Ops, handles: Handles, takenAt: map<nat, nat>)

  const START := Session(EMPTY, map[], map[])

  /** What the command of a step is given. */
  function Given(s: Session, step: Step): World
    requires step.Do?
  {
    step.world.(locked := HeaderIn(s.handles, s.ops, step.command, step.transaction, step.handle))
  }

  function ReplyTo(s: Session, step: Step): Reply
    requires step.Do?
  {
    Execute(s.ops, step.command, Given(s, step)).1
  }

  function Perform(s: Session, step: Step): Session {
    match step
    case Take(taken, transaction, id) =>
      if taken in s.handles || !HasOrder(s.ops, id) then s
      else
        s.(handles := s.handles[taken := Handle(transaction, id, s.ops.journal.orders[id])],
           takenAt := s.takenAt[taken := |s.ops.journal.logs[id]|])
    case Do(c, w, _, handle) =>
      s.(ops := Execute(s.ops, c, Given(s, step)).0, handles := Spend(s.handles, c, w, handle))
  }

  function Run(s: Session, steps: seq<Step>): Session
    decreases |steps|
  {
    if steps == [] then s else Run(Perform(s, steps[0]), steps[1..])
  }

  /* ---- The changes commands make ---- */

  datatype Change =
    | Open(event: Event)
    | Extend(event: Event)
    | AddEvidence(row: EvidenceRow, event: Event)
    | AddRestriction(restriction: RestrictionRow, linked: Option<Event>)
    | EndRestriction(restriction: RestrictionRow, linked: Option<Event>)

  function Logged(j: Journal, e: Event): Journal {
    if e.workOrderId in j.logs && e.workOrderId in j.orders then Appended(j, e) else j
  }

  function LoggedIf(j: Journal, e: Option<Event>): Journal {
    if e.Some? then Logged(j, e.value) else j
  }

  function Apply(ops: Ops, change: Change): Ops {
    match change
    case Open(e) => ops.(journal := Opened(ops.journal, e), created := ops.created[e.command.source := e.workOrderId])
    case Extend(e) => ops.(journal := Logged(ops.journal, e))
    case AddEvidence(row, e) =>
      ops.(journal := Logged(ops.journal, e), evidence := ops.evidence[row.id := row],
           evidenceIndex := ops.evidenceIndex[row.source := row.id])
    case AddRestriction(row, e) =>
      ops.(journal := LoggedIf(ops.journal, e), restrictions := ops.restrictions[row.current.id := row],
           starts := ops.starts[row.created.command.source := row.current.id])
    case EndRestriction(row, e) =>
      ops.(journal := LoggedIf(ops.journal, e), restrictions := ops.restrictions[row.current.id := row],
           releases := if row.released.Some? then ops.releases[row.released.value.command.source := row.current.id]
                       else ops.releases)
  }

  /** The event may be added to its log, under a source that names nothing yet. */
  ghost predicate Loggable(ops: Ops, e: Event) {
    && e.workOrderId in ops.journal.logs && e.workOrderId in ops.journal.orders
    && Continues(ops.journal.orders[e.workOrderId], e)
    && e.sequence == |ops.journal.logs[e.workOrderId]| + 1
    && Unnamed(ops, e.command.source)
  }

  ghost predicate Unnamed(ops: Ops, s: Source) { s !in ops.journal.index && s !in ops.starts && s !in ops.releases }

  ghost predicate ChangeOk(ops: Ops, change: Change) {
    match change
    case Open(e) => OpensLog(e) && e.workOrderId !in ops.journal.logs && Unnamed(ops, e.command.source)
    case Extend(e) =>
      Loggable(ops, e) && (e.command.detail.Assign? || e.command.detail.Transition? || e.command.detail.Note?)
    case AddEvidence(row, e) =>
      && Loggable(ops, e) && e.command.detail.Evidence? && EvidenceShaped(e.command.detail)
      && row.id !in ops.evidence && SameEvidence(row, e.command)
      && (row.detail.supersedes.Some? ==>
            && row.detail.supersedes.value in ops.evidence
            && SameKind(ops.evidence[row.detail.supersedes.value], row.detail)
            && !IsSuperseded(ops.evidence, row.detail.supersedes.value))
    case AddRestriction(row, e) =>
      && row.current.id !in ops.restrictions && row.released.None? && row.created.result == row.current
      && row.created.command.detail.Restrict? && row.current.status.Active?
      && row.current == NewRestriction(row.created.command, row.current.id, row.current.createdAt)
      && row.created.command.detail.scopes != {} && row.created.command.detail.conditions != ""
      && Unnamed(ops, row.created.command.source)
      && LinkedOk(ops, row.created.command, row.current.workOrderId, e)
      && (row.current.workOrderId.Some? ==>
            ops.journal.orders[row.current.workOrderId.value].vehicleId == row.current.vehicleId)
    case EndRestriction(row, e) =>
      && row.current.id in ops.restrictions && ops.restrictions[row.current.id].released.None?
      && row.created == ops.restrictions[row.current.id].created
      && row.released.Some? && row.released.value.result == row.current && row.released.value.command.detail.Release?
      && row.released.value.command.detail.restrictionId == row.current.id
      && row.current.workOrderId == ops.restrictions[row.current.id].current.workOrderId
      && !row.current.status.Active?
      && NonBlank(row.released.value.command.detail.reason) && row.released.value.command.detail.snapshot != ""
      && !row.released.value.command.detail.targetStatus.Active?
      && Unnamed(ops, row.released.value.command.source)
      && LinkedOk(ops, row.released.value.command, row.current.workOrderId, e)
  }

  /** A restriction command logs an event exactly when an order is linked, on that order. */
  ghost predicate LinkedOk(ops: Ops, c: Command, order: Option<Id>, e: Option<Event>) {
    if order.None? then e.None?
    else e.Some? && e.value.command == c && e.value.workOrderId == order.value && Loggable(ops, e.value)
  }
}
