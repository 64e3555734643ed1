/**
 Work-order headers and their event log. A header changes only together with an event. Each
 event carries the command that caused it and a header: the one an assignment or transition
 leaves, or the one any other command held when it was executed.
 */
module WorkOrders {
  import opened Wrappers
  import opened AssetTypes

  datatype Status =
    | Pending | InProgress | WaitingExternal | PendingAcceptance | PendingCostConfirmation | Closed | Cancelled

  predicate Terminal(s: Status) { s.Closed? || s.Cancelled? }

  function Targets(from: Status): set<Status> {
    match from
    case Pending => {InProgress, Cancelled}
    case InProgress => {WaitingExternal, PendingAcceptance, Cancelled}
    case WaitingExternal => {InProgress, Cancelled}
    case PendingAcceptance => {InProgress, PendingCostConfirmation, Closed, Cancelled}
    case PendingCostConfirmation => {InProgress, Closed, Cancelled}
    case Closed => {}
    case Cancelled => {}
  }

  /** Acceptance closes an order directly exactly when no cost confirmation is required. */
  predicate TransitionAllowed(from: Status, target: Status, costRequired: bool) {
    && target in Targets(from)
    && !(from.PendingAcceptance? && target.Closed? && costRequired)
    && !(from.PendingAcceptance? && target.PendingCostConfirmation? && !costRequired)
  }

  datatype EventType =
    | CREATED | ASSIGNED | STARTED | RESUMED | WAITING_EXTERNAL | SUBMITTED_FOR_ACCEPTANCE | ACCEPTED
    | COST_CONFIRMED | CLOSED | CANCELLED | NOTE_ADDED | EVIDENCE_ATTACHED | RESTRICTION_CREATED | RESTRICTION_RELEASED

  function TransitionEventType(from: Status, to: Status): EventType {
    if to.Cancelled? then CANCELLED
    else if to.WaitingExternal? then WAITING_EXTERNAL
    else if to.PendingAcceptance? then SUBMITTED_FOR_ACCEPTANCE
    else if to.PendingCostConfirmation? then ACCEPTED
    else if to.Closed? then if from.PendingCostConfirmation? then COST_CONFIRMED else CLOSED
    else if from.Pending? then STARTED
    else RESUMED
  }

  datatype EvidenceAction = Attach | Supersede | Remove
  datatype RestrictionStatus = Active | Released | Voided

  /** What a command asks for; `facts` stands for the descriptive columns, which nothing computes with. */
  datatype Detail =
    | Create(vehicleId: Id, recovery: bool, costRequired: bool, facts: string)
    | Assign(workOrderId: Id, expectedVersion: nat, userId: Id, scheduledAt: Option<Moment>, slaDueAt: Option<Moment>,
             facts: string)
    | Transition(workOrderId: Id, expectedVersion: nat, target: Status, closeReason: Option<string>,
                 solution: Option<string>, facts: string)
    | Note(workOrderId: Id, facts: string)
    | Evidence(workOrderId: Id, action: EvidenceAction, evidenceType: string, fileId: Option<Id>,
               sha256: Option<string>, supersedes: Option<Id>, eventSequence: Option<nat>, facts: string)
    | Restrict(vehicleId: Id, linkedOrder: Option<Id>, recovery: bool, scopes: set<string>, conditions: string,
               startedAt: Moment, facts: string)
    | Release(restrictionId: Id, targetStatus: RestrictionStatus, reason: string, snapshot: string)

  datatype Command = Command(source: Source, actorId: Id, occurredAt: Moment, detail: Detail)

  datatype Header = Header(
    id: Id, number: string, vehicleId: Id, recovery: bool, costRequired: bool, facts: string, createSource: Source,
    status: Status, version: nat, assignedUserId: Option<Id>, scheduledAt: Option<Moment>, slaDueAt: Option<Moment>,
    startedAt: Option<Moment>, acceptedAt: Option<Moment>, costConfirmedAt: Option<Moment>, closedAt: Option<Moment>,
    cancelledAt: Option<Moment>, closeReason: Option<string>, solution: Option<string>, createdBy: Id, updatedBy: Id)

  datatype Event = Event(
    workOrderId: Id, sequence: nat, eventType: EventType, before: Option<Status>, after: Option<Status>,
    command: Command, result: Header)

  function NewHeader(c: Command, id: Id, number: string): Header
    requires c.detail.Create?
  {
    Header(id, number, c.detail.vehicleId, c.detail.recovery, c.detail.costRequired, c.detail.facts, c.source,
           Pending, 0, None, None, None, None, None, None, None, None, None, None, c.actorId, c.actorId)
  }

  function AssignedTo(h: Header, c: Command): Header
    requires c.detail.Assign?
  {
    h.(assignedUserId := Some(c.detail.userId), scheduledAt := c.detail.scheduledAt, slaDueAt := c.detail.slaDueAt,
       updatedBy := c.actorId, version := h.version + 1)
  }

  function Transitioned(h: Header, c: Command): Header
    requires c.detail.Transition?
  {
    var to, at := c.detail.target, Some(c.occurredAt);
    h.(status := to, updatedBy := c.actorId, version := h.version + 1,
       startedAt := if h.status.Pending? then at else h.startedAt,
       acceptedAt := if to.PendingCostConfirmation? || (to.Closed? && h.status.PendingAcceptance?) then at
                     else h.acceptedAt,
       costConfirmedAt := if to.Closed? && !h.status.PendingAcceptance? then at else h.costConfirmedAt,
       closedAt := if to.Closed? then at else h.closedAt,
       cancelledAt := if to.Cancelled? then at else h.cancelledAt,
       closeReason := if to.Closed? || to.Cancelled? then c.detail.closeReason else h.closeReason,
       solution := if to.Closed? then c.detail.solution else h.solution)
  }

  /** The commands that change the header. */
  predicate IsMove(d: Detail) { d.Assign? || d.Transition? }

  /** What an event does to the header. */
  function ApplyEvent(h: Header, e: Event): Header {
    match e.command.detail
    case Assign(_, _, _, _, _, _) => AssignedTo(h, e.command)
    case Transition(_, _, _, _, _, _) => Transitioned(h, e.command)
    case _ => h
  }

  /** The header after the whole log, starting from the header as created. */
  function Fold(log: seq<Event>): Header
    requires log != []
  {
    if |log| == 1 then log[0].result else ApplyEvent(Fold(log[..|log| - 1]), log[|log| - 1])
  }

  predicate OpensLog(e: Event) {
    && e.sequence == 1 && e.eventType.CREATED? && e.before.None? && e.after == Some(Pending)
    && e.command.detail.Create? && e.result == NewHeader(e.command, e.workOrderId, e.result.number)
  }

  function QuietEventType(d: Detail): EventType {
    match d
    case Evidence(_, _, _, _, _, _, _, _) => EVIDENCE_ATTACHED
    case Restrict(_, _, _, _, _, _, _) => RESTRICTION_CREATED
    case Release(_, _, _, _) => RESTRICTION_RELEASED
    case _ => NOTE_ADDED
  }

  /** The order a command names, if it names one, is this one. */
  predicate About(d: Detail, id: Id) {
    match d
    case Note(order, _) => order == id
    case Evidence(order, _, _, _, _, _, _, _) => order == id
    case Restrict(_, linked, _, _, _, _, _) => linked == Some(id)
    case _ => true
  }

  /** An event that may follow in the log of a header that is `h`. */
  predicate Continues(h: Header, e: Event) {
    && e.workOrderId == h.id == e.result.id
    && (IsMove(e.command.detail) ==> e.result == ApplyEvent(h, e))
    && match e.command.detail
       case Create(_, _, _, _) => false
       case Assign(id, version, _, _, _, _) =>
         && id == h.id && version == h.version && !Terminal(h.status)
         && e.eventType.ASSIGNED? && e.before == e.after == Some(h.status)
       case Transition(id, version, target, _, _, _) =>
         && id == h.id && version == h.version && TransitionAllowed(h.status, target, h.costRequired)
         && e.eventType == TransitionEventType(h.status, target)
         && e.before == Some(h.status) && e.after == Some(target)
       case _ =>
         && About(e.command.detail, h.id)
         && e.eventType == QuietEventType(e.command.detail) && e.before.None? && e.after.None?
  }

  /** A whole log: sequences 1, 2, 3 and so on, each event following from the ones before it. */
  predicate LogOk(log: seq<Event>)
    decreases |log|
  {
    && log != []
    && if |log| == 1 then OpensLog(log[0])
       else
         var n := |log| - 1;
         LogOk(log[..n]) && log[n].sequence == n + 1 && Continues(Fold(log[..n]), log[n])
  }

  /* ---- What a log determines ---- */

  lemma FoldOneMore(log: seq<Event>, e: Event)
    requires log != []
    ensures Fold(log + [e]) == ApplyEvent(Fold(log), e)
    ensures LogOk(log + [e]) <==> LogOk(log) && e.sequence == |log| + 1 && Continues(Fold(log), e)
  {
    hide Continues, ApplyEvent, OpensLog;
    assert (log + [e])[..|log|] == log;
  }

  /** The header stored with the creation and with every move is the fold of the log up to it. */
  lemma {:induction false} ResultsOfMovesAreFolds(log: seq<Event>, i: nat)
    requires LogOk(log) && i < |log|
    ensures log[i].sequence == i + 1 && log[i].workOrderId == log[i].result.id == Fold(log).id
    ensures i == 0 || IsMove(log[i].command.detail) ==> log[i].result == Fold(log[..i + 1])
    decreases |log|
  {
    hide OpensLog, TransitionAllowed;
    var n := |log| - 1;
    if i < n {
      ResultsOfMovesAreFolds(log[..n], i);
      assert log[..n][..i + 1] == log[..i + 1];
    } else {
      assert log[..i + 1] == log;
      if n == 0 { OpensWithItsId(log[0]); }
    }
    IdIsKept(log);
  }

  /** What no command changes. */
  predicate SameOrder(h: Header, g: Header) {
    h.id == g.id && h.vehicleId == g.vehicleId && h.costRequired == g.costRequired && h.recovery == g.recovery
  }

  lemma {:induction false} PrefixIsSameOrder(log: seq<Event>, k: nat)
    requires log != [] && 0 < k <= |log|
    ensures SameOrder(Fold(log[..k]), Fold(log))
    decreases |log|
  {
    if k < |log| {
      PrefixIsSameOrder(log[..|log| - 1], k);
      assert log[..|log| - 1][..k] == log[..k];
    } else {
      assert log[..k] == log;
    }
  }

  /** No event from position `k` on assigns or transitions. */
  predicate UnmovedSince(log: seq<Event>, k: nat) {
    forall i :: k <= i < |log| ==> !IsMove(log[i].command.detail)
  }

  /** A header read after `k` events is still the header exactly if nothing has moved the order since. */
  lemma {:induction false} CurrentExactlyWhenUnmoved(log: seq<Event>, k: nat)
    requires LogOk(log) && 0 < k <= |log|
    ensures Fold(log[..k]) == Fold(log) <==> UnmovedSince(log, k)
    ensures Fold(log[..k]).version <= Fold(log).version
    ensures !UnmovedSince(log, k) ==> Fold(log[..k]).version < Fold(log).version
    decreases |log|
  {
    hide TransitionAllowed;
    if k < |log| {
      var less := log[..|log| - 1];
      CurrentExactlyWhenUnmoved(less, k);
      assert less[..k] == log[..k];
      assert UnmovedSince(log, k) <==> UnmovedSince(less, k) && !IsMove(log[|log| - 1].command.detail);
    } else {
      assert log[..k] == log;
    }
  }

  lemma OpensWithItsId(e: Event)
    requires OpensLog(e)
    ensures e.result.id == e.workOrderId && e.sequence == 1
  {
  }

  lemma IdIsKept(log: seq<Event>)
    requires log != []
    ensures |log| > 1 ==> Fold(log).id == Fold(log[..|log| - 1]).id
  {
  }

  /** The last status any event states. */
  function LastStatus(log: seq<Event>): Option<Status> {
    if log == [] then None
    else if log[|log| - 1].after.Some? then log[|log| - 1].after
    else LastStatus(log[..|log| - 1])
  }

  /** How many events assign or transition. */
  function Moves(log: seq<Event>): nat {
    if log == [] then 0
    else Moves(log[..|log| - 1])
         + (if IsMove(log[|log| - 1].command.detail) then 1 else 0)
  }

  /** The status is the last one stated, and the version counts the assignments and transitions. */
  lemma {:induction false} LogDeterminesStatusAndVersion(log: seq<Event>)
    requires LogOk(log)
    ensures LastStatus(log) == Some(Fold(log).status)
    ensures Moves(log) == Fold(log).version
    decreases |log|
  {
    hide TransitionAllowed;
    if |log| == 1 {
      assert log[..0] == [];
    } else {
      LogDeterminesStatusAndVersion(log[..|log| - 1]);
    }
  }

  /** Once a log reaches a terminal status, no longer log of the same order changes it. */
  lemma {:induction false} TerminalIsForever(log: seq<Event>, n: nat)
    requires LogOk(log) && 0 < n <= |log| && Terminal(Fold(log[..n]).status)
    ensures Fold(log).status == Fold(log[..n]).status && Fold(log).version == Fold(log[..n]).version
    decreases |log|
  {
    if n == |log| {
      assert log[..n] == log;
    } else {
      assert log[..|log| - 1][..n] == log[..n];
      TerminalIsForever(log[..|log| - 1], n);
    }
  }

  /** The dates that tell how far an order got. */
  predicate DatesFit(h: Header) {
    && (h.status.Pending? <==> h.startedAt.None?)
    && (h.status.PendingCostConfirmation? ==> h.acceptedAt.Some? && h.costRequired)
    && (h.status.Closed? <==> h.closedAt.Some?)
    && (h.status.Closed? ==> h.startedAt.Some? && h.acceptedAt.Some?)
    && (h.status.Cancelled? <==> h.cancelledAt.Some?)
    && (h.costConfirmedAt.Some? <==> h.status.Closed? && h.costRequired)
  }

  /**
   Closed orders have been started, accepted and closed; the cost confirmation date is set
   exactly on closed orders that required cost confirmation.
   */
  lemma {:induction false} DatesTellTheStory(log: seq<Event>)
    requires LogOk(log)
    ensures DatesFit(Fold(log))
    decreases |log|
  {
    if |log| > 1 { DatesTellTheStory(log[..|log| - 1]); }
  }

  /* ---- The journal: headers, logs and the unique index on event sources ---- */

  datatype Place = Place(workOrderId: Id, index: nat)

  datatype Journal = Journal(orders: map<Id, Header>, logs: map<Id, seq<Event>>, index: map<Source, Place>)

  /** The event a source names. */
  function EventOf(j: Journal, s: Source): Option<Event> {
    if s in j.index && j.index[s].workOrderId in j.logs && j.index[s].index < |j.logs[j.index[s].workOrderId]|
    then Some(j.logs[j.index[s].workOrderId][j.index[s].index])
    else None
  }

  function MaxSequence(log: seq<Event>): nat {
    if log == [] then 0
    else
      var others := MaxSequence(log[..|log| - 1]);
      if log[|log| - 1].sequence > others then log[|log| - 1].sequence else others
  }

  lemma {:induction false} MaxSequenceIsLength(log: seq<Event>)
    requires LogOk(log)
    ensures MaxSequence(log) == |log|
    decreases |log|
  {
    hide Continues;
    if |log| > 1 { MaxSequenceIsLength(log[..|log| - 1]); } else { assert log[..0] == []; }
  }

  function Opened(j: Journal, e: Event): Journal {
    Journal(j.orders[e.workOrderId := e.result], j.logs[e.workOrderId := [e]],
            j.index[e.command.source := Place(e.workOrderId, 0)])
  }

  function Appended(j: Journal, e: Event): Journal
    requires e.workOrderId in j.logs && e.workOrderId in j.orders
  {
    Journal(j.orders[e.workOrderId := ApplyEvent(j.orders[e.workOrderId], e)],
            j.logs[e.workOrderId := j.logs[e.workOrderId] + [e]],
            j.index[e.command.source := Place(e.workOrderId, |j.logs[e.workOrderId]|)])
  }

  ghost predicate OrderOk(j: Journal, id: Id)
    requires id in j.logs
  {
    && id in j.orders && LogOk(j.logs[id]) && j.orders[id] == Fold(j.logs[id]) && j.orders[id].id == id
  }

  ghost predicate OrdersOk(j: Journal) {
    && j.logs.Keys == j.orders.Keys
    && forall id :: id in j.logs ==> OrderOk(j, id)
  }

  ghost predicate Indexed(j: Journal, p: Place) {
    && p.workOrderId in j.logs && p.index < |j.logs[p.workOrderId]|
    && var s := j.logs[p.workOrderId][p.index].command.source;
       s in j.index && j.index[s] == p
  }

  /** The index is exactly the sources of the events, each naming one event. */
  ghost predicate IndexOk(j: Journal) {
    && (forall s :: s in j.index ==> Indexed(j, j.index[s]) && EventOf(j, s).value.command.source == s)
    && (forall id, i: nat :: id in j.logs && i < |j.logs[id]| ==> Indexed(j, Place(id, i)))
  }

  ghost predicate JournalOk(j: Journal) { OrdersOk(j) && IndexOk(j) }

  lemma OpenKeepsOrders(j: Journal, e: Event)
    requires OrdersOk(j) && OpensLog(e) && e.workOrderId !in j.logs
    ensures OrdersOk(Opened(j, e))
  {
    hide OpensLog;
    var after := Opened(j, e);
    OpensWithItsId(e);
    forall id | id in after.logs
      ensures OrderOk(after, id)
    {
      if id != e.workOrderId { assert OrderOk(j, id); }
    }
  }

  lemma OpenKeepsIndex(j: Journal, e: Event)
    requires IndexOk(j) && e.workOrderId !in j.logs && e.command.source !in j.index
    ensures IndexOk(Opened(j, e))
  {
    var after := Opened(j, e);
    forall s | s in after.index
      ensures Indexed(after, after.index[s]) && EventOf(after, s).value.command.source == s
    {
      if s != e.command.source { assert Indexed(j, j.index[s]); }
    }
    forall id, i: nat | id in after.logs && i < |after.logs[id]|
      ensures Indexed(after, Place(id, i))
    {
      if id != e.workOrderId { assert Indexed(j, Place(id, i)); }
    }
  }

  lemma OpenKeepsJournal(j: Journal, e: Event)
    requires JournalOk(j) && OpensLog(e) && e.workOrderId !in j.logs && e.command.source !in j.index
    ensures JournalOk(Opened(j, e))
  {
    hide OrdersOk, IndexOk, OpensLog;
    OpenKeepsOrders(j, e);
    OpenKeepsIndex(j, e);
  }

  lemma AppendKeepsOrders(j: Journal, e: Event)
    requires OrdersOk(j) && e.workOrderId in j.logs && e.workOrderId in j.orders
    requires Continues(j.orders[e.workOrderId], e)
    requires e.sequence == |j.logs[e.workOrderId]| + 1
    ensures OrdersOk(Appended(j, e))
  {
    hide LogOk, Fold;
    var after := Appended(j, e);
    assert OrderOk(j, e.workOrderId);
    assert j.logs[e.workOrderId] != [] by { LogIsNotEmpty(j.logs[e.workOrderId]); }
    FoldOneMore(j.logs[e.workOrderId], e);
    forall id | id in after.logs
      ensures OrderOk(after, id)
    {
      assert OrderOk(j, id);
    }
  }

  lemma LogIsNotEmpty(log: seq<Event>)
    requires LogOk(log)
    ensures log != []
  {
  }

  lemma AppendKeepsIndex(j: Journal, e: Event)
    requires IndexOk(j) && e.workOrderId in j.logs && e.workOrderId in j.orders && e.command.source !in j.index
    ensures IndexOk(Appended(j, e))
  {
    var after := Appended(j, e);
    forall s | s in after.index
      ensures Indexed(after, after.index[s]) && EventOf(after, s).value.command.source == s
    {
      if s != e.command.source { assert Indexed(j, j.index[s]); }
    }
    forall id, i: nat | id in after.logs && i < |after.logs[id]|
      ensures Indexed(after, Place(id, i))
    {
      if id in j.logs && i < |j.logs[id]| { assert Indexed(j, Place(id, i)); }
    }
  }

  lemma AppendKeepsJournal(j: Journal, e: Event)
    requires JournalOk(j) && e.workOrderId in j.logs && e.workOrderId in j.orders
    requires Continues(j.orders[e.workOrderId], e)
    requires e.sequence == |j.logs[e.workOrderId]| + 1 && e.command.source !in j.index
    ensures JournalOk(Appended(j, e))
  {
    hide OrdersOk, IndexOk;
    AppendKeepsOrders(j, e);
    AppendKeepsIndex(j, e);
  }

  /** Adding an event leaves every earlier one where it was and what it was. */
  lemma AppendRemembers(j: Journal, e: Event, s: Source)
    requires e.workOrderId in j.logs && e.workOrderId in j.orders && e.command.source !in j.index
    ensures EventOf(Appended(j, e), s)
      == if s == e.command.source then Some(e) else EventOf(j, s)
    requires IndexOk(j)
  {
    if s in j.index { assert Indexed(j, j.index[s]); }
  }

  lemma OpenRemembers(j: Journal, e: Event, s: Source)
    requires IndexOk(j) && e.workOrderId !in j.logs && e.command.source !in j.index
    ensures EventOf(Opened(j, e), s) == if s == e.command.source then Some(e) else EventOf(j, s)
  {
    if s in j.index { assert Indexed(j, j.index[s]); }
  }
}
