/** What holds of the work-order tables after any run: logs determine headers, and sources name single commands. */
module WorkOrderInvariants {
  import opened Wrappers
  import opened AssetTypes
  import opened WorkOrders
  import opened WorkOrderCommands

  /* ---- The invariants ---- */

  /** An event has the shape its command gives it. */
  predicate EventFits(e: Event) {
    match e.command.detail
    case Create(_, _, _, _) => e.sequence == 1 && e.eventType.CREATED? && e.before.None? && e.after == Some(Pending)
    case Assign(id, _, _, _, _, _) =>
      e.workOrderId == id && e.eventType.ASSIGNED? && e.before.Some? && e.before == e.after
    case Transition(id, _, target, _, _, _) =>
      && e.workOrderId == id && e.before.Some? && e.after == Some(target)
      && e.eventType == TransitionEventType(e.before.value, target)
    case _ =>
      && About(e.command.detail, e.workOrderId) && e.eventType == QuietEventType(e.command.detail)
      && e.before.None? && e.after.None?
  }

  /** The source names an event, with this command. */
  predicate Names(j: Journal, s: Source, c: Command) { EventOf(j, s).Some? && EventOf(j, s).value.command == c }

  ghost predicate EventSourced(ops: Ops, s: Source) {
    && EventOf(ops.journal, s).Some?
    && var e := EventOf(ops.journal, s).value;
       && EventFits(e) && e.command.source == s
       && (e.command.detail.Create? <==> s in ops.created) && (s in ops.created ==> ops.created[s] == e.workOrderId)
       && (e.command.detail.Evidence? <==> s in ops.evidenceIndex)
       && (e.command.detail.Restrict? <==> s in ops.starts)
       && (e.command.detail.Release? <==> s in ops.releases)
  }

  ghost predicate EventsSourced(ops: Ops) {
    && ops.created.Keys <= ops.journal.index.Keys && ops.evidenceIndex.Keys <= ops.journal.index.Keys
    && forall s :: s in ops.journal.index ==> EventSourced(ops, s)
  }

  ghost predicate EvidenceSourced(ops: Ops, s: Source)
    requires s in ops.evidenceIndex
  {
    && ops.evidenceIndex[s] in ops.evidence && EventOf(ops.journal, s).Some?
    && var row, c := ops.evidence[ops.evidenceIndex[s]], EventOf(ops.journal, s).value.command;
       && SameEvidence(row, c) && c.detail.Evidence? && EvidenceShaped(c.detail)
       && (c.detail.supersedes.Some? ==> c.detail.supersedes.value in ops.evidence)
  }

  ghost predicate EvidencesSourced(ops: Ops) {
    forall s :: s in ops.evidenceIndex ==> EvidenceSourced(ops, s)
  }

  /** The event of a restriction command exists exactly when an order is linked, on that order. */
  predicate Linked(ops: Ops, c: Command, order: Option<Id>) {
    if order.None? then c.source !in ops.journal.index
    else Names(ops.journal, c.source, c) && EventOf(ops.journal, c.source).value.workOrderId == order.value
         && c.source in ops.journal.index
  }

  predicate LinkFits(ops: Ops, c: Command)
    requires c.detail.Restrict?
  {
    c.detail.linkedOrder.Some? ==>
      && HasOrder(ops, c.detail.linkedOrder.value)
      && ops.journal.orders[c.detail.linkedOrder.value].vehicleId == c.detail.vehicleId
  }

  ghost predicate CreationFits(ops: Ops, id: Id, row: RestrictionRow) {
    var c := row.created.command;
    && c.detail.Restrict? && c.source in ops.starts && ops.starts[c.source] == id
    && row.current.id == row.created.result.id == id
    && row.current.workOrderId == row.created.result.workOrderId == c.detail.linkedOrder
    && c.detail.scopes != {} && c.detail.conditions != "" && LinkFits(ops, c)
    && Linked(ops, c, c.detail.linkedOrder)
  }

  ghost predicate ReleaseFits(ops: Ops, id: Id, row: RestrictionRow) {
    row.released.Some? ==>
      var c := row.released.value.command;
      && c.detail.Release? && c.source in ops.releases && ops.releases[c.source] == id
      && c.detail.restrictionId == id == row.released.value.result.id
      && NonBlank(c.detail.reason) && c.detail.snapshot != "" && !c.detail.targetStatus.Active?
      && Linked(ops, c, row.current.workOrderId)
  }

  ghost predicate RowFits(ops: Ops, id: Id)
    requires id in ops.restrictions
  {
    && CreationFits(ops, id, ops.restrictions[id]) && ReleaseFits(ops, id, ops.restrictions[id])
    && (ops.restrictions[id].released.None? <==> ops.restrictions[id].current.status.Active?)
  }

  ghost predicate RowsFit(ops: Ops) { forall id :: id in ops.restrictions ==> RowFits(ops, id) }

  predicate StartFits(ops: Ops, s: Source)
    requires s in ops.starts
  {
    && s !in ops.releases && ops.starts[s] in ops.restrictions
    && ops.restrictions[ops.starts[s]].created.command.source == s
  }

  predicate EndFits(ops: Ops, s: Source)
    requires s in ops.releases
  {
    && ops.releases[s] in ops.restrictions && ops.restrictions[ops.releases[s]].released.Some?
    && ops.restrictions[ops.releases[s]].released.value.command.source == s
  }

  ghost predicate SourcesFit(ops: Ops) {
    && (forall s :: s in ops.starts ==> StartFits(ops, s))
    && (forall s :: s in ops.releases ==> EndFits(ops, s))
  }

  ghost predicate Inv(ops: Ops) {
    JournalOk(ops.journal) && EventsSourced(ops) && EvidencesSourced(ops) && RowsFit(ops) && SourcesFit(ops)
  }

  /* ---- One logged event ---- */

  /** How a journal changes by one event: everything else stays what it is. */
  ghost predicate OneMore(j: Journal, after: Journal, e: Event) {
    && JournalOk(after)
    && (forall s :: EventOf(after, s) == if s == e.command.source then Some(e) else EventOf(j, s))
    && after.index.Keys == j.index.Keys + {e.command.source}
    && (forall id :: id in j.orders ==> id in after.orders && after.orders[id].vehicleId == j.orders[id].vehicleId)
    && (forall id :: id in j.logs ==> id in after.logs)
  }

  lemma ApplyKeepsVehicle(h: Header, e: Event)
    ensures ApplyEvent(h, e).vehicleId == h.vehicleId
  {
  }

  lemma LoggedIsOneMore(ops: Ops, e: Event)
    requires JournalOk(ops.journal) && Loggable(ops, e)
    ensures OneMore(ops.journal, Logged(ops.journal, e), e)
  {
    hide Continues, OrdersOk, EventOf;
    var j := ops.journal;
    AppendKeepsJournal(j, e);
    forall s
      ensures EventOf(Appended(j, e), s) == if s == e.command.source then Some(e) else EventOf(j, s)
    {
      AppendRemembers(j, e, s);
    }
    ContinuesMeans(j.orders[e.workOrderId], e);
    ApplyKeepsVehicle(j.orders[e.workOrderId], e);
  }

  lemma ContinuesMeans(h: Header, e: Event)
    requires Continues(h, e)
    ensures EventFits(e) && !e.command.detail.Create?
  {
  }

  lemma OpenedIsOneMore(ops: Ops, e: Event)
    requires JournalOk(ops.journal) && OpensLog(e) && e.workOrderId !in ops.journal.logs
    requires e.command.source !in ops.journal.index
    ensures OneMore(ops.journal, Opened(ops.journal, e), e)
    ensures EventFits(e) && e.command.detail.Create?
  {
    hide EventOf, LogOk, OrderOk, Indexed;
    var j := ops.journal;
    OpenKeepsJournal(j, e);
    forall s
      ensures EventOf(Opened(j, e), s) == if s == e.command.source then Some(e) else EventOf(j, s)
    {
      OpenRemembers(j, e, s);
    }
  }

  /* ---- Each change keeps the invariants ---- */

  lemma EventsStay(ops: Ops, after: Ops, e: Event)
    requires EventsSourced(ops) && OneMore(ops.journal, after.journal, e) && e.command.source !in ops.journal.index
    requires EventFits(e)
    requires forall s :: s in ops.journal.index ==>
      && (s in after.created <==> s in ops.created) && (s in ops.created ==> after.created[s] == ops.created[s])
      && (s in after.evidenceIndex <==> s in ops.evidenceIndex)
      && (s in after.starts <==> s in ops.starts) && (s in after.releases <==> s in ops.releases)
    requires var s := e.command.source;
      && (e.command.detail.Create? <==> s in after.created)
      && (s in after.created ==> after.created[s] == e.workOrderId)
      && (e.command.detail.Evidence? <==> s in after.evidenceIndex)
      && (e.command.detail.Restrict? <==> s in after.starts)
      && (e.command.detail.Release? <==> s in after.releases)
    requires after.created.Keys <= ops.created.Keys + {e.command.source}
    requires after.evidenceIndex.Keys <= ops.evidenceIndex.Keys + {e.command.source}
    ensures EventsSourced(after)
  {
    hide JournalOk, EventFits, EventOf;
    forall s | s in after.journal.index
      ensures EventSourced(after, s)
    {
      if s != e.command.source { assert EventSourced(ops, s); }
    }
  }

  lemma EvidencesStay(ops: Ops, after: Ops, e: Event)
    requires EvidencesSourced(ops) && OneMore(ops.journal, after.journal, e) && e.command.source !in ops.evidenceIndex
    requires after.evidence == ops.evidence && after.evidenceIndex == ops.evidenceIndex
    ensures EvidencesSourced(after)
  {
    hide JournalOk, EventOf, EvidenceShaped;
    forall s | s in after.evidenceIndex
      ensures EvidenceSourced(after, s)
    {
      assert EvidenceSourced(ops, s);
    }
  }

  lemma LinkedStays(ops: Ops, after: Ops, e: Event, c: Command, order: Option<Id>)
    requires OneMore(ops.journal, after.journal, e) && c.source != e.command.source && Linked(ops, c, order)
    ensures Linked(after, c, order)
  {
    hide JournalOk, EventOf;
  }

  lemma LinkStillFits(ops: Ops, after: Ops, e: Event, c: Command)
    requires OneMore(ops.journal, after.journal, e) && c.detail.Restrict? && LinkFits(ops, c)
    ensures LinkFits(after, c)
  {
    hide JournalOk, EventOf;
  }

  lemma RowStays(ops: Ops, after: Ops, e: Event, id: Id)
    requires OneMore(ops.journal, after.journal, e)
    requires id in ops.restrictions && RowFits(ops, id) && id in after.restrictions
    requires after.restrictions[id] == ops.restrictions[id]
    requires e.command.source !in ops.starts && e.command.source !in ops.releases
    requires forall s :: s in ops.starts ==> s in after.starts && after.starts[s] == ops.starts[s]
    requires forall s :: s in ops.releases ==> s in after.releases && after.releases[s] == ops.releases[s]
    ensures RowFits(after, id)
  {
    hide OneMore, Linked, LinkFits, NonBlank;
    var row := ops.restrictions[id];
    var c := row.created.command;
    LinkedStays(ops, after, e, c, c.detail.linkedOrder);
    LinkStillFits(ops, after, e, c);
    if row.released.Some? { LinkedStays(ops, after, e, row.released.value.command, row.current.workOrderId); }
  }

  lemma RowsStay(ops: Ops, after: Ops, e: Event)
    requires OneMore(ops.journal, after.journal, e) && RowsFit(ops) && after.restrictions == ops.restrictions
    requires after.starts == ops.starts && after.releases == ops.releases
    requires e.command.source !in ops.starts && e.command.source !in ops.releases
    ensures RowsFit(after)
  {
    hide OneMore, RowFits;
    forall id | id in after.restrictions
      ensures RowFits(after, id)
    {
      RowStays(ops, after, e, id);
    }
  }

  lemma IndexesCover(ops: Ops, s: Source)
    requires EventsSourced(ops) && s !in ops.journal.index
    ensures s !in ops.created && s !in ops.evidenceIndex
  {
  }

  lemma OpenKeepsInv(ops: Ops, e: Event)
    requires Inv(ops) && ChangeOk(ops, Open(e))
    ensures Inv(Apply(ops, Open(e)))
  {
    hide OneMore, RowsFit, EventsSourced, EvidencesSourced, OpensLog, JournalOk, EventFits, EventSourced;
    var after := Apply(ops, Open(e));
    IndexesCover(ops, e.command.source);
    OpenedIsOneMore(ops, e);
    OneMoreIsOk(ops.journal, after.journal, e);
    EventsStay(ops, after, e);
    EvidencesStay(ops, after, e);
    RowsStay(ops, after, e);
  }

  lemma OneMoreIsOk(j: Journal, after: Journal, e: Event)
    requires OneMore(j, after, e)
    ensures JournalOk(after)
  {
  }

  lemma ExtendKeepsInv(ops: Ops, e: Event)
    requires Inv(ops) && ChangeOk(ops, Extend(e))
    ensures Inv(Apply(ops, Extend(e)))
  {
    hide OneMore, RowsFit, EventsSourced, EvidencesSourced, Continues, JournalOk, EventFits, EventSourced, Logged;
    var after := Apply(ops, Extend(e));
    IndexesCover(ops, e.command.source);
    LoggedIsOneMore(ops, e);
    OneMoreIsOk(ops.journal, after.journal, e);
    ContinuesMeans(ops.journal.orders[e.workOrderId], e);
    EventsStay(ops, after, e);
    EvidencesStay(ops, after, e);
    RowsStay(ops, after, e);
  }

  lemma EvidenceAdded(ops: Ops, row: EvidenceRow, e: Event)
    requires EvidencesSourced(ops) && ChangeOk(ops, AddEvidence(row, e)) && e.command.source !in ops.evidenceIndex
    requires OneMore(ops.journal, Logged(ops.journal, e), e)
    ensures EvidencesSourced(Apply(ops, AddEvidence(row, e)))
  {
    hide JournalOk, EventOf, EvidenceShaped, Loggable, SameKind, IsSuperseded, Logged;
    var after := Apply(ops, AddEvidence(row, e));
    forall s | s in after.evidenceIndex
      ensures EvidenceSourced(after, s)
    {
      if s != e.command.source { assert EvidenceSourced(ops, s); }
    }
  }

  lemma EvidenceKeepsInv(ops: Ops, row: EvidenceRow, e: Event)
    requires Inv(ops) && ChangeOk(ops, AddEvidence(row, e))
    ensures Inv(Apply(ops, AddEvidence(row, e)))
  {
    hide OneMore, RowsFit, EventsSourced, EvidencesSourced, Continues, JournalOk, EventFits, EventSourced, Logged;
    hide SameKind, IsSuperseded, EvidenceShaped;
    var after := Apply(ops, AddEvidence(row, e));
    IndexesCover(ops, e.command.source);
    LoggedIsOneMore(ops, e);
    OneMoreIsOk(ops.journal, after.journal, e);
    ContinuesMeans(ops.journal.orders[e.workOrderId], e);
    EventsStay(ops, after, e);
    EvidenceAdded(ops, row, e);
    RowsStay(ops, after, e);
  }

  /* ---- Restrictions ---- */

  /** Without an event, the journal and what depends on it alone stay. */
  lemma QuietEventsStay(ops: Ops, after: Ops, s: Source)
    requires EventsSourced(ops) && EvidencesSourced(ops) && after.journal == ops.journal && s !in ops.journal.index
    requires after.created == ops.created && after.evidence == ops.evidence && after.evidenceIndex == ops.evidenceIndex
    requires forall x :: x != s ==>
      (x in after.starts <==> x in ops.starts) && (x in after.releases <==> x in ops.releases)
    ensures EventsSourced(after) && EvidencesSourced(after)
  {
    hide EventFits, EventOf, EvidenceShaped;
    forall x | x in after.journal.index
      ensures EventSourced(after, x)
    {
      assert EventSourced(ops, x);
    }
    forall x | x in after.evidenceIndex
      ensures EvidenceSourced(after, x)
    {
      assert EvidenceSourced(ops, x);
    }
  }

  lemma QuietRowStays(ops: Ops, after: Ops, id: Id)
    requires after.journal == ops.journal
    requires id in ops.restrictions && RowFits(ops, id) && id in after.restrictions
    requires after.restrictions[id] == ops.restrictions[id]
    requires forall s :: s in ops.starts ==> s in after.starts && after.starts[s] == ops.starts[s]
    requires forall s :: s in ops.releases ==> s in after.releases && after.releases[s] == ops.releases[s]
    ensures RowFits(after, id)
  {
    hide NonBlank;
  }

  ghost predicate Grows(ops: Ops, after: Ops) {
    && (forall s :: s in ops.starts ==> s in after.starts && after.starts[s] == ops.starts[s])
    && (forall s :: s in ops.releases ==> s in after.releases && after.releases[s] == ops.releases[s])
  }

  /** Events and evidence after a restriction command, with or without an event. */
  lemma RestrictionEvents(ops: Ops, after: Ops, c: Command, order: Option<Id>, e: Option<Event>)
    requires JournalOk(ops.journal) && EventsSourced(ops) && EvidencesSourced(ops)
    requires LinkedOk(ops, c, order, e) && Unnamed(ops, c.source)
    requires after.journal == LoggedIf(ops.journal, e)
    requires after.created == ops.created && after.evidence == ops.evidence && after.evidenceIndex == ops.evidenceIndex
    requires forall x :: x != c.source ==>
      (x in after.starts <==> x in ops.starts) && (x in after.releases <==> x in ops.releases)
    requires (c.detail.Restrict? <==> c.source in after.starts) && (c.detail.Release? <==> c.source in after.releases)
    requires c.detail.Restrict? || c.detail.Release?
    ensures JournalOk(after.journal) && EventsSourced(after) && EvidencesSourced(after)
    ensures Linked(after, c, order)
    ensures e.Some? ==> OneMore(ops.journal, after.journal, e.value)
  {
    hide OneMore, EventsSourced, EvidencesSourced, Continues, JournalOk, EventFits, Logged;
    IndexesCover(ops, c.source);
    if e.None? {
      QuietEventsStay(ops, after, c.source);
    } else {
      LoggedIsOneMore(ops, e.value);
      OneMoreIsOk(ops.journal, after.journal, e.value);
      OneMoreNames(ops.journal, after.journal, e.value);
      ContinuesMeans(ops.journal.orders[e.value.workOrderId], e.value);
      EventsStay(ops, after, e.value);
      EvidencesStay(ops, after, e.value);
    }
  }

  lemma OneMoreNames(j: Journal, after: Journal, e: Event)
    requires OneMore(j, after, e)
    ensures EventOf(after, e.command.source) == Some(e) && e.command.source in after.index
  {
    hide EventOf, JournalOk;
  }

  lemma OtherRowStays(ops: Ops, after: Ops, e: Option<Event>, id: Id)
    requires if e.Some? then OneMore(ops.journal, after.journal, e.value) else after.journal == ops.journal
    requires e.Some? ==> e.value.command.source !in ops.starts && e.value.command.source !in ops.releases
    requires id in ops.restrictions && RowFits(ops, id) && id in after.restrictions
    requires after.restrictions[id] == ops.restrictions[id]
    requires Grows(ops, after)
    ensures RowFits(after, id)
  {
    hide OneMore, RowFits;
    if e.Some? { RowStays(ops, after, e.value, id); } else { QuietRowStays(ops, after, id); }
  }

  lemma LinkFitsAfter(ops: Ops, after: Ops, e: Option<Event>, c: Command)
    requires if e.Some? then OneMore(ops.journal, after.journal, e.value) else after.journal == ops.journal
    requires c.detail.Restrict? && LinkFits(ops, c)
    ensures LinkFits(after, c)
  {
    hide OneMore;
    if e.Some? { LinkStillFits(ops, after, e.value, c); }
  }

  lemma LoggableHasOrder(ops: Ops, e: Event)
    requires Loggable(ops, e)
    ensures HasOrder(ops, e.workOrderId)
  {
  }

  lemma RestrictKeepsRows(ops: Ops, row: RestrictionRow, e: Option<Event>)
    requires RowsFit(ops) && SourcesFit(ops) && ChangeOk(ops, AddRestriction(row, e))
    requires var after := Apply(ops, AddRestriction(row, e));
      && Linked(after, row.created.command, row.current.workOrderId)
      && (e.Some? ==> OneMore(ops.journal, after.journal, e.value))
    ensures RowsFit(Apply(ops, AddRestriction(row, e))) && SourcesFit(Apply(ops, AddRestriction(row, e)))
  {
    hide OneMore, Linked, LinkFits, NonBlank, Loggable, Logged, RowFits;
    var after := Apply(ops, AddRestriction(row, e));
    var c := row.created.command;
    assert LinkFits(ops, c) by { NewLinkFits(ops, row, e); }
    LinkFitsAfter(ops, after, e, c);
    forall id | id in after.restrictions
      ensures RowFits(after, id)
    {
      if id != row.current.id {
        OtherRowStays(ops, after, e, id);
      } else {
        NewRowFits(after, row);
      }
    }
  }

  lemma NewLinkFits(ops: Ops, row: RestrictionRow, e: Option<Event>)
    requires ChangeOk(ops, AddRestriction(row, e))
    ensures LinkFits(ops, row.created.command)
  {
    hide Continues;
    if e.Some? { LoggableHasOrder(ops, e.value); }
  }

  lemma NewRowFits(after: Ops, row: RestrictionRow)
    requires row.current.id in after.restrictions && after.restrictions[row.current.id] == row
    requires row.released.None? && row.created.result == row.current && row.created.command.detail.Restrict?
    requires row.current == NewRestriction(row.created.command, row.current.id, row.current.createdAt)
    requires row.created.command.detail.scopes != {} && row.created.command.detail.conditions != ""
    requires LinkFits(after, row.created.command)
    requires Linked(after, row.created.command, row.current.workOrderId)
    requires row.created.command.source in after.starts && after.starts[row.created.command.source] == row.current.id
    ensures RowFits(after, row.current.id)
  {
    hide Linked, LinkFits;
  }

  lemma RestrictKeepsInv(ops: Ops, row: RestrictionRow, e: Option<Event>)
    requires Inv(ops) && ChangeOk(ops, AddRestriction(row, e))
    ensures Inv(Apply(ops, AddRestriction(row, e)))
  {
    hide OneMore, RowsFit, EventsSourced, EvidencesSourced, JournalOk, Linked, Loggable, LoggedIf;
    var after := Apply(ops, AddRestriction(row, e));
    RestrictionEvents(ops, after, row.created.command, row.current.workOrderId, e);
    RestrictKeepsRows(ops, row, e);
  }

  lemma ReleaseKeepsRows(ops: Ops, row: RestrictionRow, e: Option<Event>)
    requires RowsFit(ops) && SourcesFit(ops) && ChangeOk(ops, EndRestriction(row, e))
    requires var after := Apply(ops, EndRestriction(row, e));
      && Linked(after, row.released.value.command, row.current.workOrderId)
      && (e.Some? ==> OneMore(ops.journal, after.journal, e.value))
    ensures RowsFit(Apply(ops, EndRestriction(row, e))) && SourcesFit(Apply(ops, EndRestriction(row, e)))
  {
    hide OneMore, Linked, LinkFits, NonBlank, Loggable, Logged, RowFits;
    var after := Apply(ops, EndRestriction(row, e));
    forall id | id in after.restrictions
      ensures RowFits(after, id)
    {
      if id != row.current.id {
        OtherRowStays(ops, after, e, id);
      } else {
        ReleasedRowFits(ops, after, row, e);
      }
    }
  }

  lemma ReleasedRowFits(ops: Ops, after: Ops, row: RestrictionRow, e: Option<Event>)
    requires ChangeOk(ops, EndRestriction(row, e)) && after == Apply(ops, EndRestriction(row, e))
    requires RowFits(ops, row.current.id)
    requires Linked(after, row.released.value.command, row.current.workOrderId)
    requires e.Some? ==> OneMore(ops.journal, after.journal, e.value)
    ensures RowFits(after, row.current.id)
  {
    hide OneMore, Linked, LinkFits, NonBlank, Loggable;
    var c := row.created.command;
    LinkFitsAfter(ops, after, e, c);
    if e.Some? {
      LinkedStays(ops, after, e.value, c, c.detail.linkedOrder);
    } else {
      SameLink(ops, after, c, c.detail.linkedOrder);
    }
  }

  lemma SameLink(ops: Ops, after: Ops, c: Command, order: Option<Id>)
    requires after.journal == ops.journal && Linked(ops, c, order)
    ensures Linked(after, c, order)
  {
  }

  lemma ReleaseKeepsInv(ops: Ops, row: RestrictionRow, e: Option<Event>)
    requires Inv(ops) && ChangeOk(ops, EndRestriction(row, e))
    ensures Inv(Apply(ops, EndRestriction(row, e)))
  {
    hide OneMore, RowsFit, EventsSourced, EvidencesSourced, JournalOk, Linked, Loggable, LoggedIf, NonBlank;
    var after := Apply(ops, EndRestriction(row, e));
    RestrictionEvents(ops, after, row.released.value.command, row.current.workOrderId, e);
    ReleaseKeepsRows(ops, row, e);
  }

  lemma ChangeKeepsInv(ops: Ops, change: Change)
    requires Inv(ops) && ChangeOk(ops, change)
    ensures Inv(Apply(ops, change))
  {
    hide Inv, Apply, ChangeOk;
    match change
    case Open(e) => OpenKeepsInv(ops, e);
    case Extend(e) => ExtendKeepsInv(ops, e);
    case AddEvidence(row, e) => EvidenceKeepsInv(ops, row, e);
    case AddRestriction(row, e) => RestrictKeepsInv(ops, row, e);
    case EndRestriction(row, e) => ReleaseKeepsInv(ops, row, e);
  }
}
