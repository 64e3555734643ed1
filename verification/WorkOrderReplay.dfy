/**
 One source, one command: what the tables record under a source is the only command it ever
 names, and executing that command again returns the recorded outcome at any later time.
 */
module WorkOrderReplay {
  import opened Wrappers
  import opened AssetTypes
  import opened WorkOrders
  import opened WorkOrderCommands
  import opened WorkOrderInvariants

  /** A header given to a command is one of the order it is about, of whatever time. */
  ghost predicate GivenOk(ops: Ops, c: Command, w: World) {
    w.locked.Some? ==>
      var id := OrderNamed(ops, c);
      id.Some? && HasOrder(ops, id.value) && SameOrder(w.locked.value, ops.journal.orders[id.value])
  }

  /* ---- Executing a command that writes is one allowed change ---- */

  lemma UnnamedSource(ops: Ops, s: Source)
    requires Inv(ops) && EventOf(ops.journal, s).None?
    ensures s !in ops.journal.index
  {
    hide OrdersOk, EvidencesSourced, RowsFit, SourcesFit, Indexed;
    assert s in ops.journal.index ==> EventSourced(ops, s);
  }

  lemma NextEventFollows(
    ops: Ops, c: Command, id: Id, t: EventType, before: Option<Status>, after: Option<Status>, h: Header)
    requires Inv(ops) && HasOrder(ops, id)
    ensures var e := NextEvent(ops, c, id, t, before, after, h);
      e.sequence == |ops.journal.logs[id]| + 1 && ops.journal.orders[id].id == id
  {
    hide EventsSourced, EvidencesSourced, RowsFit, SourcesFit, IndexOk, LogOk, Fold;
    assert OrderOk(ops.journal, id);
    MaxSequenceIsLength(ops.journal.logs[id]);
  }

  lemma CreateIsChange(ops: Ops, c: Command, w: World) returns (change: Change)
    requires Inv(ops) && c.detail.Create? && CreateOrder(ops, c, w).1.Wrote?
    ensures CreateOrder(ops, c, w).0 == Apply(ops, change) && ChangeOk(ops, change)
    ensures change.Open? && change.event.command == c && CreateOrder(ops, c, w).1 == Wrote(OnOrder(change.event))
  {
    hide Inv, EventOf, Opened;
    change := Open(Event(w.freshId, 1, CREATED, None, Some(Pending), c, NewHeader(c, w.freshId, w.number)));
  }

  lemma AssignIsChange(ops: Ops, c: Command, w: World) returns (change: Change)
    requires Inv(ops) && GivenOk(ops, c, w) && c.detail.Assign? && AssignOrder(ops, c, w).1.Wrote?
    ensures AssignOrder(ops, c, w).0 == Apply(ops, change) && ChangeOk(ops, change)
    ensures change.Extend? && change.event.command == c && AssignOrder(ops, c, w).1 == Wrote(OnOrder(change.event))
  {
    hide Inv, EventOf, Logged, MaxSequence;
    var row := ops.journal.orders[c.detail.workOrderId];
    var h := HeaderFor(ops, c.detail.workOrderId, w);
    UnnamedSource(ops, c.source);
    NextEventFollows(ops, c, c.detail.workOrderId, ASSIGNED, Some(h.status), Some(h.status), AssignedTo(row, c));
    change := Extend(
      NextEvent(ops, c, c.detail.workOrderId, ASSIGNED, Some(h.status), Some(h.status), AssignedTo(row, c)));
  }

  lemma TransitionIsChange(ops: Ops, c: Command, w: World) returns (change: Change)
    requires Inv(ops) && GivenOk(ops, c, w) && c.detail.Transition? && TransitionOrder(ops, c, w).1.Wrote?
    ensures TransitionOrder(ops, c, w).0 == Apply(ops, change) && ChangeOk(ops, change)
    ensures change.Extend? && change.event.command == c && TransitionOrder(ops, c, w).1 == Wrote(OnOrder(change.event))
  {
    hide Inv, EventOf, Logged, MaxSequence, TransitionAllowed, TransitionEventType, Transitioned;
    var row, to := ops.journal.orders[c.detail.workOrderId], c.detail.target;
    var h := HeaderFor(ops, c.detail.workOrderId, w);
    var t := TransitionEventType(h.status, to);
    UnnamedSource(ops, c.source);
    NextEventFollows(ops, c, c.detail.workOrderId, t, Some(h.status), Some(to), Transitioned(row, c));
    TransitionKeepsId(row, c);
    change := Extend(NextEvent(ops, c, c.detail.workOrderId, t, Some(h.status), Some(to), Transitioned(row, c)));
  }

  lemma TransitionKeepsId(h: Header, c: Command)
    requires c.detail.Transition?
    ensures Transitioned(h, c).id == h.id
  {
  }

  lemma NoteIsChange(ops: Ops, c: Command, w: World) returns (change: Change)
    requires Inv(ops) && GivenOk(ops, c, w) && c.detail.Note? && AppendNote(ops, c, w).1.Wrote?
    ensures AppendNote(ops, c, w).0 == Apply(ops, change) && ChangeOk(ops, change)
    ensures change.Extend? && change.event.command == c && AppendNote(ops, c, w).1 == Wrote(OnOrder(change.event))
  {
    hide Inv, EventOf, Logged, MaxSequence;
    var h := HeaderFor(ops, c.detail.workOrderId, w);
    UnnamedSource(ops, c.source);
    NextEventFollows(ops, c, c.detail.workOrderId, NOTE_ADDED, None, None, h);
    change := Extend(NextEvent(ops, c, c.detail.workOrderId, NOTE_ADDED, None, None, h));
  }

  /** An evidence event never exists without its row. */
  lemma NoOrphanEvidence(ops: Ops, c: Command)
    requires Inv(ops) && c.detail.Evidence? && c.source !in ops.evidenceIndex && EventOf(ops.journal, c.source).Some?
    ensures EventOf(ops.journal, c.source).value.command != c
  {
    hide OrdersOk, EvidencesSourced, RowsFit, SourcesFit, Indexed, EventFits;
    assert EventSourced(ops, c.source);
  }

  lemma EvidenceIsChange(ops: Ops, c: Command, w: World) returns (change: Change)
    requires Inv(ops) && GivenOk(ops, c, w) && c.detail.Evidence? && AppendEvidence(ops, c, w).1.Wrote?
    ensures AppendEvidence(ops, c, w).0 == Apply(ops, change) && ChangeOk(ops, change)
    ensures change.AddEvidence? && change.event.command == c
    ensures AppendEvidence(ops, c, w).1 == Wrote(OnEvidence(change.row, change.event))
  {
    hide Inv, EventOf, Logged, MaxSequence, SameKind, IsSuperseded, EvidenceShaped;
    var d, h := c.detail, HeaderFor(ops, c.detail.workOrderId, w);
    if EventOf(ops.journal, c.source).Some? { NoOrphanEvidence(ops, c); }
    UnnamedSource(ops, c.source);
    NextEventFollows(ops, c, d.workOrderId, EVIDENCE_ATTACHED, None, None, h);
    change := AddEvidence(
      EvidenceRow(w.freshId, c.source, c.actorId, d),
      NextEvent(ops, c, d.workOrderId, EVIDENCE_ATTACHED, None, None, h));
  }

  lemma QuietEventIsLoggable(ops: Ops, c: Command, id: Id, h: Header)
    requires Inv(ops) && HasOrder(ops, id) && Unnamed(ops, c.source) && h.id == ops.journal.orders[id].id
    requires (c.detail.Restrict? && c.detail.linkedOrder == Some(id)) || c.detail.Release?
    ensures Loggable(ops, NextEvent(ops, c, id, QuietEventType(c.detail), None, None, h))
  {
    hide Inv, MaxSequence;
    NextEventFollows(ops, c, id, QuietEventType(c.detail), None, None, h);
  }

  lemma RestrictIsChange(ops: Ops, c: Command, w: World) returns (change: Change)
    requires Inv(ops) && GivenOk(ops, c, w) && c.detail.Restrict? && CreateRestriction(ops, c, w).1.Wrote?
    ensures CreateRestriction(ops, c, w).0 == Apply(ops, change) && ChangeOk(ops, change)
    ensures change.AddRestriction? && change.restriction.created == Envelope(c, change.restriction.current)
    ensures CreateRestriction(ops, c, w).1 == Wrote(OnRestriction(change.restriction.current, change.linked))
  {
    hide Inv, EventOf, LoggedIf, MaxSequence, Loggable, Continues;
    var d := c.detail;
    UnnamedSource(ops, c.source);
    if d.linkedOrder.Some? {
      QuietEventIsLoggable(ops, c, d.linkedOrder.value, HeaderFor(ops, d.linkedOrder.value, w));
    }
    var r := NewRestriction(c, w.freshId, w.now);
    change := AddRestriction(
      RestrictionRow(r, Envelope(c, r), None),
      if d.linkedOrder.None? then None
      else Some(NextEvent(ops, c, d.linkedOrder.value, RESTRICTION_CREATED, None, None,
                          HeaderFor(ops, d.linkedOrder.value, w))));
  }

  lemma RowFacts(ops: Ops, id: Id)
    requires Inv(ops) && id in ops.restrictions
    ensures ops.restrictions[id].current.id == id
    ensures ops.restrictions[id].released.None? <==> ops.restrictions[id].current.status.Active?
  {
    hide JournalOk, EventsSourced, EvidencesSourced, SourcesFit, Linked, LinkFits, NonBlank;
    assert RowFits(ops, id);
  }

  lemma ReleaseIsChange(ops: Ops, c: Command, w: World) returns (change: Change)
    requires Inv(ops) && GivenOk(ops, c, w) && c.detail.Release? && ReleaseRestriction(ops, c, w).1.Wrote?
    ensures ReleaseRestriction(ops, c, w).0 == Apply(ops, change) && ChangeOk(ops, change)
    ensures change.EndRestriction? && change.restriction.released == Some(Envelope(c, change.restriction.current))
    ensures ReleaseRestriction(ops, c, w).1 == Wrote(OnRestriction(change.restriction.current, change.linked))
  {
    hide Inv, EventOf, LoggedIf, MaxSequence, Loggable, Continues, NonBlank, ReleasableFor;
    var row := ops.restrictions[c.detail.restrictionId];
    UnnamedSource(ops, c.source);
    RowFacts(ops, c.detail.restrictionId);
    var order := row.current.workOrderId;
    if order.Some? { QuietEventIsLoggable(ops, c, order.value, HeaderFor(ops, order.value, w)); }
    var r := ReleasedBy(row.current, c, w.now);
    change := EndRestriction(
      row.(current := r, released := Some(Envelope(c, r))),
      if order.None? then None
      else Some(NextEvent(ops, c, order.value, RESTRICTION_RELEASED, None, None, HeaderFor(ops, order.value, w))));
  }

  /** The change a written reply made, under the source of its command. */
  ghost predicate Made(change: Change, c: Command, o: Outcome) {
    match change
    case Open(e) => e.command == c && c.detail.Create? && o == OnOrder(e)
    case Extend(e) => e.command == c && o == OnOrder(e)
    case AddEvidence(row, e) => e.command == c && o == OnEvidence(row, e)
    case AddRestriction(row, e) => row.created == Envelope(c, row.current) && o == OnRestriction(row.current, e)
    case EndRestriction(row, e) =>
      && row.released.Some? && row.released.value.command == c
      && o == OnRestriction(row.released.value.result, e)
  }

  lemma WritingIsChange(ops: Ops, c: Command, w: World) returns (change: Change)
    requires Inv(ops) && GivenOk(ops, c, w) && Execute(ops, c, w).1.Wrote?
    ensures Execute(ops, c, w).0 == Apply(ops, change) && ChangeOk(ops, change)
    ensures Made(change, c, Execute(ops, c, w).1.outcome)
  {
    hide Inv, Apply, ChangeOk, CreateOrder, AssignOrder, TransitionOrder, AppendNote, AppendEvidence;
    hide CreateRestriction, ReleaseRestriction;
    match c.detail
    case Create(_, _, _, _) => change := CreateIsChange(ops, c, w);
    case Assign(_, _, _, _, _, _) => change := AssignIsChange(ops, c, w);
    case Transition(_, _, _, _, _, _) => change := TransitionIsChange(ops, c, w);
    case Note(_, _) => change := NoteIsChange(ops, c, w);
    case Evidence(_, _, _, _, _, _, _, _) => change := EvidenceIsChange(ops, c, w);
    case Restrict(_, _, _, _, _, _, _) => change := RestrictIsChange(ops, c, w);
    case Release(_, _, _, _) => change := ReleaseIsChange(ops, c, w);
  }

  lemma NotWritingChangesNothing(ops: Ops, c: Command, w: World)
    requires !Execute(ops, c, w).1.Wrote?
    ensures Execute(ops, c, w).0 == ops
  {
    hide EventOf, Apply, EvidenceShaped, NonBlank, IsSuperseded, SameKind, NextEvent;
  }

  /* ---- What is recorded under a source ---- */

  function RecordedEvent(ops: Ops, e: Event): Option<Outcome> {
    var s := e.command.source;
    match e.command.detail
    case Evidence(_, _, _, _, _, _, _, _) =>
      if s in ops.evidenceIndex && ops.evidenceIndex[s] in ops.evidence
      then Some(OnEvidence(ops.evidence[ops.evidenceIndex[s]], e)) else None
    case Restrict(_, _, _, _, _, _, _) => RecordedRestriction(ops, s, Some(e))
    case Release(_, _, _, _) => RecordedRelease(ops, s, Some(e))
    case _ => Some(OnOrder(e))
  }

  function RecordedRestriction(ops: Ops, s: Source, e: Option<Event>): Option<Outcome> {
    if s in ops.starts && ops.starts[s] in ops.restrictions
    then Some(OnRestriction(ops.restrictions[ops.starts[s]].created.result, e)) else None
  }

  function RecordedRelease(ops: Ops, s: Source, e: Option<Event>): Option<Outcome> {
    if s in ops.releases && ops.releases[s] in ops.restrictions && ops.restrictions[ops.releases[s]].released.Some?
    then Some(OnRestriction(ops.restrictions[ops.releases[s]].released.value.result, e)) else None
  }

  /** The command a source names. */
  function CommandOf(ops: Ops, s: Source): Option<Command> {
    if EventOf(ops.journal, s).Some? then Some(EventOf(ops.journal, s).value.command)
    else if s in ops.starts && ops.starts[s] in ops.restrictions
    then Some(ops.restrictions[ops.starts[s]].created.command)
    else if s in ops.releases && ops.releases[s] in ops.restrictions && ops.restrictions[ops.releases[s]].released.Some?
    then Some(ops.restrictions[ops.releases[s]].released.value.command)
    else None
  }

  /** What that command returned. */
  function OutcomeOf(ops: Ops, s: Source): Option<Outcome> {
    if EventOf(ops.journal, s).Some? then RecordedEvent(ops, EventOf(ops.journal, s).value)
    else if s in ops.starts then RecordedRestriction(ops, s, None)
    else RecordedRelease(ops, s, None)
  }

  /* ---- Recorded commands decide ---- */

  lemma EventFacts(ops: Ops, s: Source)
    requires Inv(ops) && EventOf(ops.journal, s).Some?
    ensures EventSourced(ops, s) && s in ops.journal.index
  {
    hide OrdersOk, EvidencesSourced, RowsFit, SourcesFit, EventSourced, Indexed;
  }

  lemma CreateReplays(ops: Ops, c: Command, w: World)
    requires Inv(ops) && c.detail.Create? && CommandOf(ops, c.source).Some?
    ensures !CreateOrder(ops, c, w).1.Wrote?
    ensures CommandOf(ops, c.source) == Some(c) && !w.busy && w.rowsExist ==>
      OutcomeOf(ops, c.source).Some? && CreateOrder(ops, c, w).1 == Replayed(OutcomeOf(ops, c.source).value)
    ensures CommandOf(ops, c.source) != Some(c) ==> CreateOrder(ops, c, w).1.Refused?
  {
    hide JournalOk, EventsSourced, EvidencesSourced, RowsFit, SourcesFit, EventOf, Opened;
    if EventOf(ops.journal, c.source).Some? { EventFacts(ops, c.source); }
    RestrictionNames(ops, c.source);
    if c.source in ops.created && EventOf(ops.journal, c.source).None? { IndexedMeansEvent(ops, c.source); }
  }

  /** A source in the index of created orders or of evidence names an event. */
  lemma IndexedMeansEvent(ops: Ops, s: Source)
    requires Inv(ops) && (s in ops.created || s in ops.evidenceIndex || s in ops.journal.index)
    ensures EventOf(ops.journal, s).Some?
  {
    hide OrdersOk, EvidencesSourced, RowsFit, SourcesFit, Indexed;
    assert s in ops.journal.index;
    assert EventSourced(ops, s);
  }

  /** What the restriction tables say about a source. */
  lemma RestrictionFacts(ops: Ops, s: Source)
    requires Inv(ops)
    ensures s in ops.starts ==>
      && s !in ops.releases && ops.starts[s] in ops.restrictions
      && ops.restrictions[ops.starts[s]].created.command.source == s
      && CreationFits(ops, ops.starts[s], ops.restrictions[ops.starts[s]])
    ensures s in ops.releases ==>
      && ops.releases[s] in ops.restrictions && ops.restrictions[ops.releases[s]].released.Some?
      && ops.restrictions[ops.releases[s]].released.value.command.source == s
      && ReleaseFits(ops, ops.releases[s], ops.restrictions[ops.releases[s]])
  {
    hide JournalOk, EventsSourced, EvidencesSourced, CreationFits, ReleaseFits;
    if s in ops.starts {
      assert StartFits(ops, s);
      assert RowFits(ops, ops.starts[s]);
    }
    if s in ops.releases {
      assert EndFits(ops, s);
      assert RowFits(ops, ops.releases[s]);
    }
  }

  lemma AssignReplays(ops: Ops, c: Command, w: World)
    requires Inv(ops) && c.detail.Assign? && CommandOf(ops, c.source).Some?
    ensures !AssignOrder(ops, c, w).1.Wrote?
    ensures CommandOf(ops, c.source) == Some(c) && !w.busy && w.rowsExist ==>
      OutcomeOf(ops, c.source).Some? && AssignOrder(ops, c, w).1 == Replayed(OutcomeOf(ops, c.source).value)
    ensures CommandOf(ops, c.source) != Some(c) ==> AssignOrder(ops, c, w).1.Refused?
  {
    hide JournalOk, EventsSourced, EvidencesSourced, RowsFit, SourcesFit, EventOf, Apply, NextEvent, CreationFits;
    hide ReleaseFits;
    hide TransitionAllowed, TransitionEventType;
    if EventOf(ops.journal, c.source).Some? { EventFacts(ops, c.source); }
    RestrictionNames(ops, c.source);
  }

  lemma TransitionReplays(ops: Ops, c: Command, w: World)
    requires Inv(ops) && c.detail.Transition? && CommandOf(ops, c.source).Some?
    ensures !TransitionOrder(ops, c, w).1.Wrote?
    ensures CommandOf(ops, c.source) == Some(c) && !w.busy && w.rowsExist ==>
      OutcomeOf(ops, c.source).Some? && TransitionOrder(ops, c, w).1 == Replayed(OutcomeOf(ops, c.source).value)
    ensures CommandOf(ops, c.source) != Some(c) ==> TransitionOrder(ops, c, w).1.Refused?
  {
    hide JournalOk, EventsSourced, EvidencesSourced, RowsFit, SourcesFit, EventOf, Apply, NextEvent, CreationFits;
    hide ReleaseFits;
    hide TransitionAllowed, TransitionEventType;
    if EventOf(ops.journal, c.source).Some? { EventFacts(ops, c.source); }
    RestrictionNames(ops, c.source);
  }

  lemma NoteReplays(ops: Ops, c: Command, w: World)
    requires Inv(ops) && c.detail.Note? && CommandOf(ops, c.source).Some?
    ensures !AppendNote(ops, c, w).1.Wrote?
    ensures CommandOf(ops, c.source) == Some(c) && !w.busy && w.rowsExist ==>
      OutcomeOf(ops, c.source).Some? && AppendNote(ops, c, w).1 == Replayed(OutcomeOf(ops, c.source).value)
    ensures CommandOf(ops, c.source) != Some(c) ==> AppendNote(ops, c, w).1.Refused?
  {
    hide JournalOk, EventsSourced, EvidencesSourced, RowsFit, SourcesFit, EventOf, Apply, NextEvent, CreationFits;
    hide ReleaseFits;
    hide TransitionAllowed, TransitionEventType;
    if EventOf(ops.journal, c.source).Some? { EventFacts(ops, c.source); }
    RestrictionNames(ops, c.source);
  }

  /** A restriction source names a restriction command. */
  lemma RestrictionNames(ops: Ops, s: Source)
    requires Inv(ops)
    ensures s in ops.starts ==>
      && s !in ops.releases && ops.starts[s] in ops.restrictions
      && ops.restrictions[ops.starts[s]].created.command.detail.Restrict?
    ensures s in ops.releases ==>
      && ops.releases[s] in ops.restrictions && ops.restrictions[ops.releases[s]].released.Some?
      && ops.restrictions[ops.releases[s]].released.value.command.detail.Release?
  {
    hide Inv, NonBlank, Linked, LinkFits;
    RestrictionFacts(ops, s);
  }

  lemma EvidenceFacts(ops: Ops, s: Source)
    requires Inv(ops) && s in ops.evidenceIndex
    ensures EvidenceSourced(ops, s) && HasOrder(ops, EventOf(ops.journal, s).value.workOrderId)
    ensures EventOf(ops.journal, s).Some?
  {
    hide EventSourced, RowsFit, SourcesFit, OrderOk;
    IndexedMeansEvent(ops, s);
    assert EvidenceSourced(ops, s);
    EventHasOrder(ops, s);
  }

  lemma EventHasOrder(ops: Ops, s: Source)
    requires Inv(ops) && EventOf(ops.journal, s).Some?
    ensures HasOrder(ops, EventOf(ops.journal, s).value.workOrderId)
  {
    hide EventsSourced, EvidencesSourced, RowsFit, SourcesFit, IndexOk, LogOk, Fold;
    var p := ops.journal.index[s];
    assert OrderOk(ops.journal, p.workOrderId);
    ResultsOfMovesAreFolds(ops.journal.logs[p.workOrderId], p.index);
  }

  lemma EvidenceReplays(ops: Ops, c: Command, w: World)
    requires Inv(ops) && c.detail.Evidence? && CommandOf(ops, c.source).Some?
    ensures !AppendEvidence(ops, c, w).1.Wrote?
    ensures CommandOf(ops, c.source) == Some(c) && !w.busy && w.rowsExist ==>
      OutcomeOf(ops, c.source).Some? && AppendEvidence(ops, c, w).1 == Replayed(OutcomeOf(ops, c.source).value)
    ensures CommandOf(ops, c.source) != Some(c) ==> AppendEvidence(ops, c, w).1.Refused?
  {
    hide JournalOk, EventsSourced, EvidencesSourced, RowsFit, SourcesFit, EventOf, Apply, NextEvent;
    hide EvidenceShaped, IsSuperseded, SameKind, CreationFits, ReleaseFits, Linked, LinkFits;
    if EventOf(ops.journal, c.source).Some? { EventFacts(ops, c.source); }
    if c.source in ops.evidenceIndex { EvidenceFacts(ops, c.source); }
    RestrictionNames(ops, c.source);
  }

  lemma RestrictReplays(ops: Ops, c: Command, w: World)
    requires Inv(ops) && GivenOk(ops, c, w) && c.detail.Restrict? && CommandOf(ops, c.source).Some?
    ensures !CreateRestriction(ops, c, w).1.Wrote?
    ensures CommandOf(ops, c.source) == Some(c) && !w.busy && w.rowsExist ==>
      OutcomeOf(ops, c.source).Some? && CreateRestriction(ops, c, w).1 == Replayed(OutcomeOf(ops, c.source).value)
    ensures CommandOf(ops, c.source) != Some(c) ==> CreateRestriction(ops, c, w).1.Refused?
  {
    hide JournalOk, EventsSourced, EvidencesSourced, RowsFit, SourcesFit, EventOf, Apply, NextEvent;
    if EventOf(ops.journal, c.source).Some? { EventFacts(ops, c.source); }
    if EventOf(ops.journal, c.source).None? && c.source in ops.journal.index { IndexedMeansEvent(ops, c.source); }
    RestrictionFacts(ops, c.source);
  }

  lemma ReleaseReplays(ops: Ops, c: Command, w: World)
    requires Inv(ops) && c.detail.Release? && CommandOf(ops, c.source).Some?
    ensures !ReleaseRestriction(ops, c, w).1.Wrote?
    ensures CommandOf(ops, c.source) == Some(c) && !w.busy && w.rowsExist ==>
      OutcomeOf(ops, c.source).Some? && ReleaseRestriction(ops, c, w).1 == Replayed(OutcomeOf(ops, c.source).value)
    ensures CommandOf(ops, c.source) != Some(c) ==> ReleaseRestriction(ops, c, w).1.Refused?
  {
    hide JournalOk, EventsSourced, EvidencesSourced, RowsFit, SourcesFit, EventOf, Apply, NextEvent, NonBlank;
    hide ReleasableFor;
    hide LinkFits;
    if EventOf(ops.journal, c.source).Some? { EventFacts(ops, c.source); }
    if EventOf(ops.journal, c.source).None? && c.source in ops.journal.index { IndexedMeansEvent(ops, c.source); }
    RestrictionFacts(ops, c.source);
  }

  /** A named source accepts only the command it names, and that one replays. */
  lemma RecordedDecides(ops: Ops, c: Command, w: World)
    requires Inv(ops) && GivenOk(ops, c, w) && CommandOf(ops, c.source).Some?
    ensures Execute(ops, c, w).0 == ops
    ensures CommandOf(ops, c.source) == Some(c) && !w.busy && w.rowsExist ==>
      OutcomeOf(ops, c.source).Some? && Execute(ops, c, w).1 == Replayed(OutcomeOf(ops, c.source).value)
    ensures CommandOf(ops, c.source) != Some(c) ==> Execute(ops, c, w).1.Refused?
  {
    hide Inv, CommandOf, OutcomeOf, CreateOrder, AssignOrder, TransitionOrder, AppendNote, AppendEvidence;
    hide CreateRestriction, ReleaseRestriction;
    match c.detail {
      case Create(_, _, _, _) => CreateReplays(ops, c, w);
      case Evidence(_, _, _, _, _, _, _, _) => EvidenceReplays(ops, c, w);
      case Restrict(_, _, _, _, _, _, _) => RestrictReplays(ops, c, w);
      case Release(_, _, _, _) => ReleaseReplays(ops, c, w);
      case Assign(_, _, _, _, _, _) => AssignReplays(ops, c, w);
      case Transition(_, _, _, _, _, _) => TransitionReplays(ops, c, w);
      case Note(_, _) => NoteReplays(ops, c, w);
    }
    NotWritingChangesNothing(ops, c, w);
  }
}
