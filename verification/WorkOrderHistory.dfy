/** What a command returned at first is returned for ever, over every run of lock handles and commands. */
module WorkOrderHistory {
  import opened Wrappers
  import opened AssetTypes
  import opened WorkOrders
  import opened WorkOrderCommands
  import opened WorkOrderInvariants
  import opened WorkOrderReplay
  import opened WorkOrderSessions

  /* ---- What is recorded stays recorded ---- */

  /** The command and outcome recorded under a source. */
  ghost predicate Records(ops: Ops, s: Source, c: Command, o: Outcome) {
    CommandOf(ops, s) == Some(c) && OutcomeOf(ops, s) == Some(o)
  }

  /** The journal part of a change. */
  ghost predicate JournalGrows(j: Journal, after: Journal, e: Option<Event>) {
    forall s :: EventOf(after, s) == if e.Some? && s == e.value.command.source then e else EventOf(j, s)
  }

  lemma OneMoreGrows(j: Journal, after: Journal, e: Event)
    requires OneMore(j, after, e)
    ensures JournalGrows(j, after, Some(e))
  {
    hide EventOf, JournalOk;
  }

  lemma ChangeGrowsJournal(ops: Ops, change: Change)
    requires Inv(ops) && ChangeOk(ops, change)
    ensures JournalGrows(ops.journal, Apply(ops, change).journal, EventIn(change))
  {
    hide OneMore, OpensLog, Continues, JournalOk, EventsSourced, EvidencesSourced, RowsFit, SourcesFit, EventOf;
    hide EvidenceShaped, SameKind, IsSuperseded, NonBlank;
    match change
    case Open(e) =>
      OpenedIsOneMore(ops, e);
      OneMoreGrows(ops.journal, Opened(ops.journal, e), e);
    case Extend(e) =>
      LoggedIsOneMore(ops, e);
      OneMoreGrows(ops.journal, Logged(ops.journal, e), e);
    case AddEvidence(_, e) =>
      LoggedIsOneMore(ops, e);
      OneMoreGrows(ops.journal, Logged(ops.journal, e), e);
    case AddRestriction(_, e) =>
      if e.Some? {
        LoggedIsOneMore(ops, e.value);
        OneMoreGrows(ops.journal, Logged(ops.journal, e.value), e.value);
      }
    case EndRestriction(_, e) =>
      if e.Some? {
        LoggedIsOneMore(ops, e.value);
        OneMoreGrows(ops.journal, Logged(ops.journal, e.value), e.value);
      }
  }

  lemma SourceWasFree(ops: Ops, change: Change, c: Command, o: Outcome)
    requires Inv(ops) && ChangeOk(ops, change) && Made(change, c, o)
    ensures Unnamed(ops, c.source)
    ensures EventIn(change).Some? ==> EventIn(change).value.command == c
    ensures EventOf(ops.journal, c.source).None? && c.source !in ops.evidenceIndex
  {
    hide Continues, OpensLog, EvidenceShaped, SameKind, IsSuperseded, NonBlank;
    hide JournalOk, EvidencesSourced, RowsFit, SourcesFit, EventSourced;
    IndexesCover(ops, c.source);
  }

  lemma ChangeRecords(ops: Ops, change: Change, c: Command, o: Outcome)
    requires Inv(ops) && ChangeOk(ops, change) && Made(change, c, o)
    ensures Records(Apply(ops, change), c.source, c, o)
  {
    hide Inv, EventOf, Logged, LoggedIf, Opened, Loggable, EvidenceShaped, SameKind, IsSuperseded, NonBlank, OpensLog;
    SourceWasFree(ops, change, c, o);
    ChangeGrowsJournal(ops, change);
    if change.Extend? { ExtendsWithOrderCommand(ops, change); }
  }

  lemma ExtendsWithOrderCommand(ops: Ops, change: Change)
    requires ChangeOk(ops, change) && change.Extend?
    ensures var d := change.event.command.detail; d.Assign? || d.Transition? || d.Note?
  {
  }

  lemma ReleaseKeepsCreation(ops: Ops, change: Change)
    requires ChangeOk(ops, change) && change.EndRestriction?
    ensures var row := change.restriction;
      && row.current.id in ops.restrictions && row.created == ops.restrictions[row.current.id].created
      && ops.restrictions[row.current.id].released.None?
  {
  }

  /** An index on sources gains at most one source. */
  ghost predicate IndexGrows(before: map<Source, Id>, after: map<Source, Id>, added: Source) {
    && (forall s :: s != added ==> (s in after <==> s in before))
    && (forall s :: s in before && s != added ==> after[s] == before[s])
  }

  ghost predicate RowsGrow(ops: Ops, after: Ops) {
    && (forall id :: id in ops.evidence ==> id in after.evidence && after.evidence[id] == ops.evidence[id])
    && (forall id :: id in ops.restrictions ==>
          && id in after.restrictions && after.restrictions[id].created == ops.restrictions[id].created
          && (ops.restrictions[id].released.Some? ==> after.restrictions[id].released == ops.restrictions[id].released))
  }

  /** What the tables hold under the sources they hold stays. */
  ghost predicate TablesGrow(ops: Ops, after: Ops, added: Source) {
    && IndexGrows(ops.evidenceIndex, after.evidenceIndex, added)
    && IndexGrows(ops.starts, after.starts, added) && IndexGrows(ops.releases, after.releases, added)
    && RowsGrow(ops, after)
  }

  lemma ChangeGrowsIndexes(ops: Ops, change: Change, c: Command, o: Outcome)
    requires ChangeOk(ops, change) && Made(change, c, o)
    ensures var after := Apply(ops, change);
      && IndexGrows(ops.evidenceIndex, after.evidenceIndex, c.source)
      && IndexGrows(ops.starts, after.starts, c.source) && IndexGrows(ops.releases, after.releases, c.source)
  {
    hide Logged, LoggedIf, Opened, ChangeOk;
    if change.AddRestriction? || change.AddEvidence? { FreshRow(ops, change); }
  }

  lemma ChangeGrowsRows(ops: Ops, change: Change)
    requires ChangeOk(ops, change)
    ensures RowsGrow(ops, Apply(ops, change))
  {
    hide Logged, LoggedIf, Opened, ChangeOk;
    if change.EndRestriction? { ReleaseKeepsCreation(ops, change); }
    if change.AddRestriction? || change.AddEvidence? { FreshRow(ops, change); }
  }

  lemma ChangeGrowsTables(ops: Ops, change: Change, c: Command, o: Outcome)
    requires ChangeOk(ops, change) && Made(change, c, o)
    ensures TablesGrow(ops, Apply(ops, change), c.source)
  {
    hide Apply, ChangeOk, Made, IndexGrows, RowsGrow;
    ChangeGrowsIndexes(ops, change, c, o);
    ChangeGrowsRows(ops, change);
  }

  lemma EventRecordStays(ops: Ops, after: Ops, added: Source, s: Source, c0: Command, o0: Outcome)
    requires TablesGrow(ops, after, added) && s != added && Records(ops, s, c0, o0)
    requires EventOf(ops.journal, s).Some? && EventOf(ops.journal, s).value.command.source == s
    requires EventOf(after.journal, s) == EventOf(ops.journal, s)
    ensures Records(after, s, c0, o0)
  {
    hide EventOf;
  }

  lemma QuietRecordStays(ops: Ops, after: Ops, added: Source, s: Source, c0: Command, o0: Outcome)
    requires TablesGrow(ops, after, added) && s != added && Records(ops, s, c0, o0)
    requires EventOf(ops.journal, s).None? && EventOf(after.journal, s).None?
    ensures Records(after, s, c0, o0)
  {
    hide EventOf, RecordedEvent;
  }

  lemma RecordedIsNamed(ops: Ops, s: Source, c0: Command, o0: Outcome)
    requires Records(ops, s, c0, o0) && EventOf(ops.journal, s).None?
    ensures s in ops.starts || s in ops.releases
  {
  }

  lemma ChangeRemembers(ops: Ops, change: Change, c: Command, o: Outcome, s: Source, c0: Command, o0: Outcome)
    requires Inv(ops) && ChangeOk(ops, change) && Made(change, c, o) && Records(ops, s, c0, o0)
    ensures Records(Apply(ops, change), s, c0, o0)
  {
    hide Inv, EventOf, ChangeOk, Apply, Records, Made, EventIn, TablesGrow;
    SourceWasFree(ops, change, c, o);
    ChangeGrowsJournal(ops, change);
    ChangeGrowsTables(ops, change, c, o);
    if EventOf(ops.journal, s).Some? {
      EventFacts(ops, s);
      EventNamesItsSource(ops, s);
      EventRecordStays(ops, Apply(ops, change), c.source, s, c0, o0);
    } else {
      RecordedIsNamed(ops, s, c0, o0);
      QuietRecordStays(ops, Apply(ops, change), c.source, s, c0, o0);
    }
  }

  lemma EventNamesItsSource(ops: Ops, s: Source)
    requires EventSourced(ops, s)
    ensures EventOf(ops.journal, s).Some? && EventOf(ops.journal, s).value.command.source == s
  {
  }

  lemma FreshRow(ops: Ops, change: Change)
    requires ChangeOk(ops, change)
    ensures change.AddRestriction? ==> change.restriction.current.id !in ops.restrictions
    ensures change.AddEvidence? ==> change.row.id !in ops.evidence && change.row.source == change.event.command.source
  {
  }

  lemma ExecuteRemembers(ops: Ops, c: Command, w: World, s: Source, c0: Command, o0: Outcome)
    requires Inv(ops) && GivenOk(ops, c, w) && Records(ops, s, c0, o0)
    ensures Records(Execute(ops, c, w).0, s, c0, o0)
  {
    hide Inv, Execute, ChangeOk, Apply, Records, Made, GivenOk;
    if Execute(ops, c, w).1.Wrote? {
      var change := WritingIsChange(ops, c, w);
      ChangeRemembers(ops, change, c, Execute(ops, c, w).1.outcome, s, c0, o0);
    } else {
      NotWritingChangesNothing(ops, c, w);
    }
  }

  lemma PerformRemembers(x: Session, step: Step, s: Source, c0: Command, o0: Outcome)
    requires SessionInv(x) && Records(x.ops, s, c0, o0)
    ensures Records(Perform(x, step).ops, s, c0, o0)
  {
    hide Inv, HandleOk, Execute, Records, GivenOk, Given;
    if step.Do? {
      GivenIsOk(x, step);
      ExecuteRemembers(x.ops, step.command, Given(x, step), s, c0, o0);
    }
  }

  lemma {:induction false} RunRemembers(x: Session, steps: seq<Step>, s: Source, c0: Command, o0: Outcome)
    requires SessionInv(x) && Records(x.ops, s, c0, o0)
    ensures Records(Run(x, steps).ops, s, c0, o0)
    decreases |steps|
  {
    hide SessionInv, Perform, Records;
    if steps != [] {
      PerformKeepsInv(x, steps[0]);
      PerformRemembers(x, steps[0], s, c0, o0);
      RunRemembers(Perform(x, steps[0]), steps[1..], s, c0, o0);
    }
  }

  /** A command that writes is recorded under its source with its outcome. */
  lemma WritingIsRecorded(x: Session, step: Step)
    requires SessionInv(x) && step.Do? && ReplyTo(x, step).Wrote?
    ensures Records(Perform(x, step).ops, step.command.source, step.command, ReplyTo(x, step).outcome)
  {
    hide Inv, HandleOk, Execute, ChangeOk, Apply, Made, Records, GivenOk, Given;
    var c, w := step.command, Given(x, step);
    GivenIsOk(x, step);
    var change := WritingIsChange(x.ops, c, w);
    ChangeRecords(x.ops, change, c, Execute(x.ops, c, w).1.outcome);
  }

  lemma RecordDecides(x: Session, step: Step, s: Source, c0: Command, o0: Outcome)
    requires SessionInv(x) && step.Do? && Records(x.ops, s, c0, o0) && step.command.source == s
    ensures Perform(x, step).ops == x.ops
    ensures step.command == c0 && !step.world.busy && step.world.rowsExist ==> ReplyTo(x, step) == Replayed(o0)
    ensures step.command != c0 ==> ReplyTo(x, step).Refused?
  {
    hide Inv, HandleOk, Execute, CommandOf, OutcomeOf, GivenOk, HeaderIn;
    GivenIsOk(x, step);
    RecordedDecides(x.ops, step.command, Given(x, step));
  }

  /**
   A source names at most one command, of whatever kind: once a command wrote, at any later state
   the same command on that source returns the outcome it returned at first, whatever handle it is
   given, and no other command on that source is accepted. The tables stay what they are either way.
   */
  lemma SourceNamesOneCommand(steps: seq<Step>, step: Step, more: seq<Step>, step': Step)
    requires step.Do? && step'.Do? && ReplyTo(Run(START, steps), step).Wrote?
    requires step'.command.source == step.command.source
    ensures var now := Run(START, steps);
      var later := Run(Perform(now, step), more);
      && Perform(later, step').ops == later.ops
      && (step'.command == step.command && !step'.world.busy && step'.world.rowsExist ==>
            ReplyTo(later, step') == Replayed(ReplyTo(now, step).outcome))
      && (step'.command != step.command ==> ReplyTo(later, step').Refused?)
  {
    hide SessionInv, Run, Perform, Records, ReplyTo;
    var now := Run(START, steps);
    InvHolds(steps);
    WritingIsRecorded(now, step);
    PerformKeepsInv(now, step);
    var next := Perform(now, step);
    RunKeepsInv(next, more);
    RunRemembers(next, more, step.command.source, step.command, ReplyTo(now, step).outcome);
    RecordDecides(Run(next, more), step', step.command.source, step.command, ReplyTo(now, step).outcome);
  }
}
