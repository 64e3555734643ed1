/** What holds along every run of lock handles and commands. */
module WorkOrderSessions {
  import opened Wrappers
  import opened AssetTypes
  import opened WorkOrders
  import opened WorkOrderCommands
  import opened WorkOrderInvariants
  import opened WorkOrderReplay

  lemma ExecuteKeepsInv(ops: Ops, c: Command, w: World)
    requires Inv(ops) && GivenOk(ops, c, w)
    ensures Inv(Execute(ops, c, w).0)
  {
    hide Inv, Execute, ChangeOk, Apply, GivenOk;
    if Execute(ops, c, w).1.Wrote? {
      var change := WritingIsChange(ops, c, w);
      ChangeKeepsInv(ops, change);
    } else {
      NotWritingChangesNothing(ops, c, w);
    }
  }

  /* ---- Orders and their logs ---- */

  lemma OrderIsOk(ops: Ops, id: Id)
    requires Inv(ops) && (id in ops.journal.orders || id in ops.journal.logs)
    ensures HasOrder(ops, id) && OrderOk(ops.journal, id) && ops.journal.logs[id] != []
  {
    hide EventsSourced, EvidencesSourced, RowsFit, SourcesFit, IndexOk, LogOk, Fold;
    assert OrderOk(ops.journal, id);
    LogIsNotEmpty(ops.journal.logs[id]);
  }

  /** Logs only ever grow at their end. */
  ghost predicate LogsGrow(j: Journal, after: Journal) {
    forall id :: id in j.logs ==> id in after.logs && j.logs[id] <= after.logs[id]
  }

  lemma ChangeGrowsLogs(ops: Ops, change: Change)
    requires ChangeOk(ops, change)
    ensures LogsGrow(ops.journal, Apply(ops, change).journal)
  {
    hide Continues, OpensLog, EvidenceShaped, SameKind, IsSuperseded, NonBlank;
  }

  lemma ExecuteGrowsLogs(ops: Ops, c: Command, w: World)
    requires Inv(ops) && GivenOk(ops, c, w)
    ensures LogsGrow(ops.journal, Execute(ops, c, w).0.journal)
  {
    hide Inv, Execute, ChangeOk, Apply, Made, GivenOk;
    if Execute(ops, c, w).1.Wrote? {
      var change := WritingIsChange(ops, c, w);
      ChangeGrowsLogs(ops, change);
    } else {
      NotWritingChangesNothing(ops, c, w);
    }
  }

  /* ---- Handles ---- */

  /** An unspent handle keeps the header its order had when it was taken. */
  ghost predicate HandleOk(s: Session, n: nat)
    requires n in s.handles
  {
    var id := s.handles[n].workOrderId;
    && n in s.takenAt && HasOrder(s.ops, id)
    && 0 < s.takenAt[n] <= |s.ops.journal.logs[id]|
    && s.handles[n].header == Fold(s.ops.journal.logs[id][..s.takenAt[n]])
  }

  ghost predicate SessionInv(s: Session) {
    Inv(s.ops) && forall n :: n in s.handles ==> HandleOk(s, n)
  }

  lemma HandleStandsForItsOrder(s: Session, n: nat)
    requires Inv(s.ops) && n in s.handles && HandleOk(s, n)
    ensures var id := s.handles[n].workOrderId;
      HasOrder(s.ops, id) && SameOrder(s.handles[n].header, s.ops.journal.orders[id])
  {
    hide Inv, LogOk, Fold, SameOrder;
    var id := s.handles[n].workOrderId;
    OrderIsOk(s.ops, id);
    PrefixIsSameOrder(s.ops.journal.logs[id], s.takenAt[n]);
  }

  lemma GivenIsOk(s: Session, step: Step)
    requires SessionInv(s) && step.Do?
    ensures GivenOk(s.ops, step.command, Given(s, step))
  {
    hide Inv, Fold, SameOrder, OrderNamed;
    if Given(s, step).locked.Some? { HandleStandsForItsOrder(s, step.handle.value); }
  }

  lemma HandleStays(s: Session, after: Session, n: nat)
    requires Inv(after.ops) && LogsGrow(s.ops.journal, after.ops.journal)
    requires n in s.handles && n in after.handles && after.handles[n] == s.handles[n]
    requires HandleOk(s, n) && n in after.takenAt && after.takenAt[n] == s.takenAt[n]
    ensures HandleOk(after, n)
  {
    hide Inv, Fold;
    var id := s.handles[n].workOrderId;
    var log, longer := s.ops.journal.logs[id], after.ops.journal.logs[id];
    OrderIsOk(after.ops, id);
    assert longer[..s.takenAt[n]] == log[..s.takenAt[n]];
  }

  lemma TakeKeepsInv(s: Session, step: Step)
    requires SessionInv(s) && step.Take?
    ensures SessionInv(Perform(s, step))
  {
    hide Inv, Fold, LogOk;
    var after := Perform(s, step);
    forall n | n in after.handles
      ensures HandleOk(after, n)
    {
      if n in s.handles {
        HandleStays(s, after, n);
      } else {
        var log := s.ops.journal.logs[step.workOrderId];
        OrderIsOk(s.ops, step.workOrderId);
        assert log[..|log|] == log;
      }
    }
  }

  lemma DoKeepsInv(s: Session, step: Step)
    requires SessionInv(s) && step.Do?
    ensures SessionInv(Perform(s, step)) && LogsGrow(s.ops.journal, Perform(s, step).ops.journal)
  {
    hide Inv, Fold, HandleOk, Execute, GivenOk, Given;
    GivenIsOk(s, step);
    ExecuteKeepsInv(s.ops, step.command, Given(s, step));
    ExecuteGrowsLogs(s.ops, step.command, Given(s, step));
    var after := Perform(s, step);
    forall n | n in after.handles
      ensures HandleOk(after, n)
    {
      assert HandleOk(s, n);
      assert n in s.takenAt by { TakenAt(s, n); }
      HandleStays(s, after, n);
    }
  }

  lemma TakenAt(s: Session, n: nat)
    requires n in s.handles && HandleOk(s, n)
    ensures n in s.takenAt
  {
    hide Fold;
  }

  lemma PerformKeepsInv(s: Session, step: Step)
    requires SessionInv(s)
    ensures SessionInv(Perform(s, step)) && LogsGrow(s.ops.journal, Perform(s, step).ops.journal)
  {
    hide SessionInv;
    if step.Take? {
      TakeKeepsInv(s, step);
      TakeChangesNoTable(s, step);
    } else {
      DoKeepsInv(s, step);
    }
  }

  lemma TakeChangesNoTable(s: Session, step: Step)
    requires step.Take?
    ensures Perform(s, step).ops == s.ops
  {
  }

  lemma {:induction false} RunKeepsInv(s: Session, steps: seq<Step>)
    requires SessionInv(s)
    ensures SessionInv(Run(s, steps)) && LogsGrow(s.ops.journal, Run(s, steps).ops.journal)
    decreases |steps|
  {
    hide SessionInv, Perform;
    if steps != [] {
      PerformKeepsInv(s, steps[0]);
      RunKeepsInv(Perform(s, steps[0]), steps[1..]);
    }
  }

  lemma StartIsOk()
    ensures SessionInv(START)
  {
  }

  /** What every run from empty tables keeps. */
  lemma InvHolds(steps: seq<Step>)
    ensures SessionInv(Run(START, steps)) && Inv(Run(START, steps).ops)
  {
    hide Run;
    StartIsOk();
    RunKeepsInv(START, steps);
  }

  /* ---- The header a command stores ---- */

  /** The event an outcome carries, if it carries one. */
  function EventOfOutcome(o: Outcome): Option<Event> {
    match o
    case OnOrder(e) => Some(e)
    case OnEvidence(_, e) => Some(e)
    case OnRestriction(_, e) => e
  }

  function EventIn(change: Change): Option<Event> {
    match change
    case Open(e) => Some(e)
    case Extend(e) => Some(e)
    case AddEvidence(_, e) => Some(e)
    case AddRestriction(_, e) => e
    case EndRestriction(_, e) => e
  }

  lemma MadeEvent(change: Change, c: Command, o: Outcome)
    requires Made(change, c, o)
    ensures EventIn(change) == EventOfOutcome(o)
  {
  }

  lemma EventIsLoggable(ops: Ops, change: Change)
    requires ChangeOk(ops, change) && !change.Open? && EventIn(change).Some?
    ensures Loggable(ops, EventIn(change).value)
  {
    hide Loggable, EvidenceShaped, SameKind, IsSuperseded, NonBlank;
  }

  predicate Quiet(d: Detail) { !d.Create? && !IsMove(d) }

  /** A command that moves nothing logs its event on the order it names, with the header it worked with. */
  lemma QuietHeader(ops: Ops, c: Command, w: World)
    requires Inv(ops) && GivenOk(ops, c, w) && Execute(ops, c, w).1.Wrote? && Quiet(c.detail)
    ensures var e, order := EventOfOutcome(Execute(ops, c, w).1.outcome), OrderNamed(ops, c);
      && (e.Some? <==> order.Some?)
      && (e.Some? ==> && HasOrder(ops, order.value) && e.value.workOrderId == order.value && e.value.command == c
                      && e.value.result == HeaderFor(ops, order.value, w))
  {
    hide Inv, EventOf, Apply, EvidenceShaped, SameKind, IsSuperseded, NonBlank, ReleasableFor, MaxSequence, GivenOk;
    if c.detail.Evidence? && EventOf(ops.journal, c.source).Some? && c.source !in ops.evidenceIndex {
      NoOrphanEvidence(ops, c);
    }
  }

  /** The command stores a header read through a handle that is older than the last move of the order. */
  ghost predicate UsesStale(s: Session, step: Step) {
    && step.Do? && Quiet(step.command.detail) && ReplyTo(s, step).Wrote?
    && Given(s, step).locked.Some? && step.handle.value in s.takenAt
    && var id := s.handles[step.handle.value].workOrderId;
       id in s.ops.journal.logs && !UnmovedSince(s.ops.journal.logs[id], s.takenAt[step.handle.value])
  }

  lemma HandleIsCurrentExactlyWhen(s: Session, n: nat)
    requires Inv(s.ops) && n in s.handles && HandleOk(s, n)
    ensures var id := s.handles[n].workOrderId;
      && HasOrder(s.ops, id) && n in s.takenAt
      && (s.handles[n].header == s.ops.journal.orders[id] <==> UnmovedSince(s.ops.journal.logs[id], s.takenAt[n]))
  {
    hide Inv, LogOk, Fold, UnmovedSince;
    var id := s.handles[n].workOrderId;
    OrderIsOk(s.ops, id);
    CurrentExactlyWhenUnmoved(s.ops.journal.logs[id], s.takenAt[n]);
  }

  /** An assignment or transition never writes with a handle that is older than the last move of the order. */
  lemma MovesNeedACurrentHandle(s: Session, step: Step)
    requires SessionInv(s) && step.Do? && IsMove(step.command.detail) && ReplyTo(s, step).Wrote?
    requires Given(s, step).locked.Some?
    ensures var n, id := step.handle.value, s.handles[step.handle.value].workOrderId;
      n in s.takenAt && id in s.ops.journal.logs && UnmovedSince(s.ops.journal.logs[id], s.takenAt[n])
  {
    hide Inv, Fold, LogOk, UnmovedSince, EventOf, Apply, TransitionAllowed, TransitionEventType, MaxSequence;
    var n, id := step.handle.value, s.handles[step.handle.value].workOrderId;
    assert HandleOk(s, n);
    OrderIsOk(s.ops, id);
    CurrentExactlyWhenUnmoved(s.ops.journal.logs[id], s.takenAt[n]);
    assert StillAs(s.ops.journal.orders[id], s.handles[n].header);
  }

  /** The header a quiet command stores is the row unless it uses a stale handle. */
  lemma QuietHeaderIsCurrentExactlyWhen(s: Session, step: Step)
    requires SessionInv(s) && step.Do? && Quiet(step.command.detail) && ReplyTo(s, step).Wrote?
    ensures var e := EventOfOutcome(ReplyTo(s, step).outcome);
      if e.None? then !UsesStale(s, step)
      else
        e.value.workOrderId in s.ops.journal.orders && e.value.command == step.command
        && (e.value.result == s.ops.journal.orders[e.value.workOrderId] <==> !UsesStale(s, step))
  {
    hide Inv, HandleOk, Execute, GivenOk, UnmovedSince, Quiet;
    GivenIsOk(s, step);
    QuietHeader(s.ops, step.command, Given(s, step));
    if Given(s, step).locked.Some? {
      assert HandleOk(s, step.handle.value);
      HandleIsCurrentExactlyWhen(s, step.handle.value);
    }
  }
}
