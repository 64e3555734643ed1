/**
 What the headers in events and outcomes are, over every run of lock handles and commands: those of
 the moment, unless a command works with a handle that is older than the last move of its order.
 */
module WorkOrderHeaders {
  import opened Wrappers
  import opened AssetTypes
  import opened WorkOrders
  import opened WorkOrderCommands
  import opened WorkOrderInvariants
  import opened WorkOrderReplay
  import opened WorkOrderSessions
  import opened WorkOrderHistory

  /* ---- The order and the restriction in an outcome ---- */

  /** The order stored with the outcome's event is the row. */
  predicate HoldsRow(ops: Ops, o: Outcome) {
    var e := EventOfOutcome(o);
    e.Some? ==> e.value.workOrderId in ops.journal.orders && ops.journal.orders[e.value.workOrderId] == e.value.result
  }

  predicate HoldsRestriction(ops: Ops, o: Outcome) {
    o.OnRestriction? ==>
      o.restriction.id in ops.restrictions && ops.restrictions[o.restriction.id].current == o.restriction
  }

  lemma ReleaseResult(ops: Ops, change: Change)
    requires ChangeOk(ops, change) && change.EndRestriction?
    ensures change.restriction.released.Some? && change.restriction.released.value.result == change.restriction.current
  {
  }

  lemma RestrictionReached(ops: Ops, change: Change, c: Command, o: Outcome)
    requires ChangeOk(ops, change) && Made(change, c, o)
    ensures HoldsRestriction(Apply(ops, change), o)
  {
    hide Loggable, Logged, ChangeOk;
    if change.EndRestriction? { ReleaseResult(ops, change); }
  }

  /** The journal after a change that logs `e`, which is not the first event of its order. */
  lemma LoggedJournal(ops: Ops, change: Change)
    requires ChangeOk(ops, change) && !change.Open? && EventIn(change).Some?
    ensures var e := EventIn(change).value;
      && e.workOrderId in ops.journal.logs && e.workOrderId in ops.journal.orders
      && Apply(ops, change).journal == Appended(ops.journal, e)
      && (IsMove(e.command.detail) ==> e.result == ApplyEvent(ops.journal.orders[e.workOrderId], e))
      && (Quiet(e.command.detail) ==>
            ApplyEvent(ops.journal.orders[e.workOrderId], e) == ops.journal.orders[e.workOrderId])
      && !e.command.detail.Create?
  {
    hide ChangeOk, TransitionAllowed;
    EventIsLoggable(ops, change);
  }

  /** Whether a change stores the header that its order has afterwards. */
  ghost predicate StoresRow(ops: Ops, change: Change) {
    && EventIn(change).Some?
    && var e := EventIn(change).value;
       e.workOrderId in Apply(ops, change).journal.orders
       && Apply(ops, change).journal.orders[e.workOrderId] == e.result
  }

  lemma StoresRowExactlyWhen(ops: Ops, change: Change)
    requires ChangeOk(ops, change) && EventIn(change).Some?
    ensures var e := EventIn(change).value;
      StoresRow(ops, change) <==>
        change.Open? || !Quiet(e.command.detail)
        || (e.workOrderId in ops.journal.orders && ops.journal.orders[e.workOrderId] == e.result)
  {
    hide ChangeOk, Continues, ApplyEvent, Opened;
    if change.Open? { OpenedRow(ops, change); } else { LoggedJournal(ops, change); }
  }

  lemma OpenedRow(ops: Ops, change: Change)
    requires ChangeOk(ops, change) && change.Open?
    ensures StoresRow(ops, change)
  {
    hide ChangeOk;
  }

  /** A written step is one change, which stores the row unless it uses a stale handle. */
  lemma StepIsChange(s: Session, step: Step) returns (change: Change)
    requires SessionInv(s) && step.Do? && ReplyTo(s, step).Wrote?
    ensures ChangeOk(s.ops, change) && Perform(s, step).ops == Apply(s.ops, change)
    ensures Made(change, step.command, ReplyTo(s, step).outcome)
    ensures EventIn(change) == EventOfOutcome(ReplyTo(s, step).outcome)
    ensures if EventIn(change).Some? then StoresRow(s.ops, change) <==> !UsesStale(s, step) else !UsesStale(s, step)
  {
    hide Inv, HandleOk, Execute, ChangeOk, Apply, GivenOk, Given, StoresRow, Made, EventIn, UnmovedSince;
    GivenIsOk(s, step);
    change := WritingIsChange(s.ops, step.command, Given(s, step));
    MadeEvent(change, step.command, ReplyTo(s, step).outcome);
    MadeCommand(s.ops, change, step.command, ReplyTo(s, step).outcome);
    if EventIn(change).Some? { StoresRowExactlyWhen(s.ops, change); }
    if Quiet(step.command.detail) { QuietHeaderIsCurrentExactlyWhen(s, step); }
  }

  lemma MadeCommand(ops: Ops, change: Change, c: Command, o: Outcome)
    requires Made(change, c, o) && ChangeOk(ops, change)
    ensures change.Open? ==> c.detail.Create?
    ensures EventIn(change).Some? ==> EventIn(change).value.command == c
  {
    hide Loggable, EvidenceShaped, SameKind, IsSuperseded, NonBlank, OpensLog;
  }

  /**
   The restriction in an outcome is the one right after the command. The order in it is the one
   right after the command if and only if the command did not use a handle that was taken before the
   last move of the order.
   */
  lemma OutcomeIsTheStateReached(steps: seq<Step>, step: Step)
    requires step.Do? && ReplyTo(Run(START, steps), step).Wrote?
    ensures var now := Run(START, steps);
      var o, after := ReplyTo(now, step).outcome, Perform(now, step).ops;
      HoldsRestriction(after, o) && (HoldsRow(after, o) <==> !UsesStale(now, step))
  {
    hide SessionInv, Run, ChangeOk, Made, Apply, Perform, ReplyTo, UsesStale, EventIn;
    var now := Run(START, steps);
    InvHolds(steps);
    var change := StepIsChange(now, step);
    RestrictionReached(now.ops, change, step.command, ReplyTo(now, step).outcome);
  }

  /* ---- Headers and logs ---- */

  /** Every event holds the header as it then was. */
  ghost predicate AllCurrent(j: Journal) {
    forall id, i: nat :: id in j.logs && i < |j.logs[id]| ==> IsCurrent(j.logs[id], i)
  }

  ghost predicate IsCurrent(log: seq<Event>, i: nat)
    requires i < |log|
  {
    log[i].result == Fold(log[..i + 1])
  }

  /** The stored header is the one the order had right after this or an earlier event. */
  ghost predicate IsEarlier(log: seq<Event>, i: nat)
    requires i < |log|
  {
    exists k :: 0 < k <= i + 1 && log[i].result == Fold(log[..k])
  }

  lemma PrefixStays(log: seq<Event>, longer: seq<Event>, i: nat)
    requires log <= longer && i < |log|
    ensures longer[i] == log[i] && (IsCurrent(longer, i) <==> IsCurrent(log, i))
    ensures IsEarlier(log, i) ==> IsEarlier(longer, i)
  {
    hide Fold;
    assert longer[..i + 1] == log[..i + 1];
    if IsEarlier(log, i) {
      var k :| 0 < k <= i + 1 && log[i].result == Fold(log[..k]);
      assert longer[..k] == log[..k];
    }
  }

  /** Adding an event leaves all headers current exactly if the added one is. */
  lemma AppendedCurrent(j: Journal, e: Event)
    requires e.workOrderId in j.logs && e.workOrderId in j.orders
    requires j.logs[e.workOrderId] != [] && j.orders[e.workOrderId] == Fold(j.logs[e.workOrderId])
    ensures AllCurrent(Appended(j, e)) <==> AllCurrent(j) && e.result == ApplyEvent(j.orders[e.workOrderId], e)
  {
    hide Fold, ApplyEvent, IsCurrent;
    var after, log := Appended(j, e), j.logs[e.workOrderId];
    LastIsCurrent(log, e);
    forall id, i: nat | id in j.logs && i < |j.logs[id]|
      ensures IsCurrent(after.logs[id], i) <==> IsCurrent(j.logs[id], i)
    {
      PrefixStays(j.logs[id], after.logs[id], i);
    }
    if AllCurrent(after) {
      forall id, i: nat | id in j.logs && i < |j.logs[id]|
        ensures IsCurrent(j.logs[id], i)
      {
        assert IsCurrent(after.logs[id], i);
      }
      assert IsCurrent(after.logs[e.workOrderId], |log|);
    }
  }

  lemma LastIsCurrent(log: seq<Event>, e: Event)
    requires log != []
    ensures IsCurrent(log + [e], |log|) <==> e.result == ApplyEvent(Fold(log), e)
  {
    hide Fold, ApplyEvent;
    FoldOneMore(log, e);
    assert (log + [e])[..|log| + 1] == log + [e];
  }

  lemma OpenedCurrent(j: Journal, e: Event)
    requires e.workOrderId !in j.logs
    ensures AllCurrent(Opened(j, e)) <==> AllCurrent(j)
  {
    hide IsCurrent;
    var after := Opened(j, e);
    assert IsCurrent([e], 0) by { OneEvent(e); }
    forall id, i: nat | id in j.logs && i < |j.logs[id]|
      ensures IsCurrent(after.logs[id], i) <==> IsCurrent(j.logs[id], i)
    {
    }
    if AllCurrent(after) {
      forall id, i: nat | id in j.logs && i < |j.logs[id]|
        ensures IsCurrent(j.logs[id], i)
      {
        assert IsCurrent(after.logs[id], i);
      }
    }
  }

  lemma OneEvent(e: Event)
    ensures IsCurrent([e], 0)
  {
    assert [e][..1] == [e];
  }

  lemma ChangeKeepsCurrentExactlyWhen(ops: Ops, change: Change)
    requires Inv(ops) && ChangeOk(ops, change)
    ensures AllCurrent(Apply(ops, change).journal) <==>
      AllCurrent(ops.journal) && (EventIn(change).Some? ==> StoresRow(ops, change))
  {
    hide Inv, ChangeOk, AllCurrent, ApplyEvent, LogOk, Fold, Logged, LoggedIf, Opened, Appended;
    if change.Open? {
      OpenIsNew(ops, change);
      OpenedRow(ops, change);
      OpenedCurrent(ops.journal, change.event);
    } else if EventIn(change).Some? {
      var e := EventIn(change).value;
      LoggedJournal(ops, change);
      OrderIsOk(ops, e.workOrderId);
      AppendedCurrent(ops.journal, e);
      AppendedRow(ops.journal, e);
    } else {
      SameJournal(ops, change);
    }
  }

  lemma OpenIsNew(ops: Ops, change: Change)
    requires ChangeOk(ops, change) && change.Open?
    ensures change.event.workOrderId !in ops.journal.logs
    ensures Apply(ops, change).journal == Opened(ops.journal, change.event)
  {
    hide OpensLog, Opened;
  }

  lemma AppendedRow(j: Journal, e: Event)
    requires e.workOrderId in j.logs && e.workOrderId in j.orders
    ensures e.workOrderId in Appended(j, e).orders
    ensures Appended(j, e).orders[e.workOrderId] == ApplyEvent(j.orders[e.workOrderId], e)
  {
    hide ApplyEvent;
  }

  lemma SameJournal(ops: Ops, change: Change)
    requires EventIn(change).None?
    ensures Apply(ops, change).journal == ops.journal
  {
  }

  lemma PerformKeepsCurrentExactlyWhen(s: Session, step: Step)
    requires SessionInv(s)
    ensures AllCurrent(Perform(s, step).ops.journal) <==> AllCurrent(s.ops.journal) && !UsesStale(s, step)
  {
    hide Inv, HandleOk, Execute, ChangeOk, Apply, Made, StoresRow, AllCurrent, Given, UnmovedSince;
    if step.Do? && ReplyTo(s, step).Wrote? {
      var change := StepIsChange(s, step);
      ChangeKeepsCurrentExactlyWhen(s.ops, change);
    } else if step.Do? {
      NotWritingChangesNothing(s.ops, step.command, Given(s, step));
    }
  }

  /** Some step of the run stores the header of a stale handle. */
  ghost predicate EverStale(s: Session, steps: seq<Step>)
    decreases |steps|
  {
    steps != [] && (UsesStale(s, steps[0]) || EverStale(Perform(s, steps[0]), steps[1..]))
  }

  lemma {:induction false} RunKeepsCurrentExactlyWhen(s: Session, steps: seq<Step>)
    requires SessionInv(s)
    ensures AllCurrent(Run(s, steps).ops.journal) <==> AllCurrent(s.ops.journal) && !EverStale(s, steps)
    decreases |steps|
  {
    hide SessionInv, Perform, AllCurrent, UsesStale;
    if steps != [] {
      PerformKeepsInv(s, steps[0]);
      PerformKeepsCurrentExactlyWhen(s, steps[0]);
      RunKeepsCurrentExactlyWhen(Perform(s, steps[0]), steps[1..]);
    }
  }

  /**
   Every event of every order holds the header as it was right after the event if and only if no note,
   evidence, restriction or release of the run used a handle taken before the last move of its order.
   */
  lemma StoredHeadersAreCurrentExactlyWhen(steps: seq<Step>)
    ensures AllCurrent(Run(START, steps).ops.journal) <==> !EverStale(START, steps)
  {
    hide Run, EverStale, SessionInv;
    StartIsOk();
    RunKeepsCurrentExactlyWhen(START, steps);
  }

  /* ---- What holds of stored headers whatever handles are used ---- */

  ghost predicate AllEarlier(j: Journal) {
    forall id, i: nat :: id in j.logs && i < |j.logs[id]| ==> IsEarlier(j.logs[id], i)
  }

  lemma AppendedEarlier(j: Journal, e: Event, k: nat)
    requires AllEarlier(j) && e.workOrderId in j.logs && e.workOrderId in j.orders
    requires var longer := j.logs[e.workOrderId] + [e]; 0 < k <= |longer| && e.result == Fold(longer[..k])
    ensures AllEarlier(Appended(j, e))
  {
    hide Fold, ApplyEvent, IsEarlier;
    var after, n := Appended(j, e), |j.logs[e.workOrderId]|;
    forall id, i: nat | id in after.logs && i < |after.logs[id]|
      ensures IsEarlier(after.logs[id], i)
    {
      if id in j.logs && i < |j.logs[id]| {
        PrefixStays(j.logs[id], after.logs[id], i);
      } else {
        FoundEarlier(after.logs[id], i, k);
      }
    }
  }

  lemma FoundEarlier(log: seq<Event>, i: nat, k: nat)
    requires i < |log| && 0 < k <= i + 1 && log[i].result == Fold(log[..k])
    ensures IsEarlier(log, i)
  {
    hide Fold;
  }

  lemma OpenedEarlier(j: Journal, e: Event)
    requires AllEarlier(j)
    ensures AllEarlier(Opened(j, e))
  {
    hide IsEarlier;
    OneEvent(e);
    FoundEarlier([e], 0, 1);
  }

  /** The header a step logs is that of some beginning of the log it prolongs. */
  lemma LoggedIsEarlier(s: Session, step: Step, change: Change) returns (k: nat)
    requires SessionInv(s) && step.Do? && ReplyTo(s, step).Wrote?
    requires ChangeOk(s.ops, change) && Made(change, step.command, ReplyTo(s, step).outcome)
    requires !change.Open? && EventIn(change).Some?
    ensures var e := EventIn(change).value;
      && e.workOrderId in s.ops.journal.logs
      && var longer := s.ops.journal.logs[e.workOrderId] + [e];
         0 < k <= |longer| && e.result == Fold(longer[..k])
  {
    hide Inv, Execute, ChangeOk, Apply, GivenOk, ApplyEvent, Fold, LogOk, Made, EventIn, Quiet, IsMove;
    var e := EventIn(change).value;
    LoggedJournal(s.ops, change);
    MadeEvent(change, step.command, ReplyTo(s, step).outcome);
    MadeCommand(s.ops, change, step.command, ReplyTo(s, step).outcome);
    OrderIsOk(s.ops, e.workOrderId);
    var log := s.ops.journal.logs[e.workOrderId];
    var longer := log + [e];
    FoldOneMore(log, e);
    assert longer[..|longer|] == longer && longer[..|log|] == log;
    if Quiet(step.command.detail) {
      GivenIsOk(s, step);
      QuietHeader(s.ops, step.command, Given(s, step));
      k := |log|;
      if Given(s, step).locked.Some? {
        assert HandleOk(s, step.handle.value);
        k := s.takenAt[step.handle.value];
        assert longer[..k] == log[..k];
      }
    } else {
      MoveOrQuiet(step.command.detail);
      k := |longer|;
    }
  }

  lemma MoveOrQuiet(d: Detail)
    ensures d.Create? || IsMove(d) || Quiet(d)
  {
  }

  lemma PerformKeepsEarlier(s: Session, step: Step)
    requires SessionInv(s) && AllEarlier(s.ops.journal)
    ensures AllEarlier(Perform(s, step).ops.journal)
  {
    hide SessionInv, Execute, ChangeOk, Apply, Made, AllEarlier, Given, StoresRow, UsesStale, Fold, ApplyEvent;
    hide Appended;
    if step.Do? && ReplyTo(s, step).Wrote? {
      var change := StepIsChange(s, step);
      if change.Open? {
        OpenIsNew(s.ops, change);
        OpenedEarlier(s.ops.journal, change.event);
      } else if EventIn(change).Some? {
        LoggedJournal(s.ops, change);
        var k := LoggedIsEarlier(s, step, change);
        AppendedEarlier(s.ops.journal, EventIn(change).value, k);
      } else {
        SameJournal(s.ops, change);
      }
    } else if step.Do? {
      NotWritingChangesNothing(s.ops, step.command, Given(s, step));
    }
  }

  lemma {:induction false} RunKeepsEarlier(s: Session, steps: seq<Step>)
    requires SessionInv(s) && AllEarlier(s.ops.journal)
    ensures AllEarlier(Run(s, steps).ops.journal)
    decreases |steps|
  {
    hide SessionInv, Perform, AllEarlier;
    if steps != [] {
      PerformKeepsInv(s, steps[0]);
      PerformKeepsEarlier(s, steps[0]);
      RunKeepsEarlier(Perform(s, steps[0]), steps[1..]);
    }
  }

  /**
   After any run, every header is the fold of its log: sequences are 1, 2, 3 and so on without gap,
   the status is the last one stated, the version counts assignments and transitions, and the dates
   fit the status. The creation and every move hold the header they left, every other event the
   header right after itself or an earlier event.
   */
  lemma HeaderIsFoldOfItsLog(steps: seq<Step>, id: Id)
    requires id in Run(START, steps).ops.journal.orders
    ensures var j := Run(START, steps).ops.journal;
      && id in j.logs && j.logs[id] != [] && j.orders[id] == Fold(j.logs[id])
      && (forall i: nat :: i < |j.logs[id]| ==> EventStands(j.logs[id], i, id))
      && LastStatus(j.logs[id]) == Some(j.orders[id].status)
      && Moves(j.logs[id]) == j.orders[id].version
      && DatesFit(j.orders[id])
  {
    hide Inv, Run, LogOk, Fold, LastStatus, Moves, DatesFit, HandleOk, IsEarlier;
    InvHolds(steps);
    var ops := Run(START, steps).ops;
    OrderIsOk(ops, id);
    var log := ops.journal.logs[id];
    LogDeterminesStatusAndVersion(log);
    DatesTellTheStory(log);
    StartIsOk();
    RunKeepsEarlier(START, steps);
    forall i: nat | i < |log|
      ensures EventStands(log, i, id)
    {
      ResultsOfMovesAreFolds(log, i);
    }
  }

  ghost predicate EventStands(log: seq<Event>, i: nat, id: Id)
    requires i < |log|
  {
    && log[i].sequence == i + 1 && log[i].workOrderId == log[i].result.id == id
    && (i == 0 || IsMove(log[i].command.detail) ==> log[i].result == Fold(log[..i + 1]))
    && IsEarlier(log, i)
  }

  /** A closed or cancelled order keeps its status and version whatever commands follow. */
  lemma TerminalOrdersStay(steps: seq<Step>, more: seq<Step>, id: Id)
    requires id in Run(START, steps).ops.journal.orders && Terminal(Run(START, steps).ops.journal.orders[id].status)
    ensures var before, after := Run(START, steps).ops.journal, Run(Run(START, steps), more).ops.journal;
      && id in after.orders && after.orders[id].status == before.orders[id].status
      && after.orders[id].version == before.orders[id].version
  {
    hide Inv, Run, LogOk, Fold, HandleOk;
    var now := Run(START, steps);
    InvHolds(steps);
    RunKeepsInv(now, more);
    var later := Run(now, more);
    OrderIsOk(now.ops, id);
    OrderIsOk(later.ops, id);
    var log, n := later.ops.journal.logs[id], |now.ops.journal.logs[id]|;
    assert log[..n] == now.ops.journal.logs[id];
    TerminalIsForever(log, n);
  }

  /* ---- A receipt: transition first, then a restriction with the handle taken before ---- */

  const ORDER := Command(Source("order", "1", ""), "u", 0, Create("v", false, false, ""))
  const START_WORK := Command(Source("order", "1", "start"), "u", 0, Transition("w", 0, InProgress, None, None, ""))
  const RESTRICT :=
    Command(Source("order", "1", "restrict"), "u", 0, Restrict("v", Some("w"), false, {"ALLOCATION"}, "{}", 0, ""))
  const WORLD := World(false, true, true, 0, "w", "AWO-1", None)

  const RECEIPT: seq<Step> := [
    Do(ORDER, WORLD, 1, None), Take(0, 2, "w"), Take(1, 2, "w"), Do(START_WORK, WORLD, 2, Some(0)),
    Do(RESTRICT, WORLD, 2, Some(1))]

  const AS_CREATED := NewHeader(ORDER, "w", "AWO-1")
  const OPENED := Event("w", 1, CREATED, None, Some(Pending), ORDER, AS_CREATED)
  const STARTED_WORK :=
    Event("w", 2, STARTED, Some(Pending), Some(InProgress), START_WORK, Transitioned(AS_CREATED, START_WORK))

  function Created(): Session {
    Session(EMPTY.(journal := Opened(EMPTY.journal, OPENED), created := map[ORDER.source := "w"]), map[], map[])
  }

  /** The session in which both handles are taken and nothing else has happened. */
  function Taken(): Session {
    Created().(handles := map[0 := Handle(2, "w", AS_CREATED), 1 := Handle(2, "w", AS_CREATED)],
               takenAt := map[0 := 1, 1 := 1])
  }

  lemma TakesBoth()
    ensures Perform(Perform(Perform(START, RECEIPT[0]), RECEIPT[1]), RECEIPT[2]) == Taken()
  {
    assert Perform(START, RECEIPT[0]) == Created();
    var one := Perform(Created(), RECEIPT[1]);
    assert one.ops == Created().ops;
    assert one.handles == map[0 := Handle(2, "w", AS_CREATED)] && one.takenAt == map[0 := 1];
    var both := Perform(one, RECEIPT[2]);
    assert both.handles == Taken().handles && both.takenAt == Taken().takenAt;
  }

  /** The session after the transition, which has spent its handle; the other keeps the header as created. */
  function Moved(): Session {
    Session(Apply(Created().ops, Extend(STARTED_WORK)), map[1 := Handle(2, "w", AS_CREATED)], map[0 := 1, 1 := 1])
  }

  lemma TransitionMoves()
    ensures Perform(Taken(), RECEIPT[3]) == Moved()
  {
    hide Perform, Apply, Transitioned;
    var s := Taken();
    TransitionWrites(s.ops, Given(s, RECEIPT[3]));
    assert Perform(s, RECEIPT[3]) == Moved() by { DoUnfolds(s, RECEIPT[3]); }
  }

  lemma TransitionWrites(ops: Ops, w: World)
    requires ops == Created().ops && w == WORLD.(locked := Some(AS_CREATED))
    ensures Execute(ops, START_WORK, w) == (Apply(ops, Extend(STARTED_WORK)), Wrote(OnOrder(STARTED_WORK)))
  {
    hide Apply, Transitioned;
    LogOfOne(OPENED);
  }

  lemma LogOfOne(e: Event)
    ensures MaxSequence([e]) == e.sequence
  {
    assert [e][..0] == [];
  }

  lemma DoUnfolds(s: Session, step: Step)
    requires step.Do?
    ensures Perform(s, step) ==
      s.(ops := Execute(s.ops, step.command, Given(s, step)).0,
         handles := Spend(s.handles, step.command, step.world, step.handle))
  {
  }

  lemma {:induction false} RunOneMore(s: Session, steps: seq<Step>, step: Step)
    ensures Run(s, steps + [step]) == Perform(Run(s, steps), step)
    decreases |steps|
  {
    hide Perform;
    if steps == [] {
      assert [step][1..] == [];
    } else {
      assert (steps + [step])[1..] == steps[1..] + [step];
      RunOneMore(Perform(s, steps[0]), steps[1..], step);
    }
  }

  lemma ReachesMoved()
    ensures Run(START, RECEIPT[..4]) == Moved() && RECEIPT == RECEIPT[..4] + [RECEIPT[4]]
  {
    hide Perform;
    assert RECEIPT[..0] == [];
    assert RECEIPT[..1] == RECEIPT[..0] + [RECEIPT[0]] && RECEIPT[..2] == RECEIPT[..1] + [RECEIPT[1]];
    assert RECEIPT[..3] == RECEIPT[..2] + [RECEIPT[2]] && RECEIPT[..4] == RECEIPT[..3] + [RECEIPT[3]];
    RunOneMore(START, RECEIPT[..0], RECEIPT[0]);
    RunOneMore(START, RECEIPT[..1], RECEIPT[1]);
    RunOneMore(START, RECEIPT[..2], RECEIPT[2]);
    RunOneMore(START, RECEIPT[..3], RECEIPT[3]);
    TakesBoth();
    TransitionMoves();
  }

  lemma RestrictionWrites(ops: Ops, w: World)
    requires ops == Moved().ops && w == WORLD.(locked := Some(AS_CREATED))
    ensures var reply := Execute(ops, RESTRICT, w).1;
      && reply.Wrote? && reply.outcome.OnRestriction? && reply.outcome.linked.Some?
      && reply.outcome.linked.value.result == AS_CREATED
  {
    hide MaxSequence;
    MovedTables();
  }

  lemma MovedTables()
    ensures var ops := Moved().ops;
      && HasOrder(ops, "w") && ops.restrictions == map[] && ops.starts == map[] && ops.releases == map[]
      && ops.journal.orders["w"].status == InProgress && ops.journal.orders["w"].version == 1
      && EventOf(ops.journal, RESTRICT.source).None?
  {
  }

  lemma RestrictionReply()
    ensures var reply := ReplyTo(Moved(), RECEIPT[4]);
      && reply.Wrote? && reply.outcome.OnRestriction? && reply.outcome.linked.Some?
      && reply.outcome.linked.value.result == AS_CREATED
    ensures Given(Moved(), RECEIPT[4]).locked.Some?
  {
    hide Execute, Apply;
    RestrictionWrites(Moved().ops, Given(Moved(), RECEIPT[4]));
  }

  lemma RestrictionUsesStale()
    ensures UsesStale(Moved(), RECEIPT[4])
  {
    hide Execute, Given, ReplyTo;
    RestrictionReply();
    var log := Moved().ops.journal.logs["w"];
    assert log[1] == STARTED_WORK && IsMove(log[1].command.detail);
    assert !UnmovedSince(log, 1);
  }

  /**
   The receipt writes all its commands, yet its restriction event holds, and its outcome returns for
   ever, the order as it was before the transition.
   */
  lemma ReceiptStoresTheOldHeader(more: seq<Step>)
    ensures var s := Run(START, RECEIPT[..4]);
      var reply, after := ReplyTo(s, RECEIPT[4]), Run(START, RECEIPT);
      && HasOrder(s.ops, "w") && s.ops.journal.orders["w"].status.InProgress? && s.ops.journal.orders["w"].version == 1
      && reply.Wrote? && reply.outcome.OnRestriction? && reply.outcome.linked.Some?
      && reply.outcome.linked.value.result.status.Pending? && reply.outcome.linked.value.result.version == 0
      && !AllCurrent(after.ops.journal)
      && ReplyTo(Run(after, more), RECEIPT[4]) == Replayed(reply.outcome)
  {
    hide Run, Perform, ReplyTo, AllCurrent, Moved, UsesStale, SessionInv;
    ReachesMoved();
    MovedTables();
    RestrictionReply();
    RestrictionUsesStale();
    InvHolds(RECEIPT[..4]);
    RunOneMore(START, RECEIPT[..4], RECEIPT[4]);
    PerformKeepsCurrentExactlyWhen(Moved(), RECEIPT[4]);
    SourceNamesOneCommand(RECEIPT[..4], RECEIPT[4], more, RECEIPT[4]);
  }
}
