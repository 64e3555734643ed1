/**
 The H1 snapshot control protocol: any number of handler threads share one phase
 under a condition variable. `Shared` is the state guarded by the lock; the functions
 on it are the critical sections; `Step` interleaves them, one critical section or one
 callback return at a time.
 */
module SnapshotControl {
  import opened Wrappers

  datatype Phase = New | Preparing | Prepared | Running | Finished | Cleaning | Cleaned | Failed

  datatype Operation = PrepareJob | RunScriptStep | Produce | CleanupJob

  datatype Callback =
    | VerifyAdmission | PrepareCallback | RunCallback | VerifyJobPeer | ProduceCallback | CleanupCallback

  datatype Shared = Shared(
    phase: Phase, producerStarted: bool, producerDone: bool, cleanupStarted: bool, active: int)

  const FRESH := Shared(New, false, false, false, 0)

  /* ---- Critical sections, each executed while holding the condition variable ---- */

  function Begin(m: Shared, expected: Phase, pending: Phase): Option<Shared> {
    if m.phase == expected then Some(m.(phase := pending, active := m.active + 1)) else None
  }

  function End(m: Shared, newPhase: Option<Phase>): Shared {
    if m.phase != Cleaning && newPhase.Some?
    then m.(active := m.active - 1, phase := newPhase.value)
    else m.(active := m.active - 1)
  }

  function EnterCleanup(m: Shared): Option<Shared> {
    if m.cleanupStarted then None else Some(m.(cleanupStarted := true, phase := Cleaning))
  }

  function LeaveCleanup(m: Shared, ok: bool): Shared {
    m.(phase := if ok then Cleaned else Failed)
  }

  function EnterProduce(m: Shared): Option<Shared> {
    if m.phase == Running && !m.producerStarted
    then Some(m.(producerStarted := true, active := m.active + 1))
    else None
  }

  function MarkProduced(m: Shared): Option<Shared> {
    if m.phase == Running then Some(m.(producerDone := true)) else None
  }

  function ExpectedPhase(op: Operation): Phase {
    if op.PrepareJob? then New else Prepared
  }

  function PendingPhase(op: Operation): Phase {
    if op.PrepareJob? then Preparing else Running
  }

  function FinishedPhase(op: Operation): Phase {
    if op.PrepareJob? then Prepared else Finished
  }

  /** How an operation enters: the first critical section of its handler. */
  function Enter(m: Shared, op: Operation): Option<Shared> {
    match op
    case PrepareJob => Begin(m, ExpectedPhase(op), PendingPhase(op))
    case RunScriptStep => Begin(m, ExpectedPhase(op), PendingPhase(op))
    case Produce => EnterProduce(m)
    case CleanupJob => EnterCleanup(m)
  }

  /** The re-check after all callbacks returned True; None is a raised rejection. */
  function Confirm(m: Shared, op: Operation): Option<Shared> {
    match op
    case Produce => MarkProduced(m)
    case PrepareJob => if m.phase == PendingPhase(op) then Some(m) else None
    case RunScriptStep => if m.phase == PendingPhase(op) && m.producerDone then Some(m) else None
    case CleanupJob => Some(m)
  }

  /** The phase an operation asks `_end` to install. */
  function Outcome(op: Operation, ok: bool): Option<Phase> {
    if !ok then Some(Failed)
    else if op.Produce? then None
    else Some(FinishedPhase(op))
  }

  /* ---- Threads ---- */

  /** The callbacks an operation makes, in order; each must return True for the next to be made. */
  function Path(op: Operation): seq<Callback> {
    match op
    case PrepareJob => [VerifyAdmission, PrepareCallback]
    case RunScriptStep => [VerifyAdmission, RunCallback]
    case Produce => [VerifyJobPeer, VerifyAdmission, ProduceCallback]
    case CleanupJob => [CleanupCallback]
  }

  datatype Pc =
    | Calling(op: Operation, i: nat)  // Path(op)[i] has been invoked and has not returned
    | Checking(op: Operation)         // every callback returned True; the re-check is next
    | Ending(op: Operation, ok: bool) // the finally block that calls _end is next
    | Draining                        // cleanup waits for the active operations
    | Leaving(ok: bool)               // cleanup's finally block is next
  {
    function Op(): Operation {
      match this
      case Calling(op, _) => op
      case Checking(op) => op
      case Ending(op, _) => op
      case Draining => CleanupJob
      case Leaving(_) => CleanupJob
    }
  }

  datatype Event =
    | Began(op: Operation)
    | Invoked(op: Operation, callback: Callback)
    | Answered(op: Operation, callback: Callback, ok: bool)

  datatype State = State(shared: Shared, threads: map<nat, Pc>, log: seq<Event>)

  const INIT := State(FRESH, map[], [])

  datatype Action =
    | Start(t: nat, op: Operation) // a fresh handler thread runs its first critical section
    | Return(t: nat, ok: bool)     // its current callback returns True, or anything else
    | Check(t: nat)                // its re-check critical section
    | Stop(t: nat)                 // its _end critical section
    | Drained(t: nat)              // cleanup observes no active operation
    | Timeout(t: nat)              // cleanup observes an active operation after the deadline
    | Leave(t: nat)                // cleanup's final critical section

  /** One interleaved step. An action that is not enabled leaves the state unchanged. */
  function Step(s: State, a: Action): State {
    match a
    case Start(t, op) =>
      var entered := Enter(s.shared, op);
      if t in s.threads || entered.None? then s
      else State(entered.value, s.threads[t := Calling(op, 0)],
                 s.log + [Began(op), Invoked(op, Path(op)[0])])
    case Return(t, ok) => if t in s.threads then StepReturn(s, t, ok) else s
    case Check(t) =>
      if t !in s.threads || !s.threads[t].Checking? then s
      else
        var op := s.threads[t].op;
        var confirmed := Confirm(s.shared, op);
        if confirmed.Some? then s.(shared := confirmed.value, threads := s.threads[t := Ending(op, true)])
        else s.(threads := s.threads[t := Ending(op, false)])
    case Stop(t) =>
      if t !in s.threads || !s.threads[t].Ending? then s
      else s.(shared := End(s.shared, Outcome(s.threads[t].op, s.threads[t].ok)), threads := s.threads - {t})
    case Drained(t) =>
      if t !in s.threads || !s.threads[t].Draining? || s.shared.active != 0 then s
      else s.(threads := s.threads[t := Leaving(true)])
    case Timeout(t) =>
      if t !in s.threads || !s.threads[t].Draining? || s.shared.active == 0 then s
      else s.(threads := s.threads[t := Leaving(false)])
    case Leave(t) =>
      if t !in s.threads || !s.threads[t].Leaving? then s
      else s.(shared := LeaveCleanup(s.shared, s.threads[t].ok), threads := s.threads - {t})
  }

  function StepReturn(s: State, t: nat, ok: bool): State
    requires t in s.threads
  {
    match s.threads[t]
    case Calling(op, i) =>
      if i >= |Path(op)| then s
      else
        var log := s.log + [Answered(op, Path(op)[i], ok)];
        if !ok then
          State(s.shared, s.threads[t := if op.CleanupJob? then Leaving(false) else Ending(op, false)], log)
        else if i + 1 < |Path(op)| then
          State(s.shared, s.threads[t := Calling(op, i + 1)], log + [Invoked(op, Path(op)[i + 1])])
        else
          State(s.shared, s.threads[t := if op.CleanupJob? then Draining else Checking(op)], log)
    case _ => s
  }

  function Run(s: State, actions: seq<Action>): State
    decreases |actions|
  {
    if actions == [] then s else Run(Step(s, actions[0]), actions[1..])
  }

  /* ---- The log restricted to one operation ---- */

  function Trail(log: seq<Event>, op: Operation): seq<Event> {
    if log == [] then []
    else if log[|log| - 1].op == op then Trail(log[..|log| - 1], op) + [log[|log| - 1]]
    else Trail(log[..|log| - 1], op)
  }

  lemma TrailSnoc(log: seq<Event>, e: Event, op: Operation)
    ensures Trail(log + [e], op) == if e.op == op then Trail(log, op) + [e] else Trail(log, op)
  {
    assert (log + [e])[..|log|] == log;
  }

  lemma TrailSnoc2(log: seq<Event>, e: Event, f: Event, op: Operation)
    requires e.op == f.op
    ensures Trail(log + [e, f], op) == if e.op == op then Trail(log, op) + [e, f] else Trail(log, op)
  {
    TrailSnoc(log, e, op);
    TrailSnoc(log + [e], f, op);
    assert log + [e, f] == log + [e] + [f];
  }

  /** Entering, then the first `i` callbacks each invoked and answered True. */
  function Progress(op: Operation, i: nat): seq<Event>
    requires i <= |Path(op)|
  {
    if i == 0 then [Began(op)]
    else Progress(op, i - 1) + [Invoked(op, Path(op)[i - 1]), Answered(op, Path(op)[i - 1], true)]
  }

  ghost predicate FailedTrail(op: Operation, trail: seq<Event>) {
    exists i :: 0 <= i < |Path(op)| && trail == FailedAt(op, i)
  }

  function FailedAt(op: Operation, i: nat): seq<Event>
    requires i < |Path(op)|
  {
    Progress(op, i) + [Invoked(op, Path(op)[i]), Answered(op, Path(op)[i], false)]
  }

  /** What the log must hold about a thread's operation at each program counter. */
  ghost predicate TrailMatches(pc: Pc, trail: seq<Event>) {
    match pc
    case Calling(op, i) =>
      i < |Path(op)| && trail == Progress(op, i) + [Invoked(op, Path(op)[i])]
    case Checking(op) => !op.CleanupJob? && trail == Progress(op, |Path(op)|)
    case Ending(op, ok) =>
      && !op.CleanupJob?
      && (trail == Progress(op, |Path(op)|) || (!ok && FailedTrail(op, trail)))
    case Draining => trail == Progress(CleanupJob, 1)
    case Leaving(ok) =>
      trail == Progress(CleanupJob, 1) || (!ok && FailedTrail(CleanupJob, trail))
  }

  ghost predicate Complete(op: Operation, trail: seq<Event>) {
    trail == [] || trail == Progress(op, |Path(op)|) || FailedTrail(op, trail)
  }

  /* ---- The inductive invariant ---- */

  function InFlight(threads: map<nat, Pc>): set<nat> {
    set t | t in threads && !threads[t].Op().CleanupJob?
  }

  ghost predicate Idle(s: State, op: Operation) {
    forall t :: t in s.threads ==> s.threads[t].Op() != op
  }

  ghost predicate OneThreadPerOperation(s: State) {
    forall t, u :: t in s.threads && u in s.threads && s.threads[t].Op() == s.threads[u].Op() ==> t == u
  }

  ghost predicate TrailsMatch(s: State) {
    && (forall t :: t in s.threads ==> TrailMatches(s.threads[t], Trail(s.log, s.threads[t].Op())))
    && (forall op :: Idle(s, op) ==> Complete(op, Trail(s.log, op)))
  }

  ghost predicate Begun(s: State, op: Operation) {
    Trail(s.log, op) != []
  }

  /** What the phase depends on: which operations began, which threads are present, which ended well. */
  datatype View = View(
    m: Shared, prepareBegun: bool, runBegun: bool, produceBegun: bool, cleanupBegun: bool,
    preparing: bool, cleaning: bool, empty: bool, produced: bool, cleanedUp: bool)

  ghost function ViewOf(s: State): View {
    View(s.shared, Begun(s, PrepareJob), Begun(s, RunScriptStep), Begun(s, Produce), Begun(s, CleanupJob),
         !Idle(s, PrepareJob), !Idle(s, CleanupJob), s.threads == map[],
         Trail(s.log, Produce) == Progress(Produce, 3), Trail(s.log, CleanupJob) == Progress(CleanupJob, 1))
  }

  ghost predicate PhaseFacts(v: View) {
    var m := v.m;
    && (m.phase == New ==> v.empty && !v.prepareBegun && !v.runBegun && !v.produceBegun && !v.cleanupBegun)
    && (m.phase == Prepared ==> !v.runBegun)
    && (m.phase == Running ==> v.runBegun)
    && (m.phase == Finished ==> m.producerDone)
    && (m.phase == Cleaned ==> v.empty && v.cleanedUp)
    && (m.cleanupStarted <==> v.cleanupBegun)
    && (m.producerStarted <==> v.produceBegun)
    && (m.producerDone ==> v.produced)
    && (v.produceBegun ==> v.runBegun)
    && (v.runBegun ==> v.prepareBegun && !v.preparing)
    && (m.phase in {Preparing, Prepared} ==> v.prepareBegun)
    && (m.phase == Preparing ==> !m.cleanupStarted)
    && (v.preparing ==> m.phase in {Preparing, Cleaning, Failed})
    && (v.cleaning <==> m.phase == Cleaning)
  }

  /** What one thread's program counter says about the shared state. */
  predicate ThreadFact(pc: Pc, m: Shared) {
    && (pc == Ending(RunScriptStep, true) ==> m.producerDone)
    && (pc == Leaving(true) ==> m.active == 0)
    && (pc.Op() == Produce && pc != Ending(Produce, true) ==> !m.producerDone)
  }

  ghost predicate ThreadFacts(threads: map<nat, Pc>, m: Shared) {
    forall t :: t in threads ==> ThreadFact(threads[t], m)
  }

  ghost predicate Threads(s: State) {
    OneThreadPerOperation(s) && TrailsMatch(s)
  }

  ghost predicate Inv(s: State) {
    && s.shared.active == |InFlight(s.threads)|
    && Threads(s)
    && PhaseFacts(ViewOf(s))
    && ThreadFacts(s.threads, s.shared)
  }

  lemma InFlightUpdate(threads: map<nat, Pc>, t: nat, pc: Pc)
    requires t in threads && threads[t].Op() == pc.Op()
    ensures InFlight(threads[t := pc]) == InFlight(threads)
  {
  }

  lemma InFlightAdd(threads: map<nat, Pc>, t: nat, pc: Pc)
    requires t !in threads
    ensures |InFlight(threads[t := pc])| == |InFlight(threads)| + (if pc.Op().CleanupJob? then 0 else 1)
  {
    if pc.Op().CleanupJob? {
      assert InFlight(threads[t := pc]) == InFlight(threads);
    } else {
      assert InFlight(threads[t := pc]) == InFlight(threads) + {t};
    }
  }

  lemma InFlightRemove(threads: map<nat, Pc>, t: nat)
    requires t in threads
    ensures |InFlight(threads - {t})| == |InFlight(threads)| - (if threads[t].Op().CleanupJob? then 0 else 1)
  {
    if threads[t].Op().CleanupJob? {
      assert InFlight(threads - {t}) == InFlight(threads);
    } else {
      assert InFlight(threads) == InFlight(threads - {t}) + {t};
    }
  }

  lemma SameIdle(s: State, s': State, t: nat)
    requires t in s.threads && t in s'.threads && s'.threads == s.threads[t := s'.threads[t]]
    requires s'.threads[t].Op() == s.threads[t].Op()
    ensures forall o :: Idle(s', o) <==> Idle(s, o)
  {
    forall o ensures Idle(s', o) <==> Idle(s, o) {
      assert forall u :: u in s.threads <==> u in s'.threads;
      assert forall u :: u in s.threads ==> s.threads[u].Op() == s'.threads[u].Op();
    }
  }

  lemma ProgressNonEmpty(op: Operation, i: nat)
    requires i <= |Path(op)|
    ensures Progress(op, i) != []
  {
  }

  /** A thread in an operation means the log shows the operation began. */
  lemma ThreadHasBegun(s: State, t: nat)
    requires t in s.threads && Threads(s)
    ensures Begun(s, s.threads[t].Op())
  {
    var op := s.threads[t].Op();
    forall i | 0 <= i <= |Path(op)| { ProgressNonEmpty(op, i); }
  }

  lemma NotBegunIsIdle(s: State, op: Operation)
    requires Threads(s) && !Begun(s, op)
    ensures Idle(s, op)
  {
    forall t | t in s.threads { ThreadHasBegun(s, t); }
  }

  /** A thread moves on within its operation: only that operation's trail may grow. */
  lemma ThreadMoves(s: State, s': State, t: nat, pc: Pc)
    requires t in s.threads && s'.threads == s.threads[t := pc] && pc.Op() == s.threads[t].Op()
    requires forall o :: o != pc.Op() ==> Trail(s'.log, o) == Trail(s.log, o)
    requires Threads(s)
    requires TrailMatches(pc, Trail(s'.log, pc.Op()))
    ensures Threads(s')
    ensures forall o :: Idle(s', o) <==> Idle(s, o)
    ensures InFlight(s'.threads) == InFlight(s.threads)
  {
    hide TrailMatches, Complete;
    InFlightUpdate(s.threads, t, pc);
    SameIdle(s, s', t);
    forall u | u in s'.threads && u != t
      ensures TrailMatches(s'.threads[u], Trail(s'.log, s'.threads[u].Op()))
    {
      assert s.threads[u].Op() != s.threads[t].Op();
    }
    forall o | Idle(s', o) ensures Complete(o, Trail(s'.log, o)) {
      assert s.threads[t].Op() != o;
    }
  }

  /** A thread finishes: its operation's trail is complete. */
  lemma ThreadLeaves(s: State, s': State, t: nat)
    requires t in s.threads && s'.threads == s.threads - {t} && s'.log == s.log
    requires Threads(s)
    requires Complete(s.threads[t].Op(), Trail(s.log, s.threads[t].Op()))
    ensures Threads(s')
    ensures forall o :: Idle(s', o) <==> Idle(s, o) || o == s.threads[t].Op()
    ensures |InFlight(s'.threads)| == |InFlight(s.threads)| - (if s.threads[t].Op().CleanupJob? then 0 else 1)
  {
    hide TrailMatches, Complete;
    InFlightRemove(s.threads, t);
    forall o ensures Idle(s', o) <==> Idle(s, o) || o == s.threads[t].Op() {
      if Idle(s', o) && o != s.threads[t].Op() {
        forall u | u in s.threads ensures s.threads[u].Op() != o { assert u == t || u in s'.threads; }
      }
      if o == s.threads[t].Op() {
        forall u | u in s'.threads ensures s'.threads[u].Op() != o { assert u in s.threads && u != t; }
      }
    }
  }

  lemma EnterTrails(s: State, op: Operation, log: seq<Event>)
    requires log == s.log + [Began(op), Invoked(op, Path(op)[0])] && !Begun(s, op)
    ensures forall o :: o != op ==> Trail(log, o) == Trail(s.log, o)
    ensures TrailMatches(Calling(op, 0), Trail(log, op)) && Trail(log, op) != []
  {
    forall o { TrailSnoc2(s.log, Began(op), Invoked(op, Path(op)[0]), o); }
    assert Trail(log, op) == Progress(op, 0) + [Invoked(op, Path(op)[0])];
  }

  /** A fresh thread enters an operation that never began. */
  lemma ThreadEnters(s: State, s': State, t: nat, op: Operation)
    requires t !in s.threads && s'.threads == s.threads[t := Calling(op, 0)]
    requires s'.log == s.log + [Began(op), Invoked(op, Path(op)[0])]
    requires Threads(s) && !Begun(s, op)
    ensures Threads(s')
    ensures forall o :: Idle(s', o) <==> Idle(s, o) && o != op
    ensures forall o :: o != op ==> Trail(s'.log, o) == Trail(s.log, o)
    ensures Begun(s', op)
    ensures |InFlight(s'.threads)| == |InFlight(s.threads)| + (if op.CleanupJob? then 0 else 1)
  {
    NotBegunIsIdle(s, op);
    EnterTrails(s, op, s'.log);
    hide TrailMatches, Complete, Path, Trail;
    InFlightAdd(s.threads, t, Calling(op, 0));
    forall o ensures Idle(s', o) <==> Idle(s, o) && o != op {
      assert t in s'.threads && s'.threads[t].Op() == op;
      if Idle(s', o) { forall u | u in s.threads ensures s.threads[u].Op() != o { assert u in s'.threads; } }
    }
    forall u | u in s'.threads
      ensures TrailMatches(s'.threads[u], Trail(s'.log, s'.threads[u].Op()))
    {
      if u != t { assert s.threads[u].Op() != op; }
    }
  }

  /** The trail and program counter after a callback returns. */
  lemma ReturnTrails(s: State, t: nat, ok: bool)
    requires t in s.threads && s.threads[t].Calling?
    requires TrailMatches(s.threads[t], Trail(s.log, s.threads[t].op))
    ensures
      var s' := Step(s, Return(t, ok));
      var op := s.threads[t].op;
      && s'.shared == s.shared && t in s'.threads && s'.threads == s.threads[t := s'.threads[t]]
      && s'.threads[t].Op() == op
      && TrailMatches(s'.threads[t], Trail(s'.log, op))
      && Trail(s'.log, op) != [] && Trail(s.log, op) != []
      && forall o :: o != op ==> Trail(s'.log, o) == Trail(s.log, o)
  {
    var Calling(op, i) := s.threads[t];
    var answered := Answered(op, Path(op)[i], ok);
    forall o { TrailSnoc(s.log, answered, o); }
    var before := Progress(op, i) + [Invoked(op, Path(op)[i])];
    if !ok {
      assert before + [answered] == FailedAt(op, i);
    } else {
      assert before + [answered] == Progress(op, i + 1);
      if i + 1 < |Path(op)| {
        forall o { TrailSnoc(s.log + [answered], Invoked(op, Path(op)[i + 1]), o); }
      }
    }
  }

  /** Entering an operation, seen through the view. */
  function Entered(v: View, op: Operation, m: Shared): View {
    var w := v.(m := m, empty := false);
    match op
    case PrepareJob => w.(prepareBegun := true, preparing := true)
    case RunScriptStep => w.(runBegun := true)
    case Produce => w.(produceBegun := true)
    case CleanupJob => w.(cleanupBegun := true, cleaning := true)
  }

  lemma EnteredKeepsPhaseFacts(v: View, op: Operation)
    requires PhaseFacts(v) && Enter(v.m, op).Some?
    requires op.Produce? ==> !v.m.producerDone
    requires op.RunScriptStep? ==> !v.preparing
    ensures PhaseFacts(Entered(v, op, Enter(v.m, op).value))
  {
  }

  lemma StartView(s: State, s': State, t: nat, op: Operation)
    requires t !in s.threads && s'.threads == s.threads[t := Calling(op, 0)]
    requires s'.log == s.log + [Began(op), Invoked(op, Path(op)[0])]
    requires Threads(s) && !Begun(s, op)
    ensures
      var v := ViewOf(s'); var w := Entered(ViewOf(s), op, s'.shared);
      v == w.(produced := v.produced, cleanedUp := v.cleanedUp)
      && (op != Produce ==> v.produced == w.produced) && (op != CleanupJob ==> v.cleanedUp == w.cleanedUp)
  {
    hide Threads, Path, Trail, Progress, Idle;
    ThreadEnters(s, s', t, op);
    assert s'.threads != map[] by { assert t in s'.threads; }
    NotBegunIsIdle(s, op);
  }

  lemma EnterMeans(s: State, op: Operation)
    requires Inv(s) && Enter(s.shared, op).Some?
    ensures !Begun(s, op)
    ensures op.RunScriptStep? ==> Idle(s, PrepareJob)
    ensures op.Produce? ==> !s.shared.producerDone
  {
    hide Threads, ThreadFacts, InFlight;
  }

  lemma StartKeepsInv(s: State, t: nat, op: Operation)
    requires Inv(s)
    ensures Inv(Step(s, Start(t, op)))
  {
    hide Threads, Path, Trail, Begun, Idle, InFlight, ThreadFacts;
    var s' := Step(s, Start(t, op));
    if s' != s {
      EnterMeans(s, op);
      ThreadEnters(s, s', t, op);
      StartView(s, s', t, op);
      EnteredKeepsPhaseFacts(ViewOf(s), op);
      StartFacts(s, t, op);
    }
  }

  lemma StartFacts(s: State, t: nat, op: Operation)
    requires Inv(s)
    ensures var s' := Step(s, Start(t, op)); ThreadFacts(s'.threads, s'.shared)
  {
    hide Threads, Path, Trail, Begun, InFlight;
    if Enter(s.shared, op).Some? { EnterMeans(s, op); }
  }

  lemma MatchingTrailIsNonEmpty(pc: Pc, trail: seq<Event>)
    requires TrailMatches(pc, trail)
    ensures trail != []
  {
    forall i | 0 <= i <= |Path(pc.Op())| { ProgressNonEmpty(pc.Op(), i); }
  }

  /** A step within one operation leaves the view as it was, up to the shared state. */
  lemma MoveView(s: State, s': State, t: nat, pc: Pc)
    requires t in s.threads && s'.threads == s.threads[t := pc] && pc.Op() == s.threads[t].Op()
    requires forall o :: o != pc.Op() ==> Trail(s'.log, o) == Trail(s.log, o)
    requires Threads(s) && TrailMatches(pc, Trail(s'.log, pc.Op()))
    ensures
      var v := ViewOf(s'); var w := ViewOf(s).(m := s'.shared);
      && v == w.(produced := v.produced, cleanedUp := v.cleanedUp) && !v.empty
      && (pc.Op() != Produce || s'.log == s.log ==> v.produced == w.produced)
      && (pc.Op() != CleanupJob || s'.log == s.log ==> v.cleanedUp == w.cleanedUp)
  {
    hide Threads, TrailMatches, Path, Trail, Progress, Idle;
    ThreadMoves(s, s', t, pc);
    ThreadHasBegun(s, t);
    MatchingTrailIsNonEmpty(pc, Trail(s'.log, pc.Op()));
    assert s'.threads != map[] by { assert t in s'.threads; }
    assert s.threads != map[] by { assert t in s.threads; }
  }

  lemma ReturnKeepsInv(s: State, t: nat, ok: bool)
    requires Inv(s)
    ensures Inv(Step(s, Return(t, ok)))
  {
    hide TrailMatches, TrailsMatch, Path, Trail, Progress, Begun, Idle, InFlight;
    var s' := Step(s, Return(t, ok));
    if s' != s {
      ReturnApplies(s, t, ok);
      ReturnTrails(s, t, ok);
      ThreadMoves(s, s', t, s'.threads[t]);
      MoveView(s, s', t, s'.threads[t]);
      FactsMove(s, s', t);
    }
  }

  lemma ReturnApplies(s: State, t: nat, ok: bool)
    requires Inv(s) && Step(s, Return(t, ok)) != s
    ensures t in s.threads && s.threads[t].Calling?
    ensures TrailMatches(s.threads[t], Trail(s.log, s.threads[t].op))
    ensures ThreadFact(Step(s, Return(t, ok)).threads[t], s.shared)
  {
    hide Trail, InFlight, PhaseFacts, ViewOf, Path, Progress;
  }

  /** Only thread t's own fact can change while the shared state is unchanged. */
  lemma FactsMove(s: State, s': State, t: nat)
    requires t in s.threads && t in s'.threads && s'.threads == s.threads[t := s'.threads[t]]
    requires ThreadFacts(s.threads, s.shared) && s'.shared == s.shared
    requires ThreadFact(s'.threads[t], s.shared)
    ensures ThreadFacts(s'.threads, s'.shared)
  {
  }

  lemma ThreadTrail(s: State, t: nat)
    requires Inv(s) && t in s.threads
    ensures TrailMatches(s.threads[t], Trail(s.log, s.threads[t].Op())) && ThreadFact(s.threads[t], s.shared)
    ensures s.threads[t].Op().CleanupJob? || s.shared.active > 0
  {
    hide Trail, PhaseFacts, ViewOf, Path, Progress;
    if !s.threads[t].Op().CleanupJob? { assert t in InFlight(s.threads); }
  }

  lemma CheckKeepsInv(s: State, t: nat)
    requires Inv(s)
    ensures Inv(Step(s, Check(t)))
  {
    hide TrailsMatch, Trail, Begun, Idle, InFlight, ThreadFacts, Progress;
    var s' := Step(s, Check(t));
    if s' != s {
      ThreadTrail(s, t);
      ThreadMoves(s, s', t, s'.threads[t]);
      MoveView(s, s', t, s'.threads[t]);
      CheckFacts(s, t);
    }
  }

  lemma CheckFacts(s: State, t: nat)
    requires Inv(s) && t in s.threads && s.threads[t].Checking?
    ensures var s' := Step(s, Check(t)); ThreadFacts(s'.threads, s'.shared)
  {
    hide Trail, TrailsMatch, Begun, Path, Progress, InFlight;
    var s' := Step(s, Check(t));
    assert ThreadFact(s'.threads[t], s'.shared);
    forall u | u in s'.threads && u != t ensures ThreadFact(s'.threads[u], s'.shared) {
      assert u in s.threads && s.threads[u].Op() != s.threads[t].Op();
    }
  }

  /** A thread's end, seen through the view. */
  lemma LeaveView(s: State, s': State, t: nat)
    requires t in s.threads && s'.threads == s.threads - {t} && s'.log == s.log
    requires Threads(s) && Complete(s.threads[t].Op(), Trail(s.log, s.threads[t].Op()))
    ensures
      var op := s.threads[t].Op(); var v := ViewOf(s); var v' := ViewOf(s');
      && v' == v.(m := s'.shared, empty := v'.empty, preparing := v'.preparing, cleaning := v'.cleaning)
      && !v.empty
      && v'.preparing == (v.preparing && !op.PrepareJob?)
      && v'.cleaning == (v.cleaning && !op.CleanupJob?)
  {
    hide Threads, Complete, Path, Trail, Progress, Idle;
    ThreadLeaves(s, s', t);
    assert s.threads != map[] by { assert t in s.threads; }
  }

  lemma MatchingTrailIsComplete(pc: Pc, trail: seq<Event>)
    requires TrailMatches(pc, trail) && (pc.Ending? || pc.Leaving?)
    ensures Complete(pc.Op(), trail)
  {
  }

  lemma StopKeepsInv(s: State, t: nat)
    requires Inv(s)
    ensures Inv(Step(s, Stop(t)))
  {
    hide TrailsMatch, TrailMatches, Complete, Trail, Begun, Idle, InFlight, Progress, Path;
    var s' := Step(s, Stop(t));
    if s' != s {
      ThreadTrail(s, t);
      MatchingTrailIsComplete(s.threads[t], Trail(s.log, s.threads[t].Op()));
      StopMeans(s, t);
      ThreadLeaves(s, s', t);
      LeaveView(s, s', t);
    }
  }

  lemma StopMeans(s: State, t: nat)
    requires Inv(s) && t in s.threads && s.threads[t].Ending?
    ensures !s.threads[t].op.CleanupJob?
    ensures s.threads[t].op.PrepareJob? ==> !Idle(s, PrepareJob) && Begun(s, PrepareJob)
    ensures s.threads[t].op.RunScriptStep? ==> Begun(s, RunScriptStep)
    ensures s.threads[t].op.Produce? ==> Begun(s, Produce)
  {
    hide Trail, InFlight, PhaseFacts, ViewOf, Progress, Begun;
    ThreadTrail(s, t);
    ThreadHasBegun(s, t);
  }

  lemma DrainKeepsInv(s: State, t: nat, a: Action)
    requires Inv(s) && (a == Drained(t) || a == Timeout(t))
    ensures Inv(Step(s, a))
  {
    hide TrailsMatch, Trail, Begun, Idle, InFlight, Progress;
    var s' := Step(s, a);
    if s' != s {
      ThreadTrail(s, t);
      ThreadMoves(s, s', t, s'.threads[t]);
      MoveView(s, s', t, s'.threads[t]);
      FactsMove(s, s', t);
    }
  }

  /** When cleanup leaves successfully nothing else is in flight and its callback answered True. */
  lemma LeaveMeans(s: State, t: nat)
    requires Inv(s) && t in s.threads && s.threads[t].Leaving?
    ensures !Idle(s, CleanupJob) && Begun(s, CleanupJob)
    ensures s.threads[t].ok ==> s.threads - {t} == map[]
    ensures s.threads[t].ok ==> Trail(s.log, CleanupJob) == Progress(CleanupJob, 1)
  {
    hide Trail, PhaseFacts, ViewOf, Begun, Progress, Path, FailedTrail;
    ThreadHasBegun(s, t);
    ThreadTrail(s, t);
    if s.threads[t].ok {
      assert InFlight(s.threads) == {};
      forall u | u in s.threads ensures u == t {
        assert u !in InFlight(s.threads);
      }
    }
  }

  lemma LeaveKeepsInv(s: State, t: nat)
    requires Inv(s)
    ensures Inv(Step(s, Leave(t)))
  {
    hide TrailsMatch, Complete, Trail, Begun, InFlight, Progress, Path;
    var s' := Step(s, Leave(t));
    if s' != s {
      ThreadTrail(s, t);
      MatchingTrailIsComplete(s.threads[t], Trail(s.log, s.threads[t].Op()));
      LeaveMeans(s, t);
      ThreadLeaves(s, s', t);
      LeaveView(s, s', t);
    }
  }

  lemma StepKeepsInv(s: State, a: Action)
    requires Inv(s)
    ensures Inv(Step(s, a))
  {
    hide Inv, Step;
    match a
    case Start(t, op) => StartKeepsInv(s, t, op);
    case Return(t, ok) => ReturnKeepsInv(s, t, ok);
    case Check(t) => CheckKeepsInv(s, t);
    case Stop(t) => StopKeepsInv(s, t);
    case Drained(t) => DrainKeepsInv(s, t, a);
    case Timeout(t) => DrainKeepsInv(s, t, a);
    case Leave(t) => LeaveKeepsInv(s, t);
  }

  lemma {:induction false} RunKeepsInv(s: State, actions: seq<Action>)
    requires Inv(s)
    ensures Inv(Run(s, actions))
    decreases |actions|
  {
    hide Inv, Step;
    if actions != [] {
      StepKeepsInv(s, actions[0]);
      RunKeepsInv(Step(s, actions[0]), actions[1..]);
    }
  }

  lemma InvHolds(actions: seq<Action>)
    ensures Inv(Run(INIT, actions))
  {
    assert InFlight(map[]) == {};
    RunKeepsInv(INIT, actions);
  }

  /* ---- CLEANED is absorbing ---- */

  lemma CleanedIsStuck(s: State, a: Action)
    requires Inv(s) && s.shared.phase == Cleaned
    ensures Step(s, a) == s
  {
    ProgressNonEmpty(CleanupJob, 1);
    hide Threads, ThreadFacts, InFlight, Idle, Path;
  }

  /**
   In every interleaving, once the phase is CLEANED no action of any thread has an effect:
   no callback of any kind is invoked again and no counter moves. CLEANED is only ever
   reached with no operation active, after the cleanup callback was invoked once and
   answered True.
   */
  lemma {:induction false} CleanedIsAbsorbing(actions: seq<Action>, more: seq<Action>)
    requires Run(INIT, actions).shared.phase == Cleaned
    ensures Run(Run(INIT, actions), more) == Run(INIT, actions)
    ensures Run(INIT, actions).shared.active == 0
    ensures Trail(Run(INIT, actions).log, CleanupJob)
         == [Began(CleanupJob), Invoked(CleanupJob, CleanupCallback), Answered(CleanupJob, CleanupCallback, true)]
    decreases |more|
  {
    var s := Run(INIT, actions);
    InvHolds(actions);
    CleanedFacts(s);
    if more != [] {
      CleanedIsStuck(s, more[0]);
      CleanedIsAbsorbing(actions, more[1..]);
    }
  }

  lemma CleanedFacts(s: State)
    requires Inv(s) && s.shared.phase == Cleaned
    ensures s.shared.active == 0
    ensures Trail(s.log, CleanupJob)
         == [Began(CleanupJob), Invoked(CleanupJob, CleanupCallback), Answered(CleanupJob, CleanupCallback, true)]
  {
    assert InFlight(s.threads) == {};
    assert Progress(CleanupJob, 1) == Progress(CleanupJob, 0)
      + [Invoked(CleanupJob, CleanupCallback), Answered(CleanupJob, CleanupCallback, true)];
  }

  /* ---- At most once ---- */

  function Invocations(log: seq<Event>, op: Operation, callback: Callback): nat {
    if log == [] then 0
    else Invocations(log[..|log| - 1], op, callback) + (if log[|log| - 1] == Invoked(op, callback) then 1 else 0)
  }

  lemma InvocationsSnoc(log: seq<Event>, e: Event, op: Operation, callback: Callback)
    ensures Invocations(log + [e], op, callback)
         == Invocations(log, op, callback) + (if e == Invoked(op, callback) then 1 else 0)
  {
    assert (log + [e])[..|log|] == log;
  }

  lemma {:induction false} InvocationsOfTrail(log: seq<Event>, op: Operation, callback: Callback)
    ensures Invocations(log, op, callback) == Invocations(Trail(log, op), op, callback)
    decreases |log|
  {
    if log != [] {
      var init, e := log[..|log| - 1], log[|log| - 1];
      InvocationsOfTrail(init, op, callback);
      assert log == init + [e];
      InvocationsSnoc(init, e, op, callback);
      TrailSnoc(init, e, op);
      InvocationsSnoc(Trail(init, op), e, op, callback);
      hide Invocations, Trail;
    }
  }

  lemma PathIsDistinct(op: Operation, i: nat)
    requires i < |Path(op)|
    ensures Path(op)[i] !in Path(op)[..i]
    ensures Path(op)[..i + 1] == Path(op)[..i] + [Path(op)[i]]
  {
  }

  /** Among the first i callbacks of a path, a callback is invoked exactly once if it is there. */
  lemma {:induction false} InvocationsOfProgress(op: Operation, i: nat, callback: Callback)
    requires i <= |Path(op)|
    ensures Invocations(Progress(op, i), op, callback) == if callback in Path(op)[..i] then 1 else 0
    decreases i
  {
    if i == 0 {
      InvocationsSnoc([], Began(op), op, callback);
      assert [] + [Began(op)] == [Began(op)];
    } else {
      InvocationsOfProgress(op, i - 1, callback);
      PathIsDistinct(op, i - 1);
      ProgressAdds(op, i - 1, callback);
      hide Invocations, Path, Progress;
    }
  }

  lemma ProgressAdds(op: Operation, i: nat, callback: Callback)
    requires i < |Path(op)|
    ensures Invocations(Progress(op, i + 1), op, callback)
         == Invocations(Progress(op, i), op, callback) + (if callback == Path(op)[i] then 1 else 0)
  {
    var p := Progress(op, i);
    var invoked, answered := Invoked(op, Path(op)[i]), Answered(op, Path(op)[i], true);
    InvocationsSnoc(p, invoked, op, callback);
    InvocationsSnoc(p + [invoked], answered, op, callback);
    assert Progress(op, i + 1) == p + [invoked] + [answered];
    hide Invocations, Path, Progress;
  }

  lemma InvocationsOfNext(op: Operation, i: nat, tail: seq<Event>, callback: Callback)
    requires i < |Path(op)|
    requires tail == [Invoked(op, Path(op)[i])] || tail == [Invoked(op, Path(op)[i]), Answered(op, Path(op)[i], false)]
    ensures Invocations(Progress(op, i) + tail, op, callback) <= 1
  {
    var p := Progress(op, i);
    InvocationsOfProgress(op, i, callback);
    InvocationsSnoc(p, tail[0], op, callback);
    if |tail| == 2 {
      InvocationsSnoc(p + [tail[0]], tail[1], op, callback);
      assert p + tail == p + [tail[0]] + [tail[1]];
    }
    PathIsDistinct(op, i);
  }

  lemma InvocationsOfFailed(op: Operation, trail: seq<Event>, callback: Callback)
    requires FailedTrail(op, trail)
    ensures Invocations(trail, op, callback) <= 1
  {
    var i :| 0 <= i < |Path(op)| && trail == FailedAt(op, i);
    InvocationsOfNext(op, i, [Invoked(op, Path(op)[i]), Answered(op, Path(op)[i], false)], callback);
  }

  lemma InvocationsOfMatching(pc: Pc, trail: seq<Event>, callback: Callback)
    requires TrailMatches(pc, trail)
    ensures Invocations(trail, pc.Op(), callback) <= 1
  {
    var op := pc.Op();
    if pc.Calling? {
      InvocationsOfNext(op, pc.i, [Invoked(op, Path(op)[pc.i])], callback);
    } else if FailedTrail(op, trail) {
      InvocationsOfFailed(op, trail, callback);
    } else {
      InvocationsOfProgress(op, |Path(op)|, callback);
    }
  }

  /** Over every run, each operation invokes each of its callbacks at most once. */
  lemma CallbacksAtMostOnce(actions: seq<Action>, op: Operation, callback: Callback)
    ensures Invocations(Run(INIT, actions).log, op, callback) <= 1
  {
    var s := Run(INIT, actions);
    InvHolds(actions);
    InvocationsOfTrail(s.log, op, callback);
    hide PhaseFacts, ThreadFacts, Run, InFlight;
    if t :| t in s.threads && s.threads[t].Op() == op {
      InvocationsOfMatching(s.threads[t], Trail(s.log, op), callback);
    } else {
      assert Idle(s, op);
      if FailedTrail(op, Trail(s.log, op)) {
        InvocationsOfFailed(op, Trail(s.log, op), callback);
      } else {
        InvocationsOfProgress(op, |Path(op)|, callback);
      }
    }
  }

  /* ---- Operations in flight ---- */

  function Having(threads: map<nat, Pc>, op: Operation): set<nat> {
    set t | t in threads && threads[t].Op() == op
  }

  lemma AtMostOneOf(s: State, op: Operation)
    requires OneThreadPerOperation(s)
    ensures |Having(s.threads, op)| <= 1
  {
    var ts := Having(s.threads, op);
    if t :| t in ts {
      assert ts == {t};
    }
  }

  lemma PrepareExcludesOthers(s: State)
    requires Inv(s)
    ensures Idle(s, PrepareJob) || (Idle(s, RunScriptStep) && Idle(s, Produce))
  {
    hide ThreadFacts, InFlight, TrailsMatch, Trail;
    if !Idle(s, PrepareJob) {
      NotBegunIsIdle(s, RunScriptStep);
      NotBegunIsIdle(s, Produce);
    }
  }

  lemma UnionOfAtMostOnes(a: set<nat>, b: set<nat>)
    requires |a| <= 1 && |b| <= 1
    ensures |a + b| <= 2
  {
  }

  lemma InFlightIs(s: State)
    ensures Idle(s, PrepareJob) ==> InFlight(s.threads) == Having(s.threads, RunScriptStep) + Having(s.threads, Produce)
    ensures Idle(s, RunScriptStep) && Idle(s, Produce) ==> InFlight(s.threads) == Having(s.threads, PrepareJob)
  {
  }

  lemma InFlightAtMostTwo(s: State)
    requires OneThreadPerOperation(s)
    requires Idle(s, PrepareJob) || (Idle(s, RunScriptStep) && Idle(s, Produce))
    ensures |InFlight(s.threads)| <= 2
  {
    hide OneThreadPerOperation, Idle, InFlight, Having;
    AtMostOneOf(s, RunScriptStep);
    AtMostOneOf(s, Produce);
    AtMostOneOf(s, PrepareJob);
    UnionOfAtMostOnes(Having(s.threads, RunScriptStep), Having(s.threads, Produce));
    InFlightIs(s);
  }

  /** `active_operations` counts the operations in flight, and there are never more than two. */
  lemma ActiveOperationsCounted(actions: seq<Action>)
    ensures var s := Run(INIT, actions);
      s.shared.active == |InFlight(s.threads)| && s.shared.active <= 2
  {
    InvHolds(actions);
    hide Run;
    PrepareExcludesOthers(Run(INIT, actions));
    InFlightAtMostTwo(Run(INIT, actions));
  }

  /* ---- Production ---- */

  /**
   FINISHED implies that production is done, and production is done only after the peer
   check, the admission check and the producer each returned True, in that order.
   */
  lemma ProductionInOrder(actions: seq<Action>)
    ensures var s := Run(INIT, actions);
      && (s.shared.phase == Finished ==> s.shared.producerDone)
      && (s.shared.producerDone ==>
            Trail(s.log, Produce) ==
              [Began(Produce),
               Invoked(Produce, VerifyJobPeer), Answered(Produce, VerifyJobPeer, true),
               Invoked(Produce, VerifyAdmission), Answered(Produce, VerifyAdmission, true),
               Invoked(Produce, ProduceCallback), Answered(Produce, ProduceCallback, true)])
  {
    InvHolds(actions);
    hide Run, Threads, ThreadFacts;
    assert Progress(Produce, 1) == Progress(Produce, 0)
      + [Invoked(Produce, VerifyJobPeer), Answered(Produce, VerifyJobPeer, true)];
    assert Progress(Produce, 2) == Progress(Produce, 1)
      + [Invoked(Produce, VerifyAdmission), Answered(Produce, VerifyAdmission, true)];
    assert Progress(Produce, 3) == Progress(Produce, 2)
      + [Invoked(Produce, ProduceCallback), Answered(Produce, ProduceCallback, true)];
  }

  /* ---- What a started cleanup does, and does not, stop ---- */

  function Begins(log: seq<Event>): nat {
    if log == [] then 0
    else Begins(log[..|log| - 1]) + (if log[|log| - 1].Began? then 1 else 0)
  }

  lemma BeginsSnoc(log: seq<Event>, e: Event)
    ensures Begins(log + [e]) == Begins(log) + (if e.Began? then 1 else 0)
  {
    assert (log + [e])[..|log|] == log;
  }

  lemma {:induction false} RunAppend(s: State, a: seq<Action>, b: seq<Action>)
    ensures Run(s, a + b) == Run(Run(s, a), b)
    decreases |a|
  {
    hide Step;
    if a == [] {
      assert a + b == b;
    } else {
      assert (a + b)[1..] == a[1..] + b;
      RunAppend(Step(s, a[0]), a[1..], b);
    }
  }

  lemma RunFour(s: State, a: seq<Action>)
    requires |a| == 4
    ensures Run(s, a) == Step(Step(Step(Step(s, a[0]), a[1]), a[2]), a[3])
  {
    hide Step;
    var s1 := Step(s, a[0]);
    var s2 := Step(s1, a[1]);
    var s3 := Step(s2, a[2]);
    assert Run(s, a) == Run(s1, a[1..]);
    assert a[1..][1..] == a[2..] && Run(s1, a[1..]) == Run(s2, a[2..]);
    assert a[2..][1..] == a[3..] && Run(s2, a[2..]) == Run(s3, a[3..]);
    assert a[3..][1..] == [] && Run(s3, a[3..]) == Run(Step(s3, a[3]), []);
  }

  /** A prepare whose re-check has passed: it is about to call `_end`. */
  lemma PrepareAboutToEnd() returns (actions: seq<Action>)
    ensures var s := Run(INIT, actions);
      s.shared == Shared(Preparing, false, false, false, 1) && s.threads == map[0 := Ending(PrepareJob, true)]
  {
    actions := [Start(0, PrepareJob), Return(0, true), Return(0, true), Check(0)];
    RunFour(INIT, actions);
    var s1 := Step(INIT, actions[0]);
    assert s1.threads == map[0 := Calling(PrepareJob, 0)];
    var s3 := Step(Step(s1, actions[1]), actions[2]);
    assert s3.threads == map[0 := Checking(PrepareJob)] && s3.shared == s1.shared;
  }

  /** Cleanup starts, fails and leaves; then the late prepare ends. */
  lemma LateEndRevives(s: State) returns (actions: seq<Action>)
    requires s.shared == Shared(Preparing, false, false, false, 1) && s.threads == map[0 := Ending(PrepareJob, true)]
    ensures var s' := Run(s, actions); s'.shared == Shared(Prepared, false, false, true, 0) && s'.threads == map[]
  {
    actions := [Start(1, CleanupJob), Return(1, false), Leave(1), Stop(0)];
    RunFour(s, actions);
    var s2 := Step(Step(s, actions[0]), actions[1]);
    assert s2.threads == map[0 := Ending(PrepareJob, true), 1 := Leaving(false)];
    var s3 := Step(s2, actions[2]);
    assert s3.threads == map[0 := Ending(PrepareJob, true)] && s3.shared.phase == Failed;
    assert Step(s3, actions[3]).threads == map[];
  }

  /**
   "Once cleanup has started nothing begins" is false. A prepare that passed its re-check
   before cleanup started still calls `_end` afterwards; if cleanup has failed by then, the
   phase FAILED is overwritten by PREPARED and the script step begins.
   */
  lemma CleanupStartedDoesNotStopEverything()
    ensures exists actions: seq<Action>, more: seq<Action> ::
      && Run(INIT, actions).shared.cleanupStarted
      && Begins(Run(Run(INIT, actions), more).log) > Begins(Run(INIT, actions).log)
  {
    var first := PrepareAboutToEnd();
    var second := LateEndRevives(Run(INIT, first));
    RunAppend(INIT, first, second);
    var more := BeginNow(Run(INIT, first + second), RunScriptStep);
  }

  /** The guard that decides it: a phase an operation may enter, or a late successful prepare. */
  ghost predicate CanStillBegin(s: State) {
    || s.shared.phase == Prepared
    || (s.shared.phase == Running && !s.shared.producerStarted)
    || LatePrepare(s)
  }

  ghost predicate LatePrepare(s: State) {
    exists t :: t in s.threads && s.threads[t] == Ending(PrepareJob, true)
  }

  /** Only an entering operation adds a Began event. */
  lemma BeginsOnlyOnStart(s: State, a: Action)
    ensures a.Start? || Begins(Step(s, a).log) == Begins(s.log)
  {
    if a.Return? && a.t in s.threads && s.threads[a.t].Calling? {
      var Calling(op, i) := s.threads[a.t];
      if i < |Path(op)| {
        BeginsSnoc(s.log, Answered(op, Path(op)[i], a.ok));
        if i + 1 < |Path(op)| {
          BeginsSnoc(s.log + [Answered(op, Path(op)[i], a.ok)], Invoked(op, Path(op)[i + 1]));
          assert s.log + [Answered(op, Path(op)[i], a.ok)] + [Invoked(op, Path(op)[i + 1])]
              == Step(s, a).log || !a.ok;
        }
      }
    }
  }

  lemma StoppedStaysStopped(s: State, a: Action)
    requires Inv(s) && s.shared.cleanupStarted && !CanStillBegin(s)
    ensures var s' := Step(s, a);
      s'.shared.cleanupStarted && !CanStillBegin(s') && Begins(s'.log) == Begins(s.log)
  {
    hide Threads, ThreadFacts, InFlight, Trail, Idle, Begun, Path, Begins;
    BeginsOnlyOnStart(s, a);
    var s' := Step(s, a);
    forall t | t in s'.threads && s'.threads[t] == Ending(PrepareJob, true)
      ensures t in s.threads && s.threads[t] == Ending(PrepareJob, true)
    {
    }
  }

  lemma {:induction false} StoppedForever(s: State, more: seq<Action>)
    requires Inv(s) && s.shared.cleanupStarted && !CanStillBegin(s)
    ensures Begins(Run(s, more).log) == Begins(s.log)
    decreases |more|
  {
    if more != [] {
      StoppedStaysStopped(s, more[0]);
      StepKeepsInv(s, more[0]);
      hide Inv, CanStillBegin, Step;
      StoppedForever(Step(s, more[0]), more[1..]);
    }
  }

  lemma FreshThread(threads: map<nat, Pc>) returns (t: nat)
    ensures t !in threads
  {
    t := FreshFor(threads.Keys);
  }

  lemma {:induction false} FreshFor(keys: set<nat>) returns (t: nat)
    ensures forall k :: k in keys ==> k < t
    decreases |keys|
  {
    if keys == {} {
      t := 0;
    } else {
      var k :| k in keys;
      var u := FreshFor(keys - {k});
      t := if k < u then u else k + 1;
      assert forall i :: i in keys ==> i == k || i in keys - {k};
    }
  }

  lemma BeginNow(s: State, op: Operation) returns (more: seq<Action>)
    requires Enter(s.shared, op).Some?
    ensures Begins(Run(s, more).log) > Begins(s.log)
  {
    var t := FreshThread(s.threads);
    more := [Start(t, op)];
    BeginsSnoc(s.log, Began(op));
    BeginsSnoc(s.log + [Began(op)], Invoked(op, Path(op)[0]));
    assert Step(s, Start(t, op)).log == s.log + [Began(op)] + [Invoked(op, Path(op)[0])];
    assert Run(s, more) == Step(s, Start(t, op));
  }

  lemma CleaningHasThread(s: State, t: nat) returns (u: nat)
    requires Inv(s) && s.shared.phase == Cleaning && t in s.threads && s.threads[t] == Ending(PrepareJob, true)
    ensures u in s.threads && u != t && s.threads[u] in {Calling(CleanupJob, 0), Draining, Leaving(false)}
    ensures s.shared.active > 0
  {
    ThreadTrail(s, t);
    assert !Idle(s, CleanupJob);
    hide Trail, Progress, PhaseFacts, ThreadFacts, InFlight;
    u :| u in s.threads && s.threads[u].Op() == CleanupJob;
    ThreadTrail(s, u);
  }

  lemma FailingReturn(s: State, u: nat) returns (first: Action)
    requires u in s.threads && s.threads[u] in {Calling(CleanupJob, 0), Draining, Leaving(false)}
    requires s.shared.active > 0
    ensures !first.Start?
    ensures Step(s, first).threads == s.threads[u := Leaving(false)]
  {
    first := if s.threads[u].Draining? then Timeout(u) else Return(u, false);
  }

  lemma FailingLeave(s: State, u: nat, t: nat)
    requires u in s.threads && s.threads[u] == Leaving(false)
    requires t in s.threads && s.threads[t] == Ending(PrepareJob, true)
    ensures var s' := Step(s, Leave(u)); s'.shared.phase == Failed && LatePrepare(s')
  {
    assert Step(s, Leave(u)).threads[t] == Ending(PrepareJob, true);
  }

  /** Cleanup that is under way next to a late prepare can only fail: the prepare is still active. */
  lemma FailCleanup(s: State) returns (more: seq<Action>)
    requires Inv(s) && s.shared.phase == Cleaning && LatePrepare(s)
    ensures var s' := Run(s, more);
      s'.shared.phase == Failed && LatePrepare(s') && Begins(s'.log) == Begins(s.log)
  {
    var t :| t in s.threads && s.threads[t] == Ending(PrepareJob, true);
    var u := CleaningHasThread(s, t);
    var first := FailingReturn(s, u);
    hide Inv, Begins, Step, LatePrepare;
    BeginsOnlyOnStart(s, first);
    var s1 := Step(s, first);
    FailingLeave(s1, u, t);
    BeginsOnlyOnStart(s1, Leave(u));
    more := [first, Leave(u)];
    assert Run(s, more) == Run(s1, [Leave(u)]) == Step(s1, Leave(u));
  }

  lemma StillBegins(s: State) returns (more: seq<Action>)
    requires Inv(s) && s.shared.cleanupStarted && CanStillBegin(s)
    ensures Begins(Run(s, more).log) > Begins(s.log)
  {
    if s.shared.phase == Prepared {
      more := BeginNow(s, RunScriptStep);
    } else if s.shared.phase == Running && !s.shared.producerStarted {
      more := BeginNow(s, Produce);
    } else if s.shared.phase == Cleaning {
      var first := FailCleanup(s);
      var rest := ReviveFailed(Run(s, first));
      more := first + rest;
      RunAppend(s, first, rest);
    } else {
      LatePrepareMeansFailed(s);
      more := ReviveFailed(s);
    }
  }

  lemma LatePrepareMeansFailed(s: State)
    requires Inv(s) && s.shared.cleanupStarted && LatePrepare(s) && s.shared.phase != Cleaning
    ensures s.shared.phase == Failed
  {
    var t :| t in s.threads && s.threads[t] == Ending(PrepareJob, true);
    assert !Idle(s, PrepareJob);
  }

  lemma ReviveFailed(s: State) returns (more: seq<Action>)
    requires s.shared.phase == Failed && LatePrepare(s)
    ensures Begins(Run(s, more).log) > Begins(s.log)
  {
    var t :| t in s.threads && s.threads[t] == Ending(PrepareJob, true);
    var s1 := Step(s, Stop(t));
    var rest := BeginNow(s1, RunScriptStep);
    more := [Stop(t)] + rest;
    assert Run(s, more) == Run(s1, rest) by { assert more[1..] == rest; }
  }

  /**
   After cleanup has started, no operation ever begins again if and only if the phase admits
   none and no successful prepare is still on its way to `_end`.
   */
  lemma CleanupStopsEverythingExactlyWhen(actions: seq<Action>)
    requires Run(INIT, actions).shared.cleanupStarted
    ensures var s := Run(INIT, actions);
      (forall more: seq<Action> :: Begins(Run(s, more).log) == Begins(s.log)) <==> !CanStillBegin(s)
  {
    var s := Run(INIT, actions);
    InvHolds(actions);
    hide Inv, CanStillBegin;
    if CanStillBegin(s) {
      var more := StillBegins(s);
      assert Begins(Run(s, more).log) != Begins(s.log);
    } else {
      forall more: seq<Action>
        ensures Begins(Run(s, more).log) == Begins(s.log)
      {
        StoppedForever(s, more);
      }
    }
  }

  /* ---- The object whose fields the handlers update under the lock ---- */

  class H1SnapshotControl {
    var phase: Phase
    var producerStarted: bool
    var producerDone: bool
    var cleanupStarted: bool
    var activeOperations: int

    function Guarded(): Shared
      reads this
    {
      Shared(phase, producerStarted, producerDone, cleanupStarted, activeOperations)
    }

    constructor ()
      ensures Guarded() == FRESH
    {
      phase := New;
      producerStarted, producerDone, cleanupStarted := false, false, false;
      activeOperations := 0;
    }

    method BeginOperation(expected: Phase, pending: Phase) returns (accepted: bool)
      modifies this
      ensures accepted == Begin(old(Guarded()), expected, pending).Some?
      ensures Guarded() == if accepted then Begin(old(Guarded()), expected, pending).value else old(Guarded())
    {
      accepted := phase == expected;
      if accepted {
        phase := pending;
        activeOperations := activeOperations + 1;
      }
    }

    method EndOperation(newPhase: Option<Phase>)
      modifies this
      ensures Guarded() == End(old(Guarded()), newPhase)
    {
      activeOperations := activeOperations - 1;
      if phase != Cleaning && newPhase.Some? {
        phase := newPhase.value;
      }
    }

    method BeginCleanup() returns (accepted: bool)
      modifies this
      ensures accepted == EnterCleanup(old(Guarded())).Some?
      ensures Guarded() == if accepted then EnterCleanup(old(Guarded())).value else old(Guarded())
    {
      accepted := !cleanupStarted;
      if accepted {
        cleanupStarted := true;
        phase := Cleaning;
      }
    }

    method EndCleanup(ok: bool)
      modifies this
      ensures Guarded() == LeaveCleanup(old(Guarded()), ok)
    {
      phase := if ok then Cleaned else Failed;
    }

    method BeginProduce() returns (accepted: bool)
      modifies this
      ensures accepted == EnterProduce(old(Guarded())).Some?
      ensures Guarded() == if accepted then EnterProduce(old(Guarded())).value else old(Guarded())
    {
      accepted := phase == Running && !producerStarted;
      if accepted {
        producerStarted := true;
        activeOperations := activeOperations + 1;
      }
    }

    method ConfirmProduced() returns (accepted: bool)
      modifies this
      ensures accepted == MarkProduced(old(Guarded())).Some?
      ensures Guarded() == if accepted then MarkProduced(old(Guarded())).value else old(Guarded())
    {
      accepted := phase == Running;
      if accepted {
        producerDone := true;
      }
    }

    /**
     `_management` for a prepare or a script step, given what its two callbacks return. This covers
     only a run that no other thread interrupts: what interleaved runs do is in `Step`, whose sections
     are those of the methods above. A rejected request changes nothing; an accepted one always ends, in
     the finished phase exactly when it replies success.
     */
    method Manage(op: Operation, verified: bool, performed: bool) returns (succeeded: bool)
      requires op.PrepareJob? || op.RunScriptStep?
      modifies this
      ensures old(phase) != ExpectedPhase(op) ==> !succeeded && Guarded() == old(Guarded())
      ensures old(phase) == ExpectedPhase(op) ==>
        && succeeded == (verified && performed && (op.RunScriptStep? ==> producerDone))
        && Guarded() == old(Guarded()).(phase := if succeeded then FinishedPhase(op) else Failed)
    {
      var accepted := BeginOperation(ExpectedPhase(op), PendingPhase(op));
      if !accepted {
        return false;
      }
      succeeded := false;
      if verified && performed && phase == PendingPhase(op) {
        succeeded := op.PrepareJob? || producerDone;
      }
      EndOperation(Some(if succeeded then FinishedPhase(op) else Failed));
    }
  }
}
