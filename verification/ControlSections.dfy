/**
 When each step of the control protocol is taken and what it leaves, said of the phase, the flags and the
 threads alone; and a job from start to end.
 */
module ControlSections {
  import opened Wrappers
  import opened SnapshotControl

  /** A step that changes the shared state and one thread, which may end, and adds to the history. */
  predicate Moves(s: State, after: State, t: nat, shared: Shared, pc: Option<Pc>, log: seq<Event>) {
    && after.shared == shared && after.log == s.log + log
    && after.threads == (match pc case Some(p) => s.threads[t := p] case None => s.threads - {t})
  }

  /**
   A handler enters if the phase is the one its operation starts from (New to prepare, Prepared to run, Running
   to produce, and then only once, any to clean up, once); it then invokes its first callback.
   */
  lemma StartsExactlyWhen(s: State, t: nat, op: Operation)
    ensures var after, m := Step(s, Start(t, op)), s.shared;
      var first := match op
        case PrepareJob => VerifyAdmission case RunScriptStep => VerifyAdmission
        case Produce => VerifyJobPeer case CleanupJob => CleanupCallback;
      var enters := t !in s.threads && match op
        case PrepareJob => m.phase == New
        case RunScriptStep => m.phase == Prepared
        case Produce => m.phase == Running && !m.producerStarted
        case CleanupJob => !m.cleanupStarted;
      var entered := match op
        case PrepareJob => Shared(Preparing, m.producerStarted, m.producerDone, m.cleanupStarted, m.active + 1)
        case RunScriptStep => Shared(Running, m.producerStarted, m.producerDone, m.cleanupStarted, m.active + 1)
        case Produce => Shared(Running, true, m.producerDone, m.cleanupStarted, m.active + 1)
        case CleanupJob => Shared(Cleaning, m.producerStarted, m.producerDone, true, m.active);
      if enters then Moves(s, after, t, entered, Some(Calling(op, 0)), [Began(op), Invoked(op, first)]) else after == s
  {
  }

  /**
   A callback that does not return True ends the operation; otherwise the next callback follows: admission then
   the work to prepare and to run, peer, admission and the work to produce, one to clean up.
   */
  lemma ReturnsExactly(s: State, t: nat, ok: bool)
    ensures var after := Step(s, Return(t, ok));
      if t in s.threads && s.threads[t].Calling?
        && s.threads[t].i < (if s.threads[t].op == Produce then 3 else if s.threads[t].op == CleanupJob then 1 else 2)
      then
        var op, i := s.threads[t].op, s.threads[t].i;
        var answered := Answered(op, CallbackAt(op, i), ok);
        if !ok then
          Moves(s, after, t, s.shared, Some(if op == CleanupJob then Leaving(false) else Ending(op, false)), [answered])
        else if op == CleanupJob then Moves(s, after, t, s.shared, Some(Draining), [answered])
        else if i == (if op == Produce then 2 else 1) then Moves(s, after, t, s.shared, Some(Checking(op)), [answered])
        else Moves(s, after, t, s.shared, Some(Calling(op, i + 1)), [answered, Invoked(op, CallbackAt(op, i + 1))])
      else after == s
  {
  }

  function CallbackAt(op: Operation, i: nat): Callback {
    match op
    case PrepareJob => if i == 0 then VerifyAdmission else PrepareCallback
    case RunScriptStep => if i == 0 then VerifyAdmission else RunCallback
    case Produce => if i == 0 then VerifyJobPeer else if i == 1 then VerifyAdmission else ProduceCallback
    case CleanupJob => CleanupCallback
  }

  /**
   The re-check after the callbacks: preparing must still be Preparing, running still Running with production
   done, and producing still Running, which then is done.
   */
  lemma ChecksExactly(s: State, t: nat)
    ensures var after := Step(s, Check(t));
      if t in s.threads && s.threads[t].Checking? then
        var op, m := s.threads[t].op, s.shared;
        var confirmed := match op
          case PrepareJob => m.phase == Preparing
          case RunScriptStep => m.phase == Running && m.producerDone
          case Produce => m.phase == Running
          case CleanupJob => true;
        Moves(s, after, t, if op == Produce && confirmed then m.(producerDone := true) else m,
              Some(Ending(op, confirmed)), [])
      else after == s
  {
  }

  /**
   The end of an operation: one operation less is active, and unless cleanup is under way the phase becomes
   FAILED on failure, Prepared or FINISHED on success, and stays after production.
   */
  lemma StopsExactly(s: State, t: nat)
    ensures var after := Step(s, Stop(t));
      if t in s.threads && s.threads[t].Ending? then
        var op, ok, m := s.threads[t].op, s.threads[t].ok, s.shared;
        var phase :=
          if m.phase == Cleaning then Cleaning
          else if !ok then Failed
          else match op case PrepareJob => Prepared case Produce => m.phase case _ => Finished;
        Moves(s, after, t, Shared(phase, m.producerStarted, m.producerDone, m.cleanupStarted, m.active - 1), None, [])
      else after == s
  {
  }

  /** Cleanup waits until nothing is active, or gives up, and then leaves CLEANED or FAILED. */
  lemma CleanupEndsExactly(s: State, t: nat)
    ensures var drained, late := Step(s, Drained(t)), Step(s, Timeout(t));
      if t in s.threads && s.threads[t] == Draining then
        if s.shared.active == 0 then Moves(s, drained, t, s.shared, Some(Leaving(true)), []) && late == s
        else drained == s && Moves(s, late, t, s.shared, Some(Leaving(false)), [])
      else drained == s && late == s
    ensures var left := Step(s, Leave(t));
      if t in s.threads && s.threads[t].Leaving? then
        Moves(s, left, t, s.shared.(phase := if s.threads[t].ok then Cleaned else Failed), None, [])
      else left == s
  {
  }

  /** Nothing has happened at first. */
  lemma StartsNew()
    ensures INIT.shared == Shared(New, false, false, false, 0) && INIT.threads == map[] && INIT.log == []
  {
  }
}
