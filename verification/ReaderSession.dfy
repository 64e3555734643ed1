/**
 The dispatch reader session: one short-lived credential file, leased from an issuer and
 shared by every authority call of an attempt. Times are seconds. Everything the outside
 world decides (clock readings, what is found in the credential file, whether a child
 process answers) is a field of the event; the session decides the rest.
 */
module ReaderSession {
  import opened Wrappers

  type Reading = r: real | 0.0 <= r

  /** One reading of the wall clock and one of the monotonic clock. */
  datatype Clock = Clock(wall: Reading, mono: Reading)

  /** What `_pin` sees: the identity and digest of the file, and the two stamps inside it. */
  datatype Pin = Pin(identity: int, digest: int, issued: real, expires: real)

  /** The issuer's answer. */
  datatype Reply = Reply(ready: bool, digest: int, issued: real, expires: real)

  datatype Session = Session(
    before: Option<Pin>, expires: real, liveMono: real,
    waitMono: real, waitWall: real, started: real, lastWall: real,
    count: nat, failed: bool, closed: bool)

  datatype Call = Call(
    operation: string,
    start: Clock,           // the readings at the start of the call
    held: Option<Pin>,      // the file found before use; None when reading it is refused
    removed: bool,          // unlinking the old file succeeds
    present: bool,          // some file is there before issuing
    issueStart: real,       // the monotonic instant at which the issuer is started
    issueEnd: Clock,        // the readings just after the issuer returned or raised
    reply: Option<Reply>,   // None when the issuer raised
    issuedPin: Option<Pin>,     // the file found after issuing
    issuedBy: real,         // the wall reading compared with the issue stamp
    lifeAt: real,           // the wall reading the remaining life is taken from
    liveFrom: Clock,        // the readings `live_mono` is computed from
    opStart: real,          // the monotonic instants at which the authority starts
    opEnd: real,            // and ends
    answered: bool,         // the authority answered
    last: Option<Pin>,      // the file found after the authority answered
    endWall: real, expiryWall: real, endMono: Reading, newLastWall: real)

  datatype Outcome =
    | OperationInvalid | SessionClosed | TimeInvalid | SessionChanged | SessionPresent
    | IssuanceLimit | IssueFailed | SessionInvalid | OperationFailed | Done

  function Max(a: real, b: real): real { if a < b then b else a }
  function Min(a: real, b: real): real { if a < b then a else b }

  function Opened(clock: Clock): Session {
    Session(None, 0.0, 0.0, 0.0, 0.0, clock.mono, clock.wall, 0, false, false)
  }

  predicate Readable(p: Option<Pin>) {
    p.Some? && 0.0 < p.value.expires - p.value.issued <= 900.0
  }

  predicate Same(p: Option<Pin>, q: Option<Pin>) {
    Readable(p) && q.Some? && p.value.identity == q.value.identity && p.value.digest == q.value.digest
  }

  /* ---- One call, stage by stage; a stage that raises names its outcome ---- */

  function Refusal(s: Session, c: Call): Option<Outcome> {
    if c.operation !in {"admit", "recheck", "seal"} then Some(OperationInvalid)
    else if s.closed || s.failed then Some(SessionClosed)
    else if c.start.wall < s.lastWall || c.start.mono + 400.0 > s.started + 7200.0 then Some(TimeInvalid)
    else None
  }

  /** The held session is checked, and removed when too little of its life is left. */
  function Held(s: Session, c: Call): (Session, Option<Outcome>) {
    if s.before.None? then (s, None)
    else if !Same(c.held, s.before) then (s, Some(SessionChanged))
    else if Min(s.expires - c.start.wall, s.liveMono - c.start.mono) > 330.0 then (s, None)
    else if c.removed then (s.(before := None), None)
    else (s, Some(SessionChanged))
  }

  predicate Acceptable(s: Session, c: Call) {
    && c.reply.Some? && c.reply.value.ready
    && Readable(c.issuedPin)
    && c.reply.value.digest == c.issuedPin.value.digest
    && c.reply.value.issued == c.issuedPin.value.issued
    && c.reply.value.expires == c.issuedPin.value.expires
    && s.lastWall <= c.issuedPin.value.issued <= c.issuedBy
    && 840.0 <= c.issuedPin.value.expires - c.lifeAt <= 900.0
  }

  /** The issuer has returned or raised: whatever it created must be waited for. */
  function Charged(s: Session, c: Call): Session {
    s.(count := s.count + 1, failed := true,
       waitMono := Max(s.waitMono, c.issueEnd.mono + 900.0),
       waitWall := Max(s.waitWall, c.issueEnd.wall + 900.0))
  }

  function Renewed(s: Session, c: Call): (Session, Option<Outcome>) {
    if s.before.Some? then (s, None)
    else if c.present then (s, Some(SessionPresent))
    else if s.count >= 16 then (s, Some(IssuanceLimit))
    else if c.reply.None? then (Charged(s, c), Some(IssueFailed))
    else if !Acceptable(s, c) then (Charged(s, c), Some(SessionInvalid))
    else (Charged(s, c).(before := c.issuedPin, expires := c.issuedPin.value.expires,
                         liveMono := c.liveFrom.mono + c.issuedPin.value.expires - c.liveFrom.wall,
                         failed := false),
          None)
  }

  predicate InTime(s: Session, c: Call) {
    c.endWall >= s.lastWall && c.expiryWall < s.expires && c.endMono < s.liveMono
  }

  function Performed(s: Session, c: Call): (Session, Outcome) {
    if !c.answered then (s, OperationFailed)
    else if !Same(c.last, s.before) || !InTime(s, c) then (s, SessionChanged)
    else (s.(lastWall := c.newLastWall), Done)
  }

  /** The session as it is when the issuer is, or would be, invoked. */
  function BeforeIssue(s: Session, c: Call): (Session, Option<Outcome>) {
    var refusal := Refusal(s, c);
    if refusal.Some? then (s, refusal) else Held(s.(lastWall := c.start.wall), c)
  }

  /** The session as it is when the authority is, or would be, invoked. */
  function BeforeAuthority(s: Session, c: Call): (Session, Option<Outcome>) {
    var (held, problem) := BeforeIssue(s, c);
    if problem.Some? then (held, problem) else Renewed(held, c)
  }

  function AfterCall(s: Session, c: Call): (Session, Outcome) {
    var (ready, problem) := BeforeAuthority(s, c);
    if problem.Some? then (ready, problem.value) else Performed(ready, c)
  }

  /** This call invokes the issuer. */
  predicate Issues(s: Session, c: Call) {
    var (held, problem) := BeforeIssue(s, c);
    problem.None? && held.before.None? && !c.present && held.count < 16
  }

  /** This call invokes the authority. */
  predicate CallsAuthority(s: Session, c: Call) {
    BeforeAuthority(s, c).1.None?
  }

  /* ---- Closing ---- */

  datatype Close = Close(removed: bool, present: bool, readings: seq<Clock>)

  datatype Waited = Expired | Unknown | Waiting

  /** The wait loop over the clock readings it makes. */
  function Wait(waitMono: real, waitWall: real, readings: seq<Clock>): Waited {
    if waitMono == 0.0 && waitWall == 0.0 then Expired
    else if readings == [] then Waiting
    else if readings[0].mono >= waitMono && readings[0].wall >= waitWall then Expired
    else if readings[0].mono > waitMono + 30.0 then Unknown
    else Wait(waitMono, waitWall, readings[1..])
  }

  function SleepFor(waitMono: real, waitWall: real, now: Clock): real {
    Min(5.0, Max(0.01, Max(waitMono - now.mono, waitWall - now.wall)))
  }

  function AfterClose(s: Session, e: Close): Session {
    s.(closed := true, before := if e.removed then None else s.before)
  }

  /** `close` returns without raising. */
  predicate ClosesNormally(s: Session, e: Close) {
    (s.before.Some? ==> e.removed) && !e.present && Wait(s.waitMono, s.waitWall, e.readings).Expired?
  }

  /* ---- Runs ---- */

  datatype Event = Called(call: Call) | Closing(close: Close)

  /** The session with its history: when each issuance started and what the clocks read when it returned. */
  datatype Trace = Trace(session: Session, starts: seq<real>, ends: seq<Clock>)

  function Step(tr: Trace, event: Event): Trace {
    match event
    case Closing(e) => tr.(session := AfterClose(tr.session, e))
    case Called(c) =>
      var next := AfterCall(tr.session, c).0;
      if Issues(tr.session, c)
      then Trace(next, tr.starts + [c.start.mono], tr.ends + [c.issueEnd])
      else tr.(session := next)
  }

  function Run(tr: Trace, events: seq<Event>): Trace
    decreases |events|
  {
    if events == [] then tr else Run(Step(tr, events[0]), events[1..])
  }

  function Fresh(clock: Clock): Trace { Trace(Opened(clock), [], []) }

  /* ---- What a call does to the session ---- */

  lemma CallEffects(s: Session, c: Call)
    ensures var s' := AfterCall(s, c).0;
      && s'.closed == s.closed && s'.started == s.started
      && s'.count == s.count + (if Issues(s, c) then 1 else 0)
      && s'.waitMono == (if Issues(s, c) then Max(s.waitMono, c.issueEnd.mono + 900.0) else s.waitMono)
      && s'.waitWall == (if Issues(s, c) then Max(s.waitWall, c.issueEnd.wall + 900.0) else s.waitWall)
      && ((s.closed || s.failed) ==> s' == s && !Issues(s, c) && AfterCall(s, c).1 in {OperationInvalid, SessionClosed})
  {
  }

  /* ---- What a call answers ---- */

  /** A call on a session in use, early enough and with a clock that has not gone back. */
  predicate Permitted(s: Session, c: Call) {
    && (c.operation == "admit" || c.operation == "recheck" || c.operation == "seal")
    && !s.closed && !s.failed && s.lastWall <= c.start.wall && c.start.mono <= s.started + 6800.0
  }

  lemma RefusedExactlyWhen(s: Session, c: Call)
    ensures AfterCall(s, c).1.OperationInvalid? <==>
      c.operation != "admit" && c.operation != "recheck" && c.operation != "seal"
    ensures !Permitted(s, c) ==>
      AfterCall(s, c).0 == s && AfterCall(s, c).1 in {OperationInvalid, SessionClosed, TimeInvalid}
    ensures Permitted(s, c) ==> AfterCall(s, c).1 !in {OperationInvalid, SessionClosed, TimeInvalid}
    ensures AfterCall(s, c).1.TimeInvalid? ==> !s.closed && !s.failed
  {
  }

  /** What is found is the pinned file: its identity and digest, well stamped. */
  predicate IsPin(found: Option<Pin>, identity: int, digest: int) {
    match found
    case None => false
    case Some(p) =>
      && p.identity == identity && p.digest == digest
      && 0.0 < p.expires - p.issued && p.expires - p.issued <= 900.0
  }

  /** The answer counts if it came, the pinned file is still there, and both clocks are before the expiry. */
  predicate EndsWell(c: Call, identity: int, digest: int, expires: real, liveMono: real) {
    && c.answered && IsPin(c.last, identity, digest)
    && c.start.wall <= c.endWall && c.expiryWall < expires && c.endMono < liveMono
  }

  /** More than 330 seconds are left on both clocks. */
  predicate LongEnough(s: Session, c: Call) { s.expires - c.start.wall > 330.0 && s.liveMono - c.start.mono > 330.0 }

  /**
   A call that holds a session with enough life: it is done if and only if the very file that was pinned is
   found before and after and an answer comes in time; a file that differs either time is a changed session.
   The session keeps its pin.
   */
  lemma HeldSessionAnswers(s: Session, c: Call)
    requires Permitted(s, c) && s.before.Some? && LongEnough(s, c)
    ensures var (p, answer) := (s.before.value, AfterCall(s, c).1);
      && (answer.Done? <==>
            IsPin(c.held, p.identity, p.digest) && EndsWell(c, p.identity, p.digest, s.expires, s.liveMono))
      && (answer.OperationFailed? <==> IsPin(c.held, p.identity, p.digest) && !c.answered)
      && answer in {Done, OperationFailed, SessionChanged}
    ensures AfterCall(s, c).0 == s.(lastWall := if AfterCall(s, c).1.Done? then c.newLastWall else c.start.wall)
  {
  }

  /** What an issuer's answer must be for the file it made. */
  predicate WellIssued(c: Call) {
    match (c.reply, c.issuedPin)
    case (Some(r), Some(p)) =>
      && r == Reply(true, p.digest, p.issued, p.expires) && 0.0 < p.expires - p.issued && p.expires - p.issued <= 900.0
      && c.start.wall <= p.issued && p.issued <= c.issuedBy
      && 840.0 <= p.expires - c.lifeAt && p.expires - c.lifeAt <= 900.0
    case _ => false
  }

  /** No session, or one to be replaced whose own file was found and removed. */
  predicate MakesRoom(s: Session, c: Call) {
    match s.before
    case None => true
    case Some(p) => !LongEnough(s, c) && IsPin(c.held, p.identity, p.digest) && c.removed
  }

  /**
   A call that issues a session: it is done if and only if the issuer's answer fits the file it made, and
   that very file is found afterwards and an answer comes in time. The session then is the new one.
   */
  lemma FreshSessionAnswers(s: Session, c: Call)
    requires Permitted(s, c) && MakesRoom(s, c) && !c.present && s.count < 16
    ensures var (after, answer) := AfterCall(s, c);
      && (answer.IssueFailed? <==> c.reply.None?)
      && (answer.SessionInvalid? <==> c.reply.Some? && !WellIssued(c))
      && (WellIssued(c) ==>
            var p := c.issuedPin.value;
            var live := c.liveFrom.mono + (p.expires - c.liveFrom.wall);
            && (answer.Done? <==> EndsWell(c, p.identity, p.digest, p.expires, live))
            && (answer.OperationFailed? <==> !c.answered) && answer in {Done, OperationFailed, SessionChanged}
            && after.before == Some(p) && after.expires == p.expires && after.liveMono == live && !after.failed
            && after.lastWall == if answer.Done? then c.newLastWall else c.start.wall)
      && (!WellIssued(c) ==> after.failed && after.before.None? && after.lastWall == c.start.wall)
      && after.count == s.count + 1
  {
  }

  /** Everything else is refused before anything is issued. */
  lemma NothingIsIssuedOtherwise(s: Session, c: Call)
    requires Permitted(s, c)
    ensures MakesRoom(s, c) && c.present ==> AfterCall(s, c).1 == SessionPresent
    ensures MakesRoom(s, c) && !c.present && s.count >= 16 ==> AfterCall(s, c).1 == IssuanceLimit
    ensures s.before.Some? && !LongEnough(s, c) && !MakesRoom(s, c) ==>
      AfterCall(s, c) == (s.(lastWall := c.start.wall), SessionChanged)
    ensures Issues(s, c) <==> MakesRoom(s, c) && !c.present && s.count < 16
  {
  }

  /** A new session permits a first call, which makes its own file, and can be closed at once. */
  lemma NewSessionIsOpen(clock: Clock, c: Call, removed: bool)
    requires c.operation == "admit" || c.operation == "recheck" || c.operation == "seal"
    requires clock.wall <= c.start.wall && c.start.mono <= clock.mono + 6800.0
    ensures var s := Opened(clock);
      && Permitted(s, c) && MakesRoom(s, c) && s.count == 0 && s.started == clock.mono && s.lastWall == clock.wall
      && ClosesNormally(s, Close(removed, false, []))
  {
  }

  /* ---- Waiting covers every issuance ---- */

  ghost predicate WaitCovers(tr: Trace) {
    forall i :: 0 <= i < |tr.ends| ==>
      tr.session.waitMono >= tr.ends[i].mono + 900.0 && tr.session.waitWall >= tr.ends[i].wall + 900.0
  }

  lemma {:induction false} RunWaitCovers(tr: Trace, events: seq<Event>)
    requires WaitCovers(tr)
    ensures WaitCovers(Run(tr, events))
    decreases |events|
  {
    if events != [] {
      if events[0].Called? { CallEffects(tr.session, events[0].call); }
      RunWaitCovers(Step(tr, events[0]), events[1..]);
    }
  }

  lemma {:induction false} ExpiredReading(waitMono: real, waitWall: real, readings: seq<Clock>)
    requires waitMono > 0.0
    requires Wait(waitMono, waitWall, readings).Expired?
    ensures exists k :: 0 <= k < |readings| && readings[k].mono >= waitMono && readings[k].wall >= waitWall
  {
    if readings != [] && !(readings[0].mono >= waitMono && readings[0].wall >= waitWall) {
      ExpiredReading(waitMono, waitWall, readings[1..]);
      var k :| 0 <= k < |readings[1..]| && readings[1..][k].mono >= waitMono && readings[1..][k].wall >= waitWall;
      assert readings[k + 1] == readings[1..][k];
    }
  }

  /** Some reading of the wait loop is past 900 seconds from an issuance return on both clocks. */
  ghost predicate Outlived(readings: seq<Clock>, issued: Clock) {
    exists k :: 0 <= k < |readings| &&
      readings[k].mono >= issued.mono + 900.0 && readings[k].wall >= issued.wall + 900.0
  }

  lemma {:induction false} ClosedForever(tr: Trace, events: seq<Event>)
    requires tr.session.closed
    ensures var after := Run(tr, events); after.session.closed && after.starts == tr.starts && after.ends == tr.ends
    decreases |events|
  {
    if events != [] {
      if events[0].Called? { CallEffects(tr.session, events[0].call); }
      ClosedForever(Step(tr, events[0]), events[1..]);
    }
  }

  /**
   After a close that returns normally: the file was seen absent; for every issuance, the one
   whose outcome is unknown included, both clocks were read at least 900 seconds past its
   return; so any session stamped no later than its issuer's return and living at most 900
   seconds had expired; and whatever follows, no call succeeds or issues again.
   */
  lemma NormalCloseOutlivesEverySession(clock: Clock, events: seq<Event>, e: Close, more: seq<Event>, later: Call)
    requires ClosesNormally(Run(Fresh(clock), events).session, e)
    ensures !e.present
    ensures var tr := Run(Fresh(clock), events);
      forall i :: 0 <= i < |tr.ends| ==> Outlived(e.readings, tr.ends[i])
    ensures var tr := Run(Fresh(clock), events);
      forall i, stamp: Pin :: 0 <= i < |tr.ends| && stamp.issued <= tr.ends[i].wall && Readable(Some(stamp)) ==>
        exists k :: 0 <= k < |e.readings| && stamp.expires <= e.readings[k].wall
    ensures var end := Run(Step(Run(Fresh(clock), events), Closing(e)), more).session;
      && end.before.None?
      && !Issues(end, later)
      && AfterCall(end, later).1 in {OperationInvalid, SessionClosed}
  {
    var tr := Run(Fresh(clock), events);
    RunWaitCovers(Fresh(clock), events);
    forall i | 0 <= i < |tr.ends|
      ensures Outlived(e.readings, tr.ends[i])
    {
      assert tr.session.waitMono >= tr.ends[i].mono + 900.0;
      ExpiredReading(tr.session.waitMono, tr.session.waitWall, e.readings);
    }
    forall i, stamp: Pin | 0 <= i < |tr.ends| && stamp.issued <= tr.ends[i].wall && Readable(Some(stamp))
      ensures exists k :: 0 <= k < |e.readings| && stamp.expires <= e.readings[k].wall
    {
      assert Outlived(e.readings, tr.ends[i]);
    }
    ClosedForever(Step(tr, Closing(e)), more);
    NothingHeldStays(Step(tr, Closing(e)), more);
    CallEffects(Run(Step(tr, Closing(e)), more).session, later);
  }

  lemma {:induction false} NothingHeldStays(tr: Trace, events: seq<Event>)
    requires tr.session.closed && tr.session.before.None?
    ensures Run(tr, events).session.before.None?
    decreases |events|
  {
    if events != [] {
      if events[0].Called? { CallEffects(tr.session, events[0].call); }
      NothingHeldStays(Step(tr, events[0]), events[1..]);
    }
  }

  /* ---- What a close answers ---- */

  /** The first reading past both bounds comes before any that is more than 30 seconds past the monotonic one. */
  ghost predicate ExpiresInTime(waitMono: real, waitWall: real, readings: seq<Clock>) {
    exists k :: 0 <= k < |readings| && waitMono <= readings[k].mono && waitWall <= readings[k].wall
      && forall i :: 0 <= i < k ==> readings[i].mono <= waitMono + 30.0
  }

  lemma {:induction false} WaitEndsExactlyWhen(waitMono: real, waitWall: real, readings: seq<Clock>)
    ensures Wait(waitMono, waitWall, readings).Expired? <==>
      (waitMono == 0.0 && waitWall == 0.0) || ExpiresInTime(waitMono, waitWall, readings)
    decreases |readings|
  {
    if !(waitMono == 0.0 && waitWall == 0.0) && readings != [] {
      WaitEndsExactlyWhen(waitMono, waitWall, readings[1..]);
      if readings[0].mono >= waitMono && readings[0].wall >= waitWall {
        assert ExpiresInTime(waitMono, waitWall, readings);
      } else if ExpiresInTime(waitMono, waitWall, readings) {
        var k :| 0 <= k < |readings| && waitMono <= readings[k].mono && waitWall <= readings[k].wall
          && forall i :: 0 <= i < k ==> readings[i].mono <= waitMono + 30.0;
        assert readings[0].mono <= waitMono + 30.0;
        assert readings[1..][k - 1] == readings[k];
        assert ExpiresInTime(waitMono, waitWall, readings[1..]);
      } else if readings[0].mono <= waitMono + 30.0 && ExpiresInTime(waitMono, waitWall, readings[1..]) {
        var k :| 0 <= k < |readings[1..]| && waitMono <= readings[1..][k].mono && waitWall <= readings[1..][k].wall
          && forall i :: 0 <= i < k ==> readings[1..][i].mono <= waitMono + 30.0;
        LaterReading(waitMono, waitWall, readings, k);
        assert false;
      }
    }
  }

  lemma LaterReading(waitMono: real, waitWall: real, readings: seq<Clock>, k: nat)
    requires readings != [] && readings[0].mono <= waitMono + 30.0 && k < |readings[1..]|
    requires waitMono <= readings[1..][k].mono && waitWall <= readings[1..][k].wall
    requires forall i :: 0 <= i < k ==> readings[1..][i].mono <= waitMono + 30.0
    ensures ExpiresInTime(waitMono, waitWall, readings)
  {
    forall i | 0 <= i < k + 1
      ensures readings[i].mono <= waitMono + 30.0
    {
      assert i > 0 ==> readings[i] == readings[1..][i - 1];
    }
    assert readings[k + 1] == readings[1..][k];
  }

  /** A close returns normally exactly if the held file could be removed, none is left, and the wait ends in time. */
  lemma ClosesNormallyExactlyWhen(s: Session, e: Close)
    ensures ClosesNormally(s, e) <==>
      && !(s.before.Some? && !e.removed) && !e.present
      && ((s.waitMono == 0.0 && s.waitWall == 0.0) || ExpiresInTime(s.waitMono, s.waitWall, e.readings))
    ensures var after := AfterClose(s, e); after.closed && (e.removed ==> after.before.None?)
    ensures AfterClose(s, e).(closed := s.closed, before := s.before) == s
  {
    WaitEndsExactlyWhen(s.waitMono, s.waitWall, e.readings);
  }

  /* ---- Clocks that advance together ---- */

  /**
   The wall clock is the monotonic clock plus `offset`, readings are taken in program order, the
   authority runs at most 280 seconds, and the local work before, between and after the child
   processes takes at most `slack` each. Readings a call does not make are unconstrained by
   what it does; they only keep their place in the order.
   */
  predicate Timely(s: Session, c: Call, offset: real, slack: real) {
    && c.start.wall - offset <= c.start.mono <= c.issueStart <= c.issueEnd.mono
    && c.issueEnd.mono <= c.issueEnd.wall - offset <= c.issuedBy - offset <= c.lifeAt - offset
    && c.lifeAt - offset <= c.liveFrom.mono <= c.liveFrom.wall - offset <= c.opStart <= c.opEnd
    && c.opEnd <= c.endWall - offset <= c.expiryWall - offset <= c.endMono <= c.newLastWall - offset
    && c.opEnd - c.opStart <= 280.0
    && c.newLastWall - offset - c.opEnd <= slack
    && (if Issues(s, c) then c.opStart - c.issueEnd.mono <= slack else c.opStart - (c.start.wall - offset) <= slack)
  }

  /**
   Every authority call starts with more than 330 seconds (less the local work since the check)
   of session life on both clocks, ends before expiry on both, and passes the final time checks:
   it can only fail because the authority did, or because the file was changed by someone else.
   */
  lemma AuthorityRunsWithinSessionLife(s: Session, c: Call, offset: real, slack: real)
    requires 0.0 <= 2.0 * slack < 50.0
    requires Timely(s, c, offset, slack)
    requires CallsAuthority(s, c)
    ensures var ready := BeforeAuthority(s, c).0;
      && ready.expires - offset - c.opStart > 330.0 - slack
      && ready.liveMono - c.opStart > 330.0 - slack
      && c.opEnd < ready.expires - offset && c.opEnd < ready.liveMono
      && (!Issues(s, c) ==> ready.expires - c.start.wall > 330.0 && ready.liveMono - c.start.mono > 330.0)
      && InTime(ready, c)
    ensures AfterCall(s, c).1.Done? <==> c.answered && Same(c.last, BeforeAuthority(s, c).0.before)
  {
    if Issues(s, c) {
      IssuedLife(s, c, offset, slack);
    } else {
      HeldLife(s, c);
    }
  }

  lemma IssuedLife(s: Session, c: Call, offset: real, slack: real)
    requires Timely(s, c, offset, slack) && CallsAuthority(s, c) && Issues(s, c)
    ensures var ready := BeforeAuthority(s, c).0;
      && ready.lastWall == c.start.wall
      && ready.expires - offset >= c.issueEnd.mono + 840.0
      && ready.expires - offset >= ready.liveMono >= c.issueEnd.mono + 840.0 - slack
  {
  }

  lemma HeldLife(s: Session, c: Call)
    requires CallsAuthority(s, c) && !Issues(s, c)
    ensures var ready := BeforeAuthority(s, c).0;
      && ready.lastWall == c.start.wall
      && ready.expires - c.start.wall > 330.0
      && ready.liveMono - c.start.mono > 330.0
  {
  }

  /* ---- How many sessions are issued ---- */

  const WINDOW := 7200.0
  const MARGIN := 400.0

  /** `now` is the instant, on the monotonic clock, at which the next event may start. */
  ghost predicate TimelyRun(tr: Trace, now: real, events: seq<Event>, offset: real, slack: real)
    decreases |events|
  {
    events == [] ||
    match events[0]
    case Closing(_) => TimelyRun(Step(tr, events[0]), now, events[1..], offset, slack)
    case Called(c) =>
      && now <= c.start.wall - offset
      && Timely(tr.session, c, offset, slack)
      && TimelyRun(Step(tr, events[0]), c.newLastWall - offset, events[1..], offset, slack)
  }

  /** Issuances are at least 510 seconds apart, less the local work, and none starts after 6800 seconds. */
  ghost predicate Spaced(tr: Trace, slack: real) {
    && (forall i :: 0 <= i < |tr.starts| ==>
          tr.session.started <= tr.starts[i] <= tr.session.started + (WINDOW - MARGIN))
    && (forall i :: 0 < i < |tr.starts| ==> tr.starts[i - 1] + 510.0 - slack <= tr.starts[i])
  }

  /** When a further issuance is possible at all, it is only after the last one has aged. */
  ghost predicate Aging(tr: Trace, now: real, offset: real, slack: real) {
    var s := tr.session;
    && s.count == |tr.starts|
    && s.started <= now
    && (|tr.starts| > 0 && !s.failed && !s.closed ==>
          var last := tr.starts[|tr.starts| - 1];
          if s.before.Some? then s.expires - offset >= s.liveMono >= last + 840.0 - slack
          else now >= last + 510.0 - slack)
  }

  lemma IssuingCallIsLate(tr: Trace, now: real, c: Call, offset: real, slack: real)
    requires Aging(tr, now, offset, slack) && now <= c.start.wall - offset
    requires Timely(tr.session, c, offset, slack) && Issues(tr.session, c)
    ensures tr.session.started <= c.start.mono <= tr.session.started + (WINDOW - MARGIN)
    ensures |tr.starts| > 0 ==> tr.starts[|tr.starts| - 1] + 510.0 - slack <= c.start.mono
  {
  }

  lemma StepKeepsSpaced(tr: Trace, now: real, c: Call, offset: real, slack: real)
    requires Spaced(tr, slack) && Aging(tr, now, offset, slack) && now <= c.start.wall - offset
    requires Timely(tr.session, c, offset, slack)
    ensures Spaced(Step(tr, Called(c)), slack)
  {
    CallEffects(tr.session, c);
    if Issues(tr.session, c) { IssuingCallIsLate(tr, now, c, offset, slack); }
  }

  lemma StepKeepsAging(tr: Trace, now: real, c: Call, offset: real, slack: real)
    requires Aging(tr, now, offset, slack) && now <= c.start.wall - offset
    requires Timely(tr.session, c, offset, slack) && 0.0 <= slack
    ensures Aging(Step(tr, Called(c)), c.newLastWall - offset, offset, slack)
  {
    CallEffects(tr.session, c);
    var s' := AfterCall(tr.session, c).0;
    if Issues(tr.session, c) {
      if CallsAuthority(tr.session, c) { IssuedLife(tr.session, c, offset, slack); }
    } else if s'.before.None? && tr.session.before.Some? {
      RemovedWhenOld(tr.session, c);
    }
  }

  /** A held session leaves without being replaced only when its life is nearly over. */
  lemma RemovedWhenOld(s: Session, c: Call)
    requires s.before.Some? && AfterCall(s, c).0.before.None?
    ensures Min(s.expires - c.start.wall, s.liveMono - c.start.mono) <= 330.0
  {
  }

  lemma {:induction false} RunKeepsSpaced(tr: Trace, now: real, events: seq<Event>, offset: real, slack: real)
    requires Spaced(tr, slack) && Aging(tr, now, offset, slack)
    requires TimelyRun(tr, now, events, offset, slack) && 0.0 <= slack
    ensures Spaced(Run(tr, events), slack)
    ensures exists end :: Aging(Run(tr, events), end, offset, slack)
    decreases |events|
  {
    if events == [] {
      assert Aging(Run(tr, events), now, offset, slack);
    } else if events[0].Called? {
      var c := events[0].call;
      StepKeepsSpaced(tr, now, c, offset, slack);
      StepKeepsAging(tr, now, c, offset, slack);
      RunKeepsSpaced(Step(tr, events[0]), c.newLastWall - offset, events[1..], offset, slack);
    } else {
      RunKeepsSpaced(Step(tr, events[0]), now, events[1..], offset, slack);
    }
  }

  lemma {:induction false} SpacedIsLate(tr: Trace, slack: real, n: nat)
    requires Spaced(tr, slack) && n < |tr.starts| && slack <= 24.0
    ensures tr.starts[n] >= tr.session.started + 486.0 * n as real
  {
    if n > 0 { SpacedIsLate(tr, slack, n - 1); }
  }

  /**
   Clocks advancing together and local work of at most 24 seconds a stretch: issuing calls start
   at least 510 seconds less that work apart, none after 6800 seconds, so at most 14 sessions are
   ever issued and the limit of 16 is never what refuses a call.
   */
  lemma AtMostFourteenSessions(clock: Clock, events: seq<Event>, next: Call, offset: real, slack: real)
    requires 0.0 <= slack <= 24.0
    requires TimelyRun(Fresh(clock), clock.mono, events, offset, slack)
    ensures var tr := Run(Fresh(clock), events);
      && Spaced(tr, slack)
      && tr.session.count == |tr.starts| <= 14
      && !AfterCall(tr.session, next).1.IssuanceLimit?
  {
    var tr := Run(Fresh(clock), events);
    RunKeepsSpaced(Fresh(clock), clock.mono, events, offset, slack);
    if |tr.starts| > 14 {
      SpacedIsLate(tr, slack, 14);
      assert false;
    }
  }

  /* ---- The wait loop ---- */

  /** Readings of a loop that sleeps: each is at least one sleep, and at most `delay` more, after the one before. */
  ghost predicate Slept(waitMono: real, waitWall: real, readings: nat -> Clock, delay: real) {
    forall i: nat ::
      readings(i).mono + SleepFor(waitMono, waitWall, readings(i)) <= readings(i + 1).mono
      <= readings(i).mono + SleepFor(waitMono, waitWall, readings(i)) + delay
  }

  function Prefix(readings: nat -> Clock, n: nat): (s: seq<Clock>)
    ensures |s| == n && forall i :: 0 <= i < n ==> s[i] == readings(i)
  {
    seq(n, (i: nat) => readings(i))
  }

  /** While no reading ends the loop, it is still waiting. */
  lemma {:induction false} WaitUnfolds(waitMono: real, waitWall: real, readings: seq<Clock>, last: Clock)
    requires Wait(waitMono, waitWall, readings).Waiting?
    ensures Wait(waitMono, waitWall, readings + [last]) == Wait(waitMono, waitWall, [last])
  {
    if readings != [] {
      assert (readings + [last])[1..] == readings[1..] + [last];
      WaitUnfolds(waitMono, waitWall, readings[1..], last);
    }
  }

  lemma OneSleep(waitMono: real, waitWall: real, readings: nat -> Clock, delay: real, i: nat)
    requires Slept(waitMono, waitWall, readings, delay)
    ensures readings(i).mono + 0.01 <= readings(i + 1).mono <= readings(i).mono + 5.0 + delay
  {
  }

  method AwaitExpiry(waitMono: real, waitWall: real, readings: nat -> Clock, ghost delay: real)
    returns (result: Waited, n: nat)
    requires 0.0 <= delay && Slept(waitMono, waitWall, readings, delay)
    ensures !result.Waiting? && result == Wait(waitMono, waitWall, Prefix(readings, n))
    ensures n > 0 ==> readings(n - 1).mono <= Max(readings(0).mono, waitMono + 30.0 + 5.0 + delay)
  {
    hide Slept;
    n := 0;
    while waitMono != 0.0 || waitWall != 0.0
      invariant waitMono == 0.0 && waitWall == 0.0 ==> n == 0
      invariant waitMono != 0.0 || waitWall != 0.0 ==> Wait(waitMono, waitWall, Prefix(readings, n)).Waiting?
      invariant n > 0 ==> readings(n - 1).mono <= waitMono + 30.0
      decreases (waitMono + 36.0 - readings(n).mono) * 100.0
    {
      var now := readings(n);
      OneSleep(waitMono, waitWall, readings, delay, n);
      if n > 0 { OneSleep(waitMono, waitWall, readings, delay, n - 1); }
      WaitUnfolds(waitMono, waitWall, Prefix(readings, n), now);
      assert Prefix(readings, n + 1) == Prefix(readings, n) + [now];
      n := n + 1;
      if now.mono >= waitMono && now.wall >= waitWall {
        result := Expired;
        return;
      }
      if now.mono > waitMono + 30.0 {
        result := Unknown;
        return;
      }
    }
    result := Expired;
  }

  /* ---- Clocks that advance together cannot make the wait fail ---- */

  ghost predicate WaitsTogether(s: Session, offset: real, slack: real) {
    (s.waitMono == 0.0 && s.waitWall == 0.0) || s.waitWall - offset <= s.waitMono + slack
  }

  lemma {:induction false} RunWaitsTogether(tr: Trace, now: real, events: seq<Event>, offset: real, slack: real)
    requires WaitsTogether(tr.session, offset, slack) && TimelyRun(tr, now, events, offset, slack)
    ensures WaitsTogether(Run(tr, events).session, offset, slack)
    decreases |events|
  {
    if events != [] {
      if events[0].Called? {
        CallEffects(tr.session, events[0].call);
        RunWaitsTogether(Step(tr, events[0]), events[0].call.newLastWall - offset, events[1..], offset, slack);
      } else {
        RunWaitsTogether(Step(tr, events[0]), now, events[1..], offset, slack);
      }
    }
  }

  lemma {:induction false} NeverUnknown(waitMono: real, waitWall: real, readings: seq<Clock>, offset: real, slack: real)
    requires waitWall - offset <= waitMono + slack && slack <= 30.0
    requires forall r :: r in readings ==> r.mono <= r.wall - offset
    ensures !Wait(waitMono, waitWall, readings).Unknown?
  {
    if readings != [] {
      assert readings[0] in readings;
      NeverUnknown(waitMono, waitWall, readings[1..], offset, slack);
    }
  }

  /** READER_EXPIRY_UNKNOWN is only raised when the clocks do not advance together. */
  lemma CloseOutwaitsTogether(clock: Clock, events: seq<Event>, readings: seq<Clock>, offset: real, slack: real)
    requires 0.0 <= slack <= 30.0
    requires TimelyRun(Fresh(clock), clock.mono, events, offset, slack)
    requires forall r :: r in readings ==> r.mono <= r.wall - offset
    ensures var s := Run(Fresh(clock), events).session; !Wait(s.waitMono, s.waitWall, readings).Unknown?
  {
    RunWaitsTogether(Fresh(clock), clock.mono, events, offset, slack);
    var s := Run(Fresh(clock), events).session;
    if s.waitMono != 0.0 || s.waitWall != 0.0 {
      NeverUnknown(s.waitMono, s.waitWall, readings, offset, slack);
    }
  }

  /* ---- The session object ---- */

  class H1DispatchReaderSession {
    var before: Option<Pin>
    var expires: real
    var liveMono: real
    var waitMono: real
    var waitWall: real
    var started: real
    var lastWall: real
    var count: nat
    var failed: bool
    var closed: bool

    ghost function Snapshot(): Session
      reads this
    {
      Session(before, expires, liveMono, waitMono, waitWall, started, lastWall, count, failed, closed)
    }

    constructor (clock: Clock)
      ensures Snapshot() == Opened(clock)
    {
      before := None;
      expires, liveMono, waitMono, waitWall := 0.0, 0.0, 0.0, 0.0;
      started, lastWall := clock.mono, clock.wall;
      count, failed, closed := 0, false, false;
    }

    method Invoke(c: Call) returns (outcome: Outcome)
      modifies this
      ensures (Snapshot(), outcome) == AfterCall(old(Snapshot()), c)
    {
      if c.operation !in {"admit", "recheck", "seal"} { return OperationInvalid; }
      if closed || failed { return SessionClosed; }
      if c.start.wall < lastWall || c.start.mono + 400.0 > started + 7200.0 { return TimeInvalid; }
      lastWall := c.start.wall;
      if before.Some? {
        if !Same(c.held, before) { return SessionChanged; }
        if Min(expires - c.start.wall, liveMono - c.start.mono) <= 330.0 {
          if !c.removed { return SessionChanged; }
          before := None;
        }
      }
      if before.None? {
        var problem := Renew(c);
        if problem.Some? { return problem.value; }
      }
      if !c.answered { return OperationFailed; }
      if !Same(c.last, before) || !(c.endWall >= lastWall && c.expiryWall < expires && c.endMono < liveMono) {
        return SessionChanged;
      }
      lastWall := c.newLastWall;
      return Done;
    }

    method Renew(c: Call) returns (problem: Option<Outcome>)
      requires before.None?
      modifies this
      ensures (Snapshot(), problem) == Renewed(old(Snapshot()), c)
    {
      if c.present { return Some(SessionPresent); }
      if count >= 16 { return Some(IssuanceLimit); }
      count := count + 1;
      failed := true;
      waitMono := Max(waitMono, c.issueEnd.mono + 900.0);
      waitWall := Max(waitWall, c.issueEnd.wall + 900.0);
      if c.reply.None? { return Some(IssueFailed); }
      var reply := c.reply.value;
      if !(reply.ready && Readable(c.issuedPin)) { return Some(SessionInvalid); }
      var pin := c.issuedPin.value;
      if reply.digest != pin.digest || reply.issued != pin.issued || reply.expires != pin.expires
         || !(lastWall <= pin.issued <= c.issuedBy) || !(840.0 <= pin.expires - c.lifeAt <= 900.0) {
        return Some(SessionInvalid);
      }
      before, expires := c.issuedPin, pin.expires;
      liveMono := c.liveFrom.mono + pin.expires - c.liveFrom.wall;
      failed := false;
      return None;
    }

    /** Closes, and waits over the readings its sleeps produce; the result says whether it returned normally. */
    method Shut(removed: bool, present: bool, readings: nat -> Clock, ghost delay: real)
      returns (normally: bool, n: nat)
      requires 0.0 <= delay && Slept(waitMono, waitWall, readings, delay)
      modifies this
      ensures var e := Close(removed, present, Prefix(readings, n));
        Snapshot() == AfterClose(old(Snapshot()), e) && normally == ClosesNormally(old(Snapshot()), e)
      ensures n > 0 ==> readings(n - 1).mono <= Max(readings(0).mono, old(waitMono) + 35.0 + delay)
    {
      closed := true;
      var problem := (before.Some? && !removed) || present;
      if removed { before := None; }
      var waited;
      waited, n := AwaitExpiry(waitMono, waitWall, readings, delay);
      normally := waited.Expired? && !problem;
    }
  }
}
