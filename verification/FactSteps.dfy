/** When each step of an opening and a closing transaction is taken and what it leaves in table and locks. */
module FactSteps {
  import opened Wrappers
  import opened AssetTypes
  import opened AssetFacts

  /* ---- The constraints ---- */

  /** Some instant lies in both periods. */
  ghost predicate ShareAnInstant(p: Period, q: Period) { exists at: Moment :: Covers(p, at) && Covers(q, at) }

  /** From its start on, up to but without its end. */
  predicate Covers(p: Period, at: Moment) {
    p.startedAt <= at && match p.ending case None => true case Some(e) => at < e.at
  }

  /**
   A row is admitted if it ends after it starts, and against every other row: another start source, another end
   source, no instant in common for one vehicle, and not both open for one order.
   */
  lemma AdmittedExactlyWhen(periods: Periods, p: Period)
    requires TableOk(periods)
    ensures Admits(periods, p) <==>
      && (p.ending.Some? ==> p.startedAt < p.ending.value.at)
      && forall id :: id in periods && id != p.id ==> FitsBeside(p, periods[id])
  {
    hide FitsBeside;
    if p.ending.Some? ==> p.startedAt < p.ending.value.at {
      forall id | id in periods && id != p.id
        ensures Compatible(p, periods[id]) <==> FitsBeside(p, periods[id])
      {
        CompatibleMeans(p, periods[id]);
      }
    }
  }

  ghost predicate FitsBeside(p: Period, q: Period) {
    && p.start.source != q.start.source
    && (p.ending.Some? && q.ending.Some? ==> p.ending.value.statement.source != q.ending.value.statement.source)
    && (p.vehicleId == q.vehicleId ==> !ShareAnInstant(p, q))
    && (p.orderId.Some? && p.orderId == q.orderId ==> p.ending.Some? || q.ending.Some?)
  }

  lemma CompatibleMeans(p: Period, q: Period)
    requires RangeOk(p) && RangeOk(q)
    ensures Compatible(p, q) <==> FitsBeside(p, q)
  {
    HalfOpenMeansDisjoint(p, q);
    if at: Moment :| ActiveAt(p, at) && ActiveAt(q, at) { assert Covers(p, at) && Covers(q, at); }
    if at: Moment :| Covers(p, at) && Covers(q, at) { assert ActiveAt(p, at) && ActiveAt(q, at); }
  }

  /** A command is the one on record if every statement of it is. */
  lemma RecordedMeans(p: Period, c: Command)
    ensures SameAsRecorded(p, c) <==>
      if c.Close? then p.id == c.periodId && p.ending == Some(c.ending)
      else
        p.vehicleId == c.vehicleId && p.orderId == c.orderId && p.terms == c.terms && p.startedAt == c.startedAt
        && p.start == c.start
    ensures NamedBy(p, c) <==>
      if c.Open? then p.start.source == c.start.source
      else p.ending.Some? && p.ending.value.statement.source == c.ending.statement.source
  {
  }

  /** Past waiting, a transaction holds the lock on its source, for its kind of command. */
  lemma LocksMean(txns: map<nat, Txn>, t: nat, c: Command)
    ensures LockFree(txns, t, c) <==>
      !exists u :: u in txns && u != t && txns[u].pc != Waiting && txns[u].command.Open? == c.Open?
                   && (if c.Open? then txns[u].command.Open? && txns[u].command.start.source == c.start.source
                       else
                         && txns[u].command.Close?
                         && txns[u].command.ending.statement.source == c.ending.statement.source)
  {
    if u :| u in txns && u != t && txns[u].pc != Waiting && txns[u].command.Open? == c.Open?
            && (if c.Open? then txns[u].command.Open? && txns[u].command.start.source == c.start.source
                else txns[u].command.Close? && txns[u].command.ending.statement.source == c.ending.statement.source) {
      assert Holds(txns[u], c);
    }
  }

  /* ---- Steps ---- */

  /** The transaction goes on at `pc`, and nothing else changes. */
  ghost predicate GoesOn(s: State, after: State, t: nat, pc: Pc)
    requires t in s.txns
  {
    after == s.(txns := s.txns[t := Txn(s.txns[t].command, pc)])
  }

  /** The transaction ends with this result, and the table is as given. */
  ghost predicate EndsWith(s: State, after: State, t: nat, periods: Periods, r: AssetFacts.Result) {
    after == State(periods, s.hidden, s.txns - {t}, s.results[t := r])
  }

  /** It waits for the lock on its source; then a visible row that the source names decides it. */
  lemma FirstStepsExactly(s: State, t: nat)
    requires t in s.txns && TableOk(s.periods)
    ensures var (c, after) := (s.txns[t].command, Step(s, Advance(t)));
      match s.txns[t].pc
      case Waiting => if LockFree(s.txns, t, c) then GoesOn(s, after, t, Locked) else after == s
      case Locked =>
        if IsNamed(s.periods, s.hidden, c) then
          if IsRecorded(s.periods, s.hidden, c)
          then exists id :: id in s.periods && EndsWith(s, after, t, s.periods, Done(c, s.periods[id], false))
          else EndsWith(s, after, t, s.periods, Conflict(c))
        else GoesOn(s, after, t, Absent)
      case _ => true
  {
    hide LockFree, NamedBy, SameAsRecorded, TableOk, IsRecorded;
    var c := s.txns[t].command;
    var found := Found(s, c);
    if found.Some? {
      NamedIsRecordedExactlyWhen(s.periods, s.hidden, found.value, c);
    } else {
      NotNamed(s, c);
    }
  }

  lemma NotNamed(s: State, c: Command)
    requires forall id :: !Names(s, id, c)
    ensures !IsNamed(s.periods, s.hidden, c)
  {
    if IsNamed(s.periods, s.hidden, c) {
      var id :| id in s.periods && id !in s.hidden && NamedBy(s.periods[id], c);
      assert Names(s, id, c);
    }
  }

  /** An open writes its row if the constraints admit it under a new id, and conflicts otherwise. */
  lemma OpensExactly(s: State, t: nat)
    requires t in s.txns && s.txns[t].command.Open? && s.txns[t].pc == Absent
    ensures var (c, after) := (s.txns[t].command, Step(s, Advance(t)));
      var p := Period(c.freshId, c.vehicleId, c.orderId, c.terms, c.startedAt, c.start, None);
      if c.freshId !in s.periods && Admits(s.periods, p)
      then EndsWith(s, after, t, s.periods[c.freshId := p], Done(c, p, true))
      else EndsWith(s, after, t, s.periods, Conflict(c))
  {
    hide Admits;
  }

  /** A close needs a visible open row, and writes its end if the row is still open, admitted and visible. */
  lemma ClosesExactly(s: State, t: nat)
    requires t in s.txns && s.txns[t].command.Close? && TableOk(s.periods)
    ensures var (c, after) := (s.txns[t].command, Step(s, Advance(t)));
      var open := c.periodId in s.periods && s.periods[c.periodId].ending == None;
      match s.txns[t].pc
      case Absent =>
        if open && c.periodId !in s.hidden then GoesOn(s, after, t, Seen)
        else EndsWith(s, after, t, s.periods, Conflict(c))
      case Seen =>
        if !open then GoesOn(s, after, t, Lost)
        else
          var p := s.periods[c.periodId].(ending := Some(c.ending));
          if Admits(s.periods, p) && c.periodId !in s.hidden
          then EndsWith(s, after, t, s.periods[c.periodId := p], Done(c, p, true))
          else EndsWith(s, after, t, s.periods, Conflict(c))
      case _ => true
  {
    hide Admits, LockFree, NamedBy, SameAsRecorded;
  }

  /** Transactions begin waiting under a new number and may end at any time; rows may be hidden at any time. */
  lemma BeginsAndEnds(s: State, t: nat, c: Command, ids: set<Id>)
    ensures Step(s, Begin(t, c)) ==
      if t in s.txns || t in s.results then s else s.(txns := s.txns[t := Txn(c, Waiting)])
    ensures Step(s, Abort(t)) == s.(txns := s.txns - {t}) && Step(s, Hide(ids)) == s.(hidden := ids)
    ensures INITIAL == State(map[], {}, map[], map[])
  {
  }
}
