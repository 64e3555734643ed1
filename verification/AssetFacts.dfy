/**
 Vehicle periods: opened by one command and closed by another, under racing transactions. The
 table's constraints hold at every commit; a transaction reads, other transactions commit, and
 then its single write is checked against what is there.
 */
module AssetFacts {
  import opened Wrappers
  import opened AssetTypes

  /** Who states the start or the end of a period, when, and why. */
  datatype Statement = Statement(
    source: Source, reason: string, snapshot: string, actorId: Id, confirmedAt: Option<Moment>)

  datatype Ending = Ending(at: Moment, statement: Statement)

  /** `terms` stands for the contract, customer or owner; `orderId` is there for subscriptions only. */
  datatype Period = Period(
    id: Id, vehicleId: Id, orderId: Option<Id>, terms: string, startedAt: Moment, start: Statement,
    ending: Option<Ending>)

  datatype Command =
    | Open(vehicleId: Id, orderId: Option<Id>, terms: string, startedAt: Moment, start: Statement, freshId: Id)
    | Close(periodId: Id, ending: Ending)

  type Periods = map<Id, Period>

  /* ---- The constraints of the table ---- */

  predicate RangeOk(p: Period) { p.ending.Some? ==> p.ending.value.at > p.startedAt }

  /** Half-open: the start belongs to the period, the end does not. */
  predicate ActiveAt(p: Period, asOf: Moment) {
    p.startedAt <= asOf && (p.ending.None? || asOf < p.ending.value.at)
  }

  predicate Overlap(p: Period, q: Period) {
    && (q.ending.None? || p.startedAt < q.ending.value.at)
    && (p.ending.None? || q.startedAt < p.ending.value.at)
  }

  /** What the unique indexes and the exclusion constraint demand of two rows. */
  predicate Compatible(p: Period, q: Period) {
    && p.start.source != q.start.source
    && (p.ending.Some? && q.ending.Some? ==> p.ending.value.statement.source != q.ending.value.statement.source)
    && (p.vehicleId == q.vehicleId ==> !Overlap(p, q))
    && (p.ending.None? && q.ending.None? && p.orderId.Some? ==> p.orderId != q.orderId)
  }

  predicate Admits(periods: Periods, p: Period) {
    RangeOk(p) && forall id :: id in periods && id != p.id ==> Compatible(p, periods[id])
  }

  ghost predicate TableOk(periods: Periods) {
    && (forall id :: id in periods ==> periods[id].id == id && RangeOk(periods[id]))
    && (forall a, b :: a in periods && b in periods && a != b ==> Compatible(periods[a], periods[b]))
  }

  lemma CompatibleIsSymmetric(p: Period, q: Period)
    ensures Compatible(p, q) == Compatible(q, p)
  {
  }

  lemma AdmittedKeepsTable(periods: Periods, p: Period)
    requires TableOk(periods) && Admits(periods, p)
    ensures TableOk(periods[p.id := p])
  {
    hide Compatible;
    forall id | id in periods
      ensures Compatible(p, periods[id]) == Compatible(periods[id], p)
    {
      CompatibleIsSymmetric(p, periods[id]);
    }
  }

  /* ---- Transactions ---- */

  datatype Pc = Waiting | Locked | Absent | Seen | Lost

  datatype Txn = Txn(command: Command, pc: Pc)

  datatype Result = Done(command: Command, fact: Period, wrote: bool) | Conflict(command: Command)

  /** `hidden` are the periods whose vehicle, order, customer or contract is soft-deleted. */
  datatype State = State(periods: Periods, hidden: set<Id>, txns: map<nat, Txn>, results: map<nat, Result>)

  datatype Action = Begin(t: nat, command: Command) | Advance(t: nat) | Abort(t: nat) | Hide(ids: set<Id>)

  function SourceOf(c: Command): Source {
    if c.Open? then c.start.source else c.ending.statement.source
  }

  /** The advisory lock on a command's source, by kind of command. */
  predicate Holds(txn: Txn, c: Command) {
    !txn.pc.Waiting? && txn.command.Open? == c.Open? && SourceOf(txn.command) == SourceOf(c)
  }

  predicate LockFree(txns: map<nat, Txn>, t: nat, c: Command) {
    forall u :: u in txns && u != t ==> !Holds(txns[u], c)
  }

  predicate NamedBy(p: Period, c: Command) {
    if c.Open? then p.start.source == c.start.source
    else p.ending.Some? && p.ending.value.statement.source == c.ending.statement.source
  }

  /** The visible period a command's source already names. */
  predicate Names(s: State, id: Id, c: Command) { id in s.periods && id !in s.hidden && NamedBy(s.periods[id], c) }

  predicate SameAsRecorded(p: Period, c: Command) {
    match c
    case Open(vehicle, order, terms, at, start, _) =>
      p.vehicleId == vehicle && p.orderId == order && p.terms == terms && p.startedAt == at && p.start == start
    case Close(id, ending) => p.id == id && p.ending == Some(ending)
  }

  /** A visible period has the command's source. */
  ghost predicate IsNamed(periods: Periods, hidden: set<Id>, c: Command) {
    exists id :: id in periods && id !in hidden && NamedBy(periods[id], c)
  }

  /** A visible period states exactly what the command does. */
  ghost predicate IsRecorded(periods: Periods, hidden: set<Id>, c: Command) {
    exists id :: id in periods && id !in hidden && SameAsRecorded(periods[id], c)
  }

  /** Sources being unique, the period a source names is the one recorded, if any is. */
  lemma NamedIsRecordedExactlyWhen(periods: Periods, hidden: set<Id>, id: Id, c: Command)
    requires TableOk(periods) && id in periods && id !in hidden && NamedBy(periods[id], c)
    ensures IsRecorded(periods, hidden, c) <==> SameAsRecorded(periods[id], c)
  {
    if IsRecorded(periods, hidden, c) {
      var other :| other in periods && other !in hidden && SameAsRecorded(periods[other], c);
      assert other != id ==> Compatible(periods[id], periods[other]);
    }
  }

  lemma NotNamedIsNotRecorded(periods: Periods, hidden: set<Id>, c: Command)
    requires forall id :: id in periods && id !in hidden ==> !NamedBy(periods[id], c)
    ensures !IsRecorded(periods, hidden, c)
  {
  }

  lemma NotFoundIsNotRecorded(s: State, c: Command)
    requires forall id :: !Names(s, id, c)
    ensures !IsRecorded(s.periods, s.hidden, c)
  {
    assert forall id :: id in s.periods && id !in s.hidden ==> (NamedBy(s.periods[id], c) ==> Names(s, id, c));
  }

  function Finish(s: State, t: nat, r: Result): State {
    s.(txns := s.txns - {t}, results := s.results[t := r])
  }

  /** The visible period the source of a command names; sources are unique, so there is one at most. */
  ghost function Found(s: State, c: Command): (found: Option<Id>)
    ensures found.Some? ==> Names(s, found.value, c)
    ensures found.None? ==> forall id :: !Names(s, id, c)
  {
    if exists id :: Names(s, id, c) then
      var id :| Names(s, id, c);
      Some(id)
    else None
  }

  /** What the source names decides the command, if it names anything. */
  ghost function Lookup(s: State, t: nat, c: Command, otherwise: State): State {
    var found := Found(s, c);
    if found.None? then otherwise
    else if SameAsRecorded(s.periods[found.value], c) then Finish(s, t, Done(c, s.periods[found.value], false))
    else Finish(s, t, Conflict(c))
  }

  function NewPeriod(c: Command): Period
    requires c.Open?
  {
    Period(c.freshId, c.vehicleId, c.orderId, c.terms, c.startedAt, c.start, None)
  }

  function Moved(s: State, t: nat, c: Command, pc: Pc): State { s.(txns := s.txns[t := Txn(c, pc)]) }

  /** The single write of an opening transaction. */
  function Insert(s: State, t: nat, c: Command): State
    requires c.Open?
  {
    var p := NewPeriod(c);
    if p.id !in s.periods && Admits(s.periods, p)
    then Finish(s.(periods := s.periods[p.id := p]), t, Done(c, p, true))
    else Finish(s, t, Conflict(c))
  }

  /** The single write of a closing transaction: only a period still open takes the end. */
  function CompareAndSet(s: State, t: nat, c: Command): State
    requires c.Close?
  {
    if c.periodId in s.periods && s.periods[c.periodId].ending.None? then
      var p := s.periods[c.periodId].(ending := Some(c.ending));
      if Admits(s.periods, p) && p.id == c.periodId && p.id !in s.hidden
      then Finish(s.(periods := s.periods[p.id := p]), t, Done(c, p, true))
      else Finish(s, t, Conflict(c))
    else Moved(s, t, c, Lost)
  }

  ghost function AdvanceTxn(s: State, t: nat, txn: Txn): State {
    var c := txn.command;
    match txn.pc
    case Waiting => if LockFree(s.txns, t, c) then Moved(s, t, c, Locked) else s
    case Locked => Lookup(s, t, c, Moved(s, t, c, Absent))
    case Absent =>
      if c.Open? then Insert(s, t, c)
      else if c.periodId in s.periods && c.periodId !in s.hidden && s.periods[c.periodId].ending.None?
      then Moved(s, t, c, Seen)
      else Finish(s, t, Conflict(c))
    case Seen => if c.Open? then s else CompareAndSet(s, t, c)
    case Lost => Lookup(s, t, c, Finish(s, t, Conflict(c)))
  }

  ghost function Step(s: State, a: Action): State {
    match a
    case Begin(t, c) => if t in s.txns || t in s.results then s else Moved(s, t, c, Waiting)
    case Advance(t) => if t in s.txns then AdvanceTxn(s, t, s.txns[t]) else s
    case Abort(t) => s.(txns := s.txns - {t})
    case Hide(ids) => s.(hidden := ids)
  }

  ghost function Run(s: State, actions: seq<Action>): State
    decreases |actions|
  {
    if actions == [] then s else Run(Step(s, actions[0]), actions[1..])
  }

  const INITIAL := State(map[], {}, map[], map[])

  /* ---- Invariants ---- */

  /** The start of a period never changes, and its end is written once. */
  predicate Evolves(p: Period, q: Period) {
    q.(ending := None) == p.(ending := None) && (p.ending.Some? ==> q.ending == p.ending)
  }

  ghost predicate AllEvolve(before: Periods, after: Periods) {
    forall id :: id in before ==> id in after && Evolves(before[id], after[id])
  }

  /** A successful result states the command's own facts, and the table still holds them. */
  ghost predicate ResultOk(periods: Periods, r: Result) {
    r.Done? ==> SameAsRecorded(r.fact, r.command) && r.fact.id in periods && Evolves(r.fact, periods[r.fact.id])
  }

  ghost predicate ResultsOk(s: State) { forall t :: t in s.results ==> ResultOk(s.periods, s.results[t]) }

  predicate BothWrote(r: Result, q: Result) {
    r.Done? && q.Done? && r.wrote && q.wrote && r.command.Open? == q.command.Open? && r.fact.id == q.fact.id
  }

  ghost predicate WroteOnce(s: State) {
    forall t, u :: t in s.results && u in s.results && BothWrote(s.results[t], s.results[u]) ==> t == u
  }

  ghost predicate Fresh(s: State) { forall t :: t in s.txns ==> t !in s.results }

  ghost predicate Inv(s: State) { TableOk(s.periods) && ResultsOk(s) && WroteOnce(s) && Fresh(s) }

  lemma EvolvesAgain(p: Period, q: Period, r: Period)
    requires Evolves(p, q) && Evolves(q, r)
    ensures Evolves(p, r)
  {
  }

  /** Ending a transaction with a result the table agrees with. */
  lemma FinishKeepsInv(s: State, periods: Periods, t: nat, r: Result)
    requires Inv(s) && t !in s.results && TableOk(periods) && AllEvolve(s.periods, periods) && ResultOk(periods, r)
    requires r.Done? && r.wrote ==>
      if r.command.Open? then r.fact.id !in s.periods
      else r.fact.id in s.periods && s.periods[r.fact.id].ending.None?
    ensures Inv(Finish(s.(periods := periods), t, r))
  {
    hide TableOk;
    var after := Finish(s.(periods := periods), t, r);
    forall u | u in after.results
      ensures ResultOk(periods, after.results[u])
    {
      if u != t && after.results[u].Done? {
        assert ResultOk(s.periods, s.results[u]);
        var id := after.results[u].fact.id;
        EvolvesAgain(after.results[u].fact, s.periods[id], periods[id]);
      }
    }
    forall a, b | a in after.results && b in after.results && BothWrote(after.results[a], after.results[b])
      ensures a == b
    {
      if a != b && (a == t || b == t) {
        NotWrittenBefore(s, r, s.results[if a == t then b else a]);
      }
    }
  }

  /** What is written now was not written by an earlier result. */
  lemma NotWrittenBefore(s: State, r: Result, q: Result)
    requires ResultOk(s.periods, q)
    requires r.Done? && r.wrote ==>
      if r.command.Open? then r.fact.id !in s.periods
      else r.fact.id in s.periods && s.periods[r.fact.id].ending.None?
    ensures !BothWrote(r, q) && !BothWrote(q, r)
  {
  }

  lemma NothingEvolves(periods: Periods)
    ensures AllEvolve(periods, periods)
  {
  }

  lemma LookupKeepsInv(s: State, t: nat, c: Command, otherwise: State)
    requires Inv(s) && t !in s.results && Inv(otherwise)
    ensures Inv(Lookup(s, t, c, otherwise))
  {
    hide Inv, Finish, NamedBy;
    InvMeans(s);
    NothingEvolves(s.periods);
    var found := Found(s, c);
    if found.Some? {
      var p := s.periods[found.value];
      assert s.(periods := s.periods) == s;
      if SameAsRecorded(p, c) {
        assert p.id == found.value by { IdIsKey(s, found.value); }
        FinishKeepsInv(s, s.periods, t, Done(c, p, false));
      } else {
        FinishKeepsInv(s, s.periods, t, Conflict(c));
      }
    }
  }

  lemma InvMeans(s: State)
    requires Inv(s)
    ensures TableOk(s.periods)
  {
  }

  lemma IdIsKey(s: State, id: Id)
    requires Inv(s) && id in s.periods
    ensures s.periods[id].id == id
  {
  }

  lemma MoveKeepsInv(s: State, t: nat, c: Command, pc: Pc)
    requires Inv(s) && t !in s.results
    ensures Inv(Moved(s, t, c, pc))
  {
    hide TableOk, ResultOk, BothWrote;
  }

  lemma ConflictKeepsInv(s: State, t: nat, c: Command)
    requires Inv(s) && t !in s.results
    ensures Inv(Finish(s, t, Conflict(c)))
  {
    hide Inv, Finish;
    InvMeans(s);
    NothingEvolves(s.periods);
    assert s.(periods := s.periods) == s;
    FinishKeepsInv(s, s.periods, t, Conflict(c));
  }

  lemma InsertKeepsInv(s: State, t: nat, c: Command)
    requires Inv(s) && t !in s.results && c.Open?
    ensures Inv(Insert(s, t, c))
  {
    hide Inv, Finish, Admits, TableOk;
    InvMeans(s);
    ConflictKeepsInv(s, t, c);
    var p := NewPeriod(c);
    if p.id !in s.periods && Admits(s.periods, p) {
      AdmittedKeepsTable(s.periods, p);
      FinishKeepsInv(s, s.periods[p.id := p], t, Done(c, p, true));
    }
  }

  lemma CompareAndSetKeepsInv(s: State, t: nat, c: Command)
    requires Inv(s) && t !in s.results && c.Close?
    ensures Inv(CompareAndSet(s, t, c))
  {
    hide Inv, Finish, Admits, TableOk;
    InvMeans(s);
    ConflictKeepsInv(s, t, c);
    MoveKeepsInv(s, t, c, Lost);
    if c.periodId in s.periods && s.periods[c.periodId].ending.None? {
      var p := s.periods[c.periodId].(ending := Some(c.ending));
      if Admits(s.periods, p) && p.id == c.periodId {
        AdmittedKeepsTable(s.periods, p);
        FinishKeepsInv(s, s.periods[p.id := p], t, Done(c, p, true));
      }
    }
  }

  lemma StepKeepsInv(s: State, a: Action)
    requires Inv(s)
    ensures Inv(Step(s, a))
  {
    hide Inv, Lookup, Insert, CompareAndSet, Moved, Finish, LockFree;
    match a
    case Begin(t, c) => if t !in s.results { MoveKeepsInv(s, t, c, Waiting); }
    case Abort(t) => EnvironmentKeepsInv(s, t, s.hidden);
    case Hide(ids) => EnvironmentKeepsInv(s, 0, ids);
    case Advance(t) =>
      if t in s.txns {
        var c := s.txns[t].command;
        TxnHasNoResult(s, t);
        ConflictKeepsInv(s, t, c);
        match s.txns[t].pc {
          case Waiting => MoveKeepsInv(s, t, c, Locked);
          case Locked =>
            MoveKeepsInv(s, t, c, Absent);
            LookupKeepsInv(s, t, c, Moved(s, t, c, Absent));
          case Absent => if c.Open? { InsertKeepsInv(s, t, c); } else { MoveKeepsInv(s, t, c, Seen); }
          case Seen => if c.Close? { CompareAndSetKeepsInv(s, t, c); }
          case Lost => LookupKeepsInv(s, t, c, Finish(s, t, Conflict(c)));
        }
      }
  }

  lemma TxnHasNoResult(s: State, t: nat)
    requires Inv(s) && t in s.txns
    ensures t !in s.results
  {
  }

  lemma EnvironmentKeepsInv(s: State, t: nat, ids: set<Id>)
    requires Inv(s)
    ensures Inv(s.(txns := s.txns - {t})) && Inv(s.(hidden := ids))
  {
    hide TableOk, ResultOk, BothWrote;
  }

  lemma {:induction false} RunKeepsInv(s: State, actions: seq<Action>)
    requires Inv(s)
    ensures Inv(Run(s, actions))
    decreases |actions|
  {
    hide Inv, Step;
    if actions != [] {
      StepKeepsInv(s, actions[0]);
      RunKeepsInv(Step(s, actions[0]), actions[1..]);
    }
  }

  lemma InvHolds(actions: seq<Action>)
    ensures Inv(Run(INITIAL, actions))
  {
    assert Inv(INITIAL);
    RunKeepsInv(INITIAL, actions);
  }

  /* ---- Main results ---- */

  /** However opens and closes race, two periods of one vehicle never cover the same instant. */
  lemma AtMostOneActivePeriod(actions: seq<Action>, a: Id, b: Id, asOf: Moment)
    requires var periods := Run(INITIAL, actions).periods;
      && a in periods && b in periods && periods[a].vehicleId == periods[b].vehicleId
      && ActiveAt(periods[a], asOf) && ActiveAt(periods[b], asOf)
    ensures a == b
  {
    hide Run, ResultsOk, WroteOnce;
    InvHolds(actions);
    var periods := Run(INITIAL, actions).periods;
    assert a != b ==> Compatible(periods[a], periods[b]);
  }

  /** Periods that touch do not overlap: exactly one of them is active where one ends and the other starts. */
  lemma HalfOpenMeansDisjoint(p: Period, q: Period)
    requires RangeOk(p) && RangeOk(q)
    ensures Overlap(p, q) <==> exists asOf :: ActiveAt(p, asOf) && ActiveAt(q, asOf)
  {
    if Overlap(p, q) {
      var asOf := if p.startedAt < q.startedAt then q.startedAt else p.startedAt;
      assert ActiveAt(p, asOf) && ActiveAt(q, asOf);
    }
  }

  lemma StepEvolves(s: State, a: Action)
    requires Inv(s)
    ensures AllEvolve(s.periods, Step(s, a).periods)
  {
    hide TableOk, ResultsOk, WroteOnce, Admits, LockFree, NamedBy, SameAsRecorded;
  }

  lemma {:induction false} RunEvolves(s: State, actions: seq<Action>)
    requires Inv(s)
    ensures AllEvolve(s.periods, Run(s, actions).periods)
    decreases |actions|
  {
    hide Inv, Step, Evolves;
    if actions == [] {
      NothingEvolves(s.periods);
    } else {
      var next := Step(s, actions[0]);
      StepKeepsInv(s, actions[0]);
      StepEvolves(s, actions[0]);
      RunEvolves(next, actions[1..]);
      forall id | id in s.periods
        ensures id in Run(next, actions[1..]).periods && Evolves(s.periods[id], Run(next, actions[1..]).periods[id])
      {
        EvolvesAgain(s.periods[id], next.periods[id], Run(next, actions[1..]).periods[id]);
      }
    }
  }

  /** The start of a period is never changed, and its end, once written, never again. */
  lemma EndIsWrittenOnce(actions: seq<Action>, more: seq<Action>, id: Id)
    requires id in Run(INITIAL, actions).periods
    ensures var before, after := Run(INITIAL, actions).periods, Run(Run(INITIAL, actions), more).periods;
      id in after && Evolves(before[id], after[id])
  {
    hide Run, Inv, Evolves;
    InvHolds(actions);
    RunEvolves(Run(INITIAL, actions), more);
  }

  /**
   Racing closes of one period: of all that succeed, at most one wrote; every one of them states
   the end that is recorded, and they all return the same period.
   */
  lemma RacingClosesAgree(actions: seq<Action>, t: nat, u: nat)
    requires var results := Run(INITIAL, actions).results;
      && t in results && u in results && results[t].Done? && results[u].Done?
      && results[t].command.Close? && results[u].command.Close?
      && results[t].command.periodId == results[u].command.periodId
    ensures var s := Run(INITIAL, actions);
      var r, q, id := s.results[t], s.results[u], s.results[t].command.periodId;
      && r.fact == q.fact && id in s.periods && s.periods[id] == r.fact
      && r.fact.ending == Some(r.command.ending) == Some(q.command.ending)
      && (r.wrote && q.wrote ==> t == u)
  {
    hide Run, TableOk;
    InvHolds(actions);
    var s := Run(INITIAL, actions);
    assert ResultOk(s.periods, s.results[t]) && ResultOk(s.periods, s.results[u]);
    CloseResultIsTheRow(s.periods, s.results[t]);
    CloseResultIsTheRow(s.periods, s.results[u]);
  }

  /** A close that looks its source up succeeds there exactly if its very end is visibly recorded. */
  lemma CloseReplaysExactlyWhen(actions: seq<Action>, t: nat)
    requires var s := Run(INITIAL, actions);
      t in s.txns && s.txns[t].command.Close? && s.txns[t].pc.Locked?
    ensures var s := Run(INITIAL, actions);
      var c, after := s.txns[t].command, Step(s, Advance(t));
      && after.periods == s.periods
      && (t in after.results && after.results[t].Done? <==> IsRecorded(s.periods, s.hidden, c))
      && (t in after.results && after.results[t].Done? ==>
            c.periodId in s.periods && after.results[t] == Done(c, s.periods[c.periodId], false))
  {
    hide Run, TableOk, NamedBy, IsRecorded;
    InvHolds(actions);
    var s := Run(INITIAL, actions);
    var c := s.txns[t].command;
    TxnHasNoResult(s, t);
    var found := Found(s, c);
    if found.Some? {
      NamedIsRecordedExactlyWhen(s.periods, s.hidden, found.value, c);
      IdIsKey(s, found.value);
    } else {
      NotFoundIsNotRecorded(s, c);
    }
  }

  /* ---- What the lock on a source excludes ---- */

  /** No two transactions past waiting have the same kind of command on the same source. */
  ghost predicate LocksExclusive(txns: map<nat, Txn>) {
    forall t, u :: t in txns && u in txns && t != u && !txns[t].pc.Waiting? ==> !Holds(txns[u], txns[t].command)
  }

  /** The period has an end of another source than the command's, or no end yet. */
  predicate NotEndedBy(periods: Periods, c: Command)
    requires c.Close?
  {
    && c.periodId in periods
    && (periods[c.periodId].ending.Some? ==> periods[c.periodId].ending.value.statement.source != SourceOf(c))
  }

  /** What a close saw when it looked is still so, but for the ends other sources wrote. */
  ghost predicate CloseOk(periods: Periods, txn: Txn) {
    txn.command.Close? ==>
      && (txn.pc.Seen? || txn.pc.Lost? ==> NotEndedBy(periods, txn.command))
      && (txn.pc.Lost? ==> periods[txn.command.periodId].ending.Some?)
  }

  ghost predicate LockInv(s: State) {
    LocksExclusive(s.txns) && forall t :: t in s.txns ==> CloseOk(s.periods, s.txns[t])
  }

  lemma MoveKeepsLockInv(s: State, t: nat, c: Command, pc: Pc)
    requires LockInv(s) && CloseOk(s.periods, Txn(c, pc))
    requires t in s.txns ==> s.txns[t].command == c
    requires pc.Waiting? || LockFree(s.txns, t, c) || (t in s.txns && !s.txns[t].pc.Waiting?)
    ensures LockInv(Moved(s, t, c, pc))
  {
    hide CloseOk;
    var after := Moved(s, t, c, pc);
    forall a, b | a in after.txns && b in after.txns && a != b && !after.txns[a].pc.Waiting?
      ensures !Holds(after.txns[b], after.txns[a].command)
    {
      assert a != t && b == t && t in s.txns && !s.txns[t].pc.Waiting? ==> !Holds(s.txns[t], s.txns[a].command);
      assert a != t && b == t && LockFree(s.txns, t, c) ==> !Holds(s.txns[a], c);
    }
  }

  lemma FinishKeepsLockInv(s: State, periods: Periods, t: nat, r: Result)
    requires LockInv(s) && forall u :: u in s.txns && u != t ==> CloseOk(periods, s.txns[u])
    ensures LockInv(Finish(s.(periods := periods), t, r))
  {
    hide CloseOk, Holds;
  }

  lemma InsertKeepsLockInv(s: State, t: nat, c: Command)
    requires LockInv(s) && c.Open?
    ensures LockInv(Insert(s, t, c))
  {
    hide LocksExclusive, Admits, Finish;
    var p := NewPeriod(c);
    assert s.(periods := s.periods) == s;
    FinishKeepsLockInv(s, s.periods, t, Conflict(c));
    if p.id !in s.periods { FinishKeepsLockInv(s, s.periods[p.id := p], t, Done(c, p, true)); }
  }

  /** The end a close writes is of its own source, which no other close past waiting has. */
  lemma CompareAndSetKeepsLockInv(s: State, t: nat, c: Command)
    requires LockInv(s) && t in s.txns && s.txns[t] == Txn(c, Seen) && c.Close?
    ensures LockInv(CompareAndSet(s, t, c))
  {
    hide Admits, Finish, Moved;
    assert CloseOk(s.periods, s.txns[t]);
    assert s.(periods := s.periods) == s;
    FinishKeepsLockInv(s, s.periods, t, Conflict(c));
    if s.periods[c.periodId].ending.None? {
      var p := s.periods[c.periodId].(ending := Some(c.ending));
      forall u | u in s.txns && u != t
        ensures CloseOk(s.periods[c.periodId := p], s.txns[u])
      {
        assert CloseOk(s.periods, s.txns[u]) && !Holds(s.txns[u], s.txns[t].command);
      }
      FinishKeepsLockInv(s, s.periods[c.periodId := p], t, Done(c, p, true));
    } else {
      MoveKeepsLockInv(s, t, c, Lost);
    }
  }

  lemma LookupKeepsLockInv(s: State, t: nat, c: Command, otherwise: State)
    requires LockInv(s) && LockInv(otherwise)
    ensures LockInv(Lookup(s, t, c, otherwise))
  {
    hide LocksExclusive, CloseOk, Finish, NamedBy, SameAsRecorded;
    var found := Found(s, c);
    assert s.(periods := s.periods) == s;
    FinishKeepsLockInv(s, s.periods, t, Conflict(c));
    if found.Some? { FinishKeepsLockInv(s, s.periods, t, Done(c, s.periods[found.value], false)); }
  }

  lemma AdvanceKeepsLockInv(s: State, t: nat)
    requires LockInv(s) && t in s.txns
    ensures LockInv(AdvanceTxn(s, t, s.txns[t]))
  {
    hide LockInv, Lookup, Insert, CompareAndSet, Finish, LockFree;
    var c := s.txns[t].command;
    LockInvMeans(s, t);
    assert s.(periods := s.periods) == s;
    FinishKeepsLockInv(s, s.periods, t, Conflict(c));
    match s.txns[t].pc {
      case Waiting => if LockFree(s.txns, t, c) { MoveKeepsLockInv(s, t, c, Locked); }
      case Locked =>
        MoveKeepsLockInv(s, t, c, Absent);
        LookupKeepsLockInv(s, t, c, Moved(s, t, c, Absent));
      case Absent =>
        if c.Open? {
          InsertKeepsLockInv(s, t, c);
        } else if c.periodId in s.periods && s.periods[c.periodId].ending.None? {
          MoveKeepsLockInv(s, t, c, Seen);
        }
      case Seen => if c.Close? { CompareAndSetKeepsLockInv(s, t, c); }
      case Lost => LookupKeepsLockInv(s, t, c, Finish(s, t, Conflict(c)));
    }
  }

  lemma LockInvMeans(s: State, t: nat)
    requires LockInv(s) && t in s.txns
    ensures CloseOk(s.periods, s.txns[t])
    ensures forall u :: u in s.txns ==> CloseOk(s.periods, s.txns[u])
  {
  }

  lemma StepKeepsLockInv(s: State, a: Action)
    requires LockInv(s)
    ensures LockInv(Step(s, a))
  {
    hide CloseOk, Holds, AdvanceTxn, LockFree;
    match a
    case Begin(t, c) => if t !in s.txns { BeginKeepsLockInv(s, t, c); }
    case Advance(t) => if t in s.txns { AdvanceKeepsLockInv(s, t); }
    case Abort(t) =>
    case Hide(_) =>
  }

  lemma BeginKeepsLockInv(s: State, t: nat, c: Command)
    requires LockInv(s) && t !in s.txns
    ensures LockInv(Moved(s, t, c, Waiting))
  {
    hide LockInv, NotEndedBy, LockFree;
    MoveKeepsLockInv(s, t, c, Waiting);
  }

  lemma {:induction false} RunKeepsLockInv(s: State, actions: seq<Action>)
    requires LockInv(s)
    ensures LockInv(Run(s, actions))
    decreases |actions|
  {
    hide LockInv, Step;
    if actions != [] {
      StepKeepsLockInv(s, actions[0]);
      RunKeepsLockInv(Step(s, actions[0]), actions[1..]);
    }
  }

  /**
   A close that finds at its write that another has closed the period always conflicts: it holds the lock
   on its source, so nobody else can have recorded its end since it looked. Only a close that finds its end
   recorded when it first looks replays.
   */
  lemma LosingCloseConflicts(actions: seq<Action>, t: nat)
    requires var s := Run(INITIAL, actions);
      t in s.txns && s.txns[t].command.Close? && s.txns[t].pc.Lost?
    ensures var s := Run(INITIAL, actions);
      var after := Step(s, Advance(t));
      after.periods == s.periods && t in after.results && after.results[t] == Conflict(s.txns[t].command)
  {
    hide Run, Inv, LockInv, LocksExclusive;
    assert LockInv(INITIAL) by { InitialLocks(); }
    RunKeepsLockInv(INITIAL, actions);
    InvHolds(actions);
    var s := Run(INITIAL, actions);
    var c := s.txns[t].command;
    LockInvMeans(s, t);
    var found := Found(s, c);
    if found.Some? { IdIsKey(s, found.value); }
  }

  lemma InitialLocks()
    ensures LockInv(INITIAL)
  {
  }

  lemma CloseResultIsTheRow(periods: Periods, r: Result)
    requires r.Done? && r.command.Close? && ResultOk(periods, r)
    ensures r.fact.id == r.command.periodId && periods[r.fact.id] == r.fact && r.fact.ending == Some(r.command.ending)
  {
    var p, q := r.fact, periods[r.fact.id];
    assert p == p.(ending := None).(ending := p.ending);
    assert q == q.(ending := None).(ending := q.ending);
  }

  /* ---- The repository, with other transactions committing between its statements ---- */

  class AssetFactsRepository {
    var periods: Periods
    var hidden: set<Id>

    /** Any number of other transactions commit an allowed change each, and any rows are soft-deleted. */
    method Others()
      requires TableOk(periods)
      modifies this
      ensures TableOk(periods) && AllEvolve(old(periods), periods)
    {
      hide TableOk, Admits, Evolves;
      var commits: nat := *;
      NothingEvolves(periods);
      while commits > 0
        invariant TableOk(periods) && AllEvolve(old(periods), periods)
      {
        var p: Period := *;
        if Admits(periods, p) && (p.id in periods ==> Evolves(periods[p.id], p)) {
          AdmittedKeepsTable(periods, p);
          OneMoreEvolves(old(periods), periods, p);
          periods := periods[p.id := p];
        }
        commits := commits - 1;
      }
      hidden := *;
    }

    /** The visible period the command's source names, if any. */
    method FindBySource(c: Command) returns (found: Option<Period>)
      requires TableOk(periods)
      ensures found.Some? ==>
        && found.value.id in periods && found.value.id !in hidden && periods[found.value.id] == found.value
        && NamedBy(found.value, c)
      ensures found.Some? <==> IsNamed(periods, hidden, c)
    {
      if id :| id in periods && id !in hidden && NamedBy(periods[id], c) {
        return Some(periods[id]);
      }
      return None;
    }

    /** The recorded period if the command states it, a conflict otherwise. */
    method ReplayRecorded(c: Command, p: Period) returns (r: Result)
      requires TableOk(periods) && p.id in periods && p.id !in hidden && periods[p.id] == p && NamedBy(p, c)
      ensures r.command == c && (r.Done? ==> !r.wrote && r.fact == p && SameAsRecorded(p, c))
      ensures r.Done? <==> IsRecorded(periods, hidden, c)
    {
      NamedIsRecordedExactlyWhen(periods, hidden, p.id, c);
      if SameAsRecorded(p, c) { return Done(c, p, false); }
      return Conflict(c);
    }

    /**
     Whatever commits meanwhile. `decided` is the table the command met with its write. A source that
     names a period decides alone; otherwise the period is written exactly if the constraints admit it.
     */
    method OpenPeriod(c: Command) returns (r: Result, ghost decided: Periods)
      requires TableOk(periods) && c.Open?
      modifies this
      ensures TableOk(periods) && AllEvolve(old(periods), decided) && AllEvolve(old(periods), periods) && r.command == c
      ensures r.Done? ==> ResultOk(periods, r)
      ensures IsNamed(old(periods), old(hidden), c) ==>
        periods == old(periods) && (r.Done? <==> IsRecorded(periods, old(hidden), c)) && (r.Done? ==> !r.wrote)
      ensures !IsNamed(old(periods), old(hidden), c) ==>
        && (r.Done? <==> c.freshId !in decided && Admits(decided, NewPeriod(c)))
        && (r.Done? ==> r == Done(c, NewPeriod(c), true) && periods == decided[c.freshId := NewPeriod(c)])
        && (r.Conflict? ==> periods == decided)
    {
      hide TableOk, Admits, Evolves, IsNamed, IsRecorded;
      decided := periods;
      var existing := FindBySource(c);
      NothingEvolves(periods);
      if existing.Some? {
        EvolvesItself(existing.value);
        r := ReplayRecorded(c, existing.value);
        return;
      }
      Others();
      decided := periods;
      var p := Period(c.freshId, c.vehicleId, c.orderId, c.terms, c.startedAt, c.start, None);
      if p.id in periods || !Admits(periods, p) {
        r := Conflict(c);
        return;
      }
      AdmittedKeepsTable(periods, p);
      OneMoreEvolves(old(periods), periods, p);
      EvolvesItself(p);
      periods := periods[p.id := p];
      r := Done(c, p, true);
    }

    /** Writes the end of a period only if it is still open. */
    method CompareAndSetEnd(c: Command) returns (count: nat, allowed: bool)
      requires TableOk(periods) && c.Close?
      modifies `periods
      ensures TableOk(periods) && AllEvolve(old(periods), periods)
      ensures count == 1 <==> c.periodId in old(periods) && old(periods)[c.periodId].ending.None? && allowed
      ensures c.periodId in old(periods) && old(periods)[c.periodId].ending.None? ==>
        (allowed <==> Admits(old(periods), old(periods)[c.periodId].(ending := Some(c.ending))))
      ensures !(c.periodId in old(periods) && old(periods)[c.periodId].ending.None?) ==> allowed
      ensures count == 1 ==> periods == old(periods)[c.periodId := old(periods)[c.periodId].(ending := Some(c.ending))]
      ensures count != 1 ==> periods == old(periods) && count == 0
    {
      hide Admits, Evolves;
      NothingEvolves(periods);
      count, allowed := 0, true;
      if c.periodId in periods && periods[c.periodId].ending.None? {
        var p := periods[c.periodId].(ending := Some(c.ending));
        allowed := Admits(periods, p);
        if allowed {
          AdmittedKeepsTable(periods, p);
          EndingEvolves(periods[c.periodId], c.ending);
          OneMoreEvolves(periods, periods, p);
          periods := periods[c.periodId := p];
          count := 1;
        }
      }
    }

    /**
     Whatever commits meanwhile. `read` is what the command saw when it looked the period up, `met` what it
     met with its write. A source that names a period decides alone. Otherwise the period must be open when
     read; if it is still open then, its end is written exactly if the constraints admit it and the row can
     be read back; if another close came first, the command replays exactly if that one recorded its end.
     */
    method ClosePeriod(c: Command) returns (r: Result, ghost read: View, ghost met: View)
      requires TableOk(periods) && c.Close?
      modifies this
      ensures TableOk(periods) && AllEvolve(old(periods), read.periods) && AllEvolve(read.periods, met.periods)
      ensures AllEvolve(met.periods, periods) && r.command == c
      ensures r.Done? ==> SameAsRecorded(r.fact, c) && r.fact.id in periods && periods[r.fact.id] == r.fact
      ensures IsNamed(old(periods), old(hidden), c) ==>
        periods == old(periods) && (r.Done? <==> IsRecorded(periods, old(hidden), c)) && (r.Done? ==> !r.wrote)
      ensures !IsNamed(old(periods), old(hidden), c) && !IsOpen(read, c.periodId) ==>
        r.Conflict? && periods == met.periods
      ensures !IsNamed(old(periods), old(hidden), c) && IsOpen(read, c.periodId) ==>
        if met.periods[c.periodId].ending.None? then
          && (r.Done? <==> Admits(met.periods, Ended(met.periods[c.periodId], c)) && c.periodId !in met.hidden)
          && (r.Done? ==> r.wrote && periods == met.periods[c.periodId := Ended(met.periods[c.periodId], c)])
          && (r.Conflict? ==> periods == met.periods)
        else
          periods == met.periods && (r.Done? <==> IsRecorded(met.periods, met.hidden, c)) && (r.Done? ==> !r.wrote)
    {
      hide TableOk, Admits, IsNamed, IsRecorded, Evolves, SameAsRecorded;
      read, met := View(periods, hidden), View(periods, hidden);
      var replay := FindBySource(c);
      NothingEvolves(periods);
      if replay.Some? {
        r := ReplayRecorded(c, replay.value);
        return;
      }
      Others();
      read, met := View(periods, hidden), View(periods, hidden);
      NothingEvolves(periods);
      if c.periodId !in periods || c.periodId in hidden || periods[c.periodId].ending.Some? {
        r := Conflict(c);
        return;
      }
      Others();
      met := View(periods, hidden);
      r := WriteEnd(c);
    }

    /** The write of a close, with what follows from its outcome. */
    method WriteEnd(c: Command) returns (r: Result)
      requires TableOk(periods) && c.Close? && c.periodId in periods
      modifies `periods
      ensures TableOk(periods) && AllEvolve(old(periods), periods) && r.command == c
      ensures r.Done? ==> SameAsRecorded(r.fact, c) && r.fact.id in periods && periods[r.fact.id] == r.fact
      ensures
        if old(periods)[c.periodId].ending.None? then
          && (r.Done? <==> Admits(old(periods), Ended(old(periods)[c.periodId], c)) && c.periodId !in hidden)
          && (r.Done? ==> r.wrote && periods == old(periods)[c.periodId := Ended(old(periods)[c.periodId], c)])
          && (r.Conflict? ==> periods == old(periods))
        else
          periods == old(periods) && (r.Done? <==> IsRecorded(periods, hidden, c)) && (r.Done? ==> !r.wrote)
    {
      hide TableOk, Admits, IsNamed, IsRecorded, Evolves;
      ghost var before := periods;
      var late := periods;
      NothingEvolves(periods);
      var count, allowed := CompareAndSetEnd(c);
      if !allowed { return Conflict(c); }
      if count != 1 {
        var race := FindBySource(c);
        if race.None? {
          NotNamedMeans(periods, hidden, c);
          return Conflict(c);
        }
        r := ReplayRecorded(c, race.value);
        return;
      }
      if c.periodId in hidden {
        periods := late; // the row written cannot be read back: the transaction ends without effect
        return Conflict(c);
      }
      KeyIsId(before, c.periodId);
      return Done(c, periods[c.periodId], true);
    }
  }

  /** What a command sees of the table at one moment. */
  datatype View = View(periods: Periods, hidden: set<Id>)

  predicate IsOpen(v: View, id: Id) { id in v.periods && id !in v.hidden && v.periods[id].ending.None? }

  function Ended(p: Period, c: Command): Period
    requires c.Close?
  {
    p.(ending := Some(c.ending))
  }

  lemma NotNamedMeans(periods: Periods, hidden: set<Id>, c: Command)
    requires !IsNamed(periods, hidden, c)
    ensures !IsRecorded(periods, hidden, c)
  {
    NotNamedIsNotRecorded(periods, hidden, c);
  }

  lemma EvolvesItself(p: Period)
    ensures Evolves(p, p)
  {
  }

  lemma KeyIsId(periods: Periods, id: Id)
    requires TableOk(periods) && id in periods
    ensures periods[id].id == id
  {
  }

  lemma EndingEvolves(p: Period, ending: Ending)
    requires p.ending.None?
    ensures Evolves(p, p.(ending := Some(ending)))
  {
  }

  lemma OneMoreEvolves(before: Periods, periods: Periods, p: Period)
    requires AllEvolve(before, periods) && (p.id in periods ==> Evolves(periods[p.id], p))
    ensures AllEvolve(before, periods[p.id := p])
  {
    hide Evolves;
    forall id | id in before
      ensures Evolves(before[id], periods[p.id := p][id])
    {
      if id == p.id { EvolvesAgain(before[id], periods[id], p); }
    }
  }
}
