/**
 The rows of evidence form chains: each starts with an attached file and goes on by superseding
 or removing, one row after another, within one work order and one evidence type.
 */
module EvidenceChains {
  import opened Wrappers
  import opened AssetTypes
  import opened WorkOrders
  import opened WorkOrderCommands
  import opened WorkOrderInvariants
  import opened WorkOrderReplay
  import opened WorkOrderSessions

  type Rows = map<Id, EvidenceRow>

  function Previous(row: EvidenceRow): Option<Id> {
    if row.detail.Evidence? then row.detail.supersedes else None
  }

  /** Attached rows start a chain; every other row supersedes one row of the same order and type, alone. */
  ghost predicate RowOk(rows: Rows, id: Id)
    requires id in rows
  {
    && rows[id].id == id && rows[id].detail.Evidence?
    && (rows[id].detail.action.Attach? <==> Previous(rows[id]).None?)
    && (Previous(rows[id]).Some? ==>
          Previous(rows[id]).value in rows && SameKind(rows[Previous(rows[id]).value], rows[id].detail))
  }

  ghost predicate RowsOk(rows: Rows) {
    && (forall id :: id in rows ==> RowOk(rows, id))
    && (forall a, b :: a in rows && b in rows && Previous(rows[a]).Some? && Previous(rows[a]) == Previous(rows[b]) ==>
          a == b)
  }

  /** A chain from its root: each row supersedes the one before it. */
  ghost predicate IsChain(rows: Rows, chain: seq<Id>) {
    && chain != []
    && (forall i :: 0 <= i < |chain| ==> chain[i] in rows)
    && Previous(rows[chain[0]]).None?
    && (forall i :: 0 < i < |chain| ==> Previous(rows[chain[i]]) == Some(chain[i - 1]))
  }

  ghost predicate Rooted(rows: Rows, id: Id) {
    exists chain :: IsChain(rows, chain) && chain[|chain| - 1] == id
  }

  ghost predicate AllRooted(rows: Rows) { forall id :: id in rows ==> Rooted(rows, id) }

  /* ---- Every run keeps the chains ---- */

  lemma AddedRowIsOk(ops: Ops, row: EvidenceRow, e: Event)
    requires RowsOk(ops.evidence) && ChangeOk(ops, AddEvidence(row, e))
    ensures RowsOk(ops.evidence[row.id := row])
  {
    hide Loggable;
    var after := ops.evidence[row.id := row];
    assert row.detail.Evidence? && EvidenceShaped(row.detail);
    forall id | id in after
      ensures RowOk(after, id)
    {
      if id != row.id { assert RowOk(ops.evidence, id); }
    }
    forall a, b | a in after && b in after && Previous(after[a]).Some? && Previous(after[a]) == Previous(after[b])
      ensures a == b
    {
      if a != b && (a == row.id || b == row.id) {
        NotSupersededTwice(ops.evidence, row, if a == row.id then b else a);
        assert false;
      }
    }
  }

  lemma NotSupersededTwice(rows: Rows, row: EvidenceRow, other: Id)
    requires other in rows && Previous(row).Some? && !IsSuperseded(rows, Previous(row).value)
    ensures Previous(rows[other]) != Previous(row)
  {
  }

  /** The row a chain ends in may be followed by a row that supersedes it. */
  lemma ChainGrows(rows: Rows, after: Rows, row: EvidenceRow, chain: seq<Id>)
    requires IsChain(rows, chain) && row.id !in rows && after == rows[row.id := row]
    requires Previous(row) == Some(chain[|chain| - 1])
    ensures Rooted(after, row.id)
  {
    ChainStays(rows, after, chain);
    var longer := chain + [row.id];
    forall i | 0 < i < |longer|
      ensures Previous(after[longer[i]]) == Some(longer[i - 1])
    {
      if i < |chain| { assert Previous(after[chain[i]]) == Some(chain[i - 1]); }
    }
    assert IsChain(after, longer);
    assert longer[|longer| - 1] == row.id;
  }

  lemma StaysRooted(rows: Rows, after: Rows, id: Id)
    requires Rooted(rows, id) && forall x :: x in rows ==> x in after && after[x] == rows[x]
    ensures Rooted(after, id)
  {
    var chain :| IsChain(rows, chain) && chain[|chain| - 1] == id;
    ChainStays(rows, after, chain);
  }

  lemma AddedRowIsRooted(rows: Rows, row: EvidenceRow)
    requires AllRooted(rows) && row.id !in rows
    requires Previous(row).Some? ==> Previous(row).value in rows
    ensures AllRooted(rows[row.id := row])
  {
    hide Previous;
    var after := rows[row.id := row];
    forall id | id in after
      ensures Rooted(after, id)
    {
      if id != row.id {
        StaysRooted(rows, after, id);
      } else if Previous(row).None? {
        RootAlone(after, row.id);
      } else {
        assert Rooted(rows, Previous(row).value);
        var chain :| IsChain(rows, chain) && chain[|chain| - 1] == Previous(row).value;
        ChainGrows(rows, after, row, chain);
      }
    }
  }

  lemma RootAlone(rows: Rows, id: Id)
    requires id in rows && Previous(rows[id]).None?
    ensures Rooted(rows, id)
  {
    assert IsChain(rows, [id]);
    assert [id][|[id]| - 1] == id;
  }

  lemma ChainStays(rows: Rows, after: Rows, chain: seq<Id>)
    requires IsChain(rows, chain) && forall id :: id in rows ==> id in after && after[id] == rows[id]
    ensures IsChain(after, chain)
  {
  }

  lemma {:induction false} RunKeepsChains(s: Session, steps: seq<Step>)
    requires SessionInv(s) && RowsOk(s.ops.evidence) && AllRooted(s.ops.evidence)
    ensures RowsOk(Run(s, steps).ops.evidence) && AllRooted(Run(s, steps).ops.evidence)
    decreases |steps|
  {
    hide SessionInv, Perform, RowsOk, AllRooted;
    if steps != [] {
      PerformKeepsInv(s, steps[0]);
      PerformKeepsChains(s, steps[0]);
      RunKeepsChains(Perform(s, steps[0]), steps[1..]);
    }
  }

  lemma PerformKeepsChains(s: Session, step: Step)
    requires SessionInv(s) && RowsOk(s.ops.evidence) && AllRooted(s.ops.evidence)
    ensures RowsOk(Perform(s, step).ops.evidence) && AllRooted(Perform(s, step).ops.evidence)
  {
    hide Inv, HandleOk, Execute, RowsOk, AllRooted, GivenOk, Given;
    if step.Do? {
      GivenIsOk(s, step);
      ExecuteKeepsChains(s.ops, step.command, Given(s, step));
    }
  }

  lemma ExecuteKeepsChains(ops: Ops, c: Command, w: World)
    requires Inv(ops) && GivenOk(ops, c, w) && RowsOk(ops.evidence) && AllRooted(ops.evidence)
    ensures RowsOk(Execute(ops, c, w).0.evidence) && AllRooted(Execute(ops, c, w).0.evidence)
  {
    hide Inv, Execute, RowsOk, AllRooted, Loggable, EvidenceShaped, SameKind, IsSuperseded, GivenOk;
    if Execute(ops, c, w).1.Wrote? {
      var change := WritingIsChange(ops, c, w);
      if change.AddEvidence? {
        AddedRowIsOk(ops, change.row, change.event);
        AddedRowIsRooted(ops.evidence, change.row);
      }
    } else {
      NotWritingChangesNothing(ops, c, w);
    }
  }

  lemma ChainsHold(steps: seq<Step>)
    ensures RowsOk(Run(START, steps).ops.evidence) && AllRooted(Run(START, steps).ops.evidence)
  {
    hide Run;
    StartIsOk();
    RunKeepsChains(START, steps);
  }

  /* ---- What the chains are like ---- */

  /** Two positions of chains that hold the same row have the same distance from their roots. */
  lemma {:induction false} SameRowSamePlace(rows: Rows, a: seq<Id>, i: nat, b: seq<Id>, j: nat)
    requires IsChain(rows, a) && IsChain(rows, b) && i < |a| && j < |b| && a[i] == b[j]
    ensures i == j && a[..i + 1] == b[..j + 1]
    decreases i + j
  {
    if i > 0 && j > 0 {
      assert Previous(rows[a[i]]) == Some(a[i - 1]) && Previous(rows[b[j]]) == Some(b[j - 1]);
      SameRowSamePlace(rows, a, i - 1, b, j - 1);
      assert a[..i + 1] == a[..i] + [a[i]] && b[..j + 1] == b[..j] + [b[j]];
    } else {
      RootsAreFirst(rows, a, i);
      RootsAreFirst(rows, b, j);
    }
  }

  /** Only the first row of a chain supersedes nothing. */
  lemma RootsAreFirst(rows: Rows, chain: seq<Id>, i: nat)
    requires IsChain(rows, chain) && i < |chain|
    ensures i == 0 <==> Previous(rows[chain[i]]).None?
  {
    if i > 0 { assert Previous(rows[chain[i]]) == Some(chain[i - 1]); }
  }

  /** No row occurs twice in a chain. */
  lemma ChainIsAcyclic(rows: Rows, chain: seq<Id>, i: nat, j: nat)
    requires IsChain(rows, chain) && i < j < |chain|
    ensures chain[i] != chain[j]
  {
    if chain[i] == chain[j] { SameRowSamePlace(rows, chain, i, chain, j); }
  }

  lemma {:induction false} ChainIsOfOneKind(rows: Rows, chain: seq<Id>, i: nat)
    requires RowsOk(rows) && IsChain(rows, chain) && i < |chain|
    ensures rows[chain[0]].detail.Evidence? && rows[chain[0]].detail.action.Attach?
    ensures rows[chain[i]].detail.Evidence? && SameKind(rows[chain[0]], rows[chain[i]].detail)
  {
    assert RowOk(rows, chain[0]);
    if i > 0 {
      ChainIsOfOneKind(rows, chain, i - 1);
      assert RowOk(rows, chain[i]);
      assert Previous(rows[chain[i]]) == Some(chain[i - 1]);
    }
  }

  /** Chains with a common root agree as far as both go. */
  lemma {:induction false} ChainsFromOneRoot(rows: Rows, a: seq<Id>, b: seq<Id>, n: nat)
    requires RowsOk(rows) && IsChain(rows, a) && IsChain(rows, b) && a[0] == b[0] && n < |a| && n < |b|
    ensures a[n] == b[n]
  {
    hide RowOk;
    if n > 0 {
      ChainsFromOneRoot(rows, a, b, n - 1);
      assert Previous(rows[a[n]]) == Some(a[n - 1]) && Previous(rows[b[n]]) == Some(b[n - 1]);
    }
  }

  /* ---- The effective evidence ---- */

  /** A row no other row supersedes: the last of its chain. */
  predicate IsLast(rows: Rows, id: Id) { id in rows && !IsSuperseded(rows, id) }

  /** A chain that no row prolongs. */
  ghost predicate IsWhole(rows: Rows, chain: seq<Id>) {
    IsChain(rows, chain) && IsLast(rows, chain[|chain| - 1])
  }

  function Effective(rows: Rows): set<Id> {
    set id | id in rows && rows[id].detail.Evidence? && !rows[id].detail.action.Remove? && IsLast(rows, id)
  }

  /** Every chain is part of a whole one. */
  lemma {:induction false} ChainCompletes(rows: Rows, chain: seq<Id>, seen: set<Id>) returns (whole: seq<Id>)
    requires RowsOk(rows) && IsChain(rows, chain)
    requires seen == (set id | id in chain) && seen <= rows.Keys
    ensures IsWhole(rows, whole) && chain <= whole
    decreases |rows.Keys - seen|
  {
    hide RowsOk, IsChain, IsSuperseded;
    ChainIsNotEmpty(rows, chain);
    if IsLast(rows, chain[|chain| - 1]) {
      whole := chain;
    } else {
      var next := NextInChain(rows, chain, seen);
      whole := ChainCompletes(rows, chain + [next], seen + {next});
    }
  }

  /** A chain that does not end in a last row goes on with a row that is not in it yet. */
  lemma NextInChain(rows: Rows, chain: seq<Id>, seen: set<Id>) returns (next: Id)
    requires RowsOk(rows) && IsChain(rows, chain) && !IsLast(rows, chain[|chain| - 1])
    requires seen == (set id | id in chain) && seen <= rows.Keys
    ensures IsChain(rows, chain + [next])
    ensures seen + {next} == (set id | id in chain + [next]) && seen + {next} <= rows.Keys
    ensures |rows.Keys - (seen + {next})| < |rows.Keys - seen|
  {
    hide RowsOk;
    var last := chain[|chain| - 1];
    next :| next in rows && rows[next].detail.Evidence? && rows[next].detail.supersedes == Some(last);
    LongerChain(rows, chain, next);
    NotInChain(rows, chain, next);
    assert rows.Keys - (seen + {next}) < rows.Keys - seen;
    SmallerSet(rows.Keys - (seen + {next}), rows.Keys - seen);
  }

  lemma ChainIsNotEmpty(rows: Rows, chain: seq<Id>)
    requires IsChain(rows, chain)
    ensures chain != []
  {
  }

  lemma LongerChain(rows: Rows, chain: seq<Id>, next: Id)
    requires IsChain(rows, chain) && next in rows && Previous(rows[next]) == Some(chain[|chain| - 1])
    ensures IsChain(rows, chain + [next])
  {
    hide Previous;
    var longer := chain + [next];
    forall i | 0 < i < |longer|
      ensures Previous(rows[longer[i]]) == Some(longer[i - 1])
    {
      assert i < |chain| ==> Previous(rows[chain[i]]) == Some(chain[i - 1]);
    }
  }

  lemma NotInChain(rows: Rows, chain: seq<Id>, next: Id)
    requires IsChain(rows, chain + [next])
    ensures next !in chain
  {
    hide IsChain;
    if next in chain {
      var i :| 0 <= i < |chain| && chain[i] == next;
      ChainIsAcyclic(rows, chain + [next], i, |chain|);
    }
  }

  lemma SmallerSet(a: set<Id>, b: set<Id>)
    requires a < b
    ensures |a| < |b|
  {
    var x :| x in b && x !in a;
    assert a <= b - {x};
    SubsetSize(a, b - {x});
  }

  lemma {:induction false} SubsetSize(a: set<Id>, b: set<Id>)
    requires a <= b
    ensures |a| <= |b|
  {
    if a != {} {
      var x :| x in a;
      SubsetSize(a - {x}, b - {x});
    }
  }

  /** Two whole chains are the same or have no row in common. */
  lemma WholeChainsAreDisjoint(rows: Rows, a: seq<Id>, b: seq<Id>, i: nat, j: nat)
    requires RowsOk(rows) && IsWhole(rows, a) && IsWhole(rows, b) && i < |a| && j < |b| && a[i] == b[j]
    ensures a == b
  {
    hide RowOk;
    SameRowSamePlace(rows, a, i, b, j);
    assert a[0] == a[..i + 1][0] == b[..j + 1][0] == b[0];
    if |a| < |b| {
      NotProlonged(rows, a, b);
    } else if |b| < |a| {
      NotProlonged(rows, b, a);
    }
    forall n | 0 <= n < |a|
      ensures a[n] == b[n]
    {
      ChainsFromOneRoot(rows, a, b, n);
    }
  }

  lemma NotProlonged(rows: Rows, a: seq<Id>, b: seq<Id>)
    requires RowsOk(rows) && IsWhole(rows, a) && IsChain(rows, b) && a[0] == b[0]
    ensures |a| >= |b|
  {
    hide RowOk;
    if |a| < |b| {
      ChainsFromOneRoot(rows, a, b, |a| - 1);
      ProlongedIsNotLast(rows, b, |a|);
    }
  }

  lemma ProlongedIsNotLast(rows: Rows, chain: seq<Id>, n: nat)
    requires RowsOk(rows) && IsChain(rows, chain) && 0 < n < |chain|
    ensures !IsLast(rows, chain[n - 1])
  {
    hide RowOk;
    IsEvidence(rows, chain[n]);
    assert Previous(rows[chain[n]]) == Some(chain[n - 1]);
  }

  lemma IsEvidence(rows: Rows, id: Id)
    requires RowsOk(rows) && id in rows
    ensures rows[id].detail.Evidence?
  {
    assert RowOk(rows, id);
  }

  /** Every row is in a whole chain. */
  lemma InWholeChain(rows: Rows, id: Id) returns (chain: seq<Id>)
    requires RowsOk(rows) && AllRooted(rows) && id in rows
    ensures IsWhole(rows, chain) && id in chain
  {
    hide RowsOk, IsLast;
    assert Rooted(rows, id);
    var part :| IsChain(rows, part) && part[|part| - 1] == id;
    chain := ChainCompletes(rows, part, set x | x in part);
    assert chain[|part| - 1] == id;
  }

  lemma OneWholeChain(rows: Rows, id: Id, a: seq<Id>, b: seq<Id>)
    requires RowsOk(rows) && IsWhole(rows, a) && IsWhole(rows, b) && id in a && id in b
    ensures a == b
  {
    hide RowsOk, IsWhole;
    var i :| 0 <= i < |a| && a[i] == id;
    var j :| 0 <= j < |b| && b[j] == id;
    WholeChainsAreDisjoint(rows, a, b, i, j);
  }

  /** One work order, one evidence type, and no row twice. */
  ghost predicate IsProper(rows: Rows, chain: seq<Id>) {
    && IsChain(rows, chain)
    && rows[chain[0]].detail.Evidence? && rows[chain[0]].detail.action.Attach?
    && (forall i :: 0 <= i < |chain| ==>
          rows[chain[i]].detail.Evidence? && SameKind(rows[chain[0]], rows[chain[i]].detail))
    && (forall i, j :: 0 <= i < j < |chain| ==> chain[i] != chain[j])
  }

  lemma ChainIsProper(rows: Rows, chain: seq<Id>)
    requires RowsOk(rows) && IsChain(rows, chain)
    ensures IsProper(rows, chain)
  {
    hide RowsOk, SameKind;
    forall i | 0 <= i < |chain|
      ensures rows[chain[i]].detail.Evidence? && SameKind(rows[chain[0]], rows[chain[i]].detail)
    {
      ChainIsOfOneKind(rows, chain, i);
    }
    ChainIsOfOneKind(rows, chain, 0);
    forall i, j | 0 <= i < j < |chain|
      ensures chain[i] != chain[j]
    {
      ChainIsAcyclic(rows, chain, i, j);
    }
  }

  /**
   After any run, every row is in exactly one whole chain; the chain starts with an attached row,
   stays within one order and one type, and no row occurs twice in it.
   */
  lemma EvidenceFormsChains(steps: seq<Step>, id: Id) returns (chain: seq<Id>)
    requires id in Run(START, steps).ops.evidence
    ensures var rows := Run(START, steps).ops.evidence;
      && IsWhole(rows, chain) && id in chain && IsProper(rows, chain)
      && (forall other :: IsWhole(rows, other) && id in other ==> other == chain)
  {
    hide Run, RowsOk, IsLast, IsProper, AllRooted, IsChain;
    ChainsHold(steps);
    var rows := Run(START, steps).ops.evidence;
    chain := InWholeChain(rows, id);
    ChainIsProper(rows, chain);
    forall other | IsWhole(rows, other) && id in other
      ensures other == chain
    {
      OneWholeChain(rows, id, other, chain);
    }
  }

  /** The effective evidence is exactly the last rows of the whole chains that do not end in a removal. */
  lemma EffectiveAreLastRows(steps: seq<Step>, id: Id)
    ensures var rows := Run(START, steps).ops.evidence;
      id in Effective(rows) <==> exists chain :: IsWhole(rows, chain) && EndsInEffect(rows, chain, id)
  {
    hide Run, RowsOk, IsSuperseded;
    ChainsHold(steps);
    var rows := Run(START, steps).ops.evidence;
    if id in Effective(rows) {
      assert Rooted(rows, id);
      var chain :| IsChain(rows, chain) && chain[|chain| - 1] == id;
      assert IsWhole(rows, chain) && EndsInEffect(rows, chain, id);
    }
  }

  predicate EndsInEffect(rows: Rows, chain: seq<Id>, id: Id) {
    && chain != [] && chain[|chain| - 1] == id
    && id in rows && rows[id].detail.Evidence? && !rows[id].detail.action.Remove?
  }

  /** The projection's two passes: what is superseded, and what remains. */
  method ProjectEvidence(rows: seq<EvidenceRow>, byId: Rows) returns (effective: set<Id>)
    requires forall r :: r in rows <==> r.id in byId && byId[r.id] == r
    requires RowsOk(byId)
    ensures effective == Effective(byId)
  {
    hide RowOk;
    var superseded: set<Id> := {};
    var i := 0;
    while i < |rows|
      invariant 0 <= i <= |rows|
      invariant forall id :: id in superseded <==> exists j :: 0 <= j < i && Previous(rows[j]) == Some(id)
    {
      if Previous(rows[i]).Some? { superseded := superseded + {Previous(rows[i]).value}; }
      i := i + 1;
    }
    SupersededAreFound(rows, byId, superseded);
    effective := {};
    i := 0;
    while i < |rows|
      invariant 0 <= i <= |rows|
      invariant forall id :: id in effective <==>
        exists j :: 0 <= j < i && rows[j].id == id && Keeps(rows[j], superseded)
    {
      if Keeps(rows[i], superseded) { effective := effective + {rows[i].id}; }
      i := i + 1;
    }
    EffectiveAreKept(rows, byId, superseded, effective);
  }

  predicate Keeps(row: EvidenceRow, superseded: set<Id>) {
    row.detail.Evidence? && !row.detail.action.Remove? && row.id !in superseded
  }

  lemma SupersededAreFound(rows: seq<EvidenceRow>, byId: Rows, superseded: set<Id>)
    requires forall r :: r in rows <==> r.id in byId && byId[r.id] == r
    requires RowsOk(byId)
    requires forall id :: id in superseded <==> exists j :: 0 <= j < |rows| && Previous(rows[j]) == Some(id)
    ensures forall id :: id in superseded <==> IsSuperseded(byId, id)
  {
    forall id
      ensures id in superseded <==> IsSuperseded(byId, id)
    {
      if id in superseded {
        var j :| 0 <= j < |rows| && Previous(rows[j]) == Some(id);
        assert rows[j] in rows;
        assert byId[rows[j].id].detail.supersedes == Some(id);
      }
      if IsSuperseded(byId, id) {
        var s :| s in byId && byId[s].detail.Evidence? && byId[s].detail.supersedes == Some(id);
        assert RowOk(byId, s);
        assert byId[s] in rows;
        var j :| 0 <= j < |rows| && rows[j] == byId[s];
        assert Previous(rows[j]) == Some(id);
      }
    }
  }

  lemma EffectiveAreKept(rows: seq<EvidenceRow>, byId: Rows, superseded: set<Id>, effective: set<Id>)
    requires forall r :: r in rows <==> r.id in byId && byId[r.id] == r
    requires RowsOk(byId) && forall id :: id in superseded <==> IsSuperseded(byId, id)
    requires forall id :: id in effective <==>
      exists j :: 0 <= j < |rows| && rows[j].id == id && Keeps(rows[j], superseded)
    ensures effective == Effective(byId)
  {
    hide IsSuperseded;
    forall id
      ensures id in effective <==> id in Effective(byId)
    {
      if id in effective {
        var j :| 0 <= j < |rows| && rows[j].id == id && Keeps(rows[j], superseded);
        assert rows[j] in rows;
      }
      if id in Effective(byId) {
        assert RowOk(byId, id);
        assert byId[id] in rows;
        var j :| 0 <= j < |rows| && rows[j] == byId[id];
        assert rows[j].id == id && Keeps(rows[j], superseded);
      }
    }
  }
}
