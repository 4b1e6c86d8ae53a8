/** What a dispatch from a reachable state does, event by event, told from the rows on record, the
    money they report and the attempts the environment scripted. */
module RunDispatch {
  import opened Options
  import opened RunModel
  import opened RunReference
  import opened RunProtocol
  import opened RunRecords
  import opened RunMoves
  import RunExecutor
  import RunTheorems

  predicate OpensRow(was: Db, e: Event) {
    e.Commit? && |e.db.work.rows| > |was.work.rows|
  }

  predicate CostPause(e: Event) {
    e.Commit? && e.db.status == Paused && e.db.ctx.pausedKind == Some(Cost)
  }

  /** Every cell of the grid has a succeeded row. */
  ghost predicate Complete(plan: Plan, rows: seq<Row>) {
    forall it: nat, pos: nat :: it < plan.iterations && pos < |plan.steps| ==> SucceededAt(rows, it, pos)
  }

  /** What is committed when event `k` of a dispatch happens. */
  function OnRecord(db: Db, events: seq<Event>, k: nat): Db
    requires k <= |events|
  {
    LastCommit(db, events[..k])
  }

  // ----- inside one cell ----------------------------------------------------------------------------

  predicate InCell(db: Db, it: nat, e: Event) {
    e.Commit? ==>
      |e.db.work.rows| == |db.work.rows| + 1 && e.db.work.rows[..|db.work.rows|] == db.work.rows &&
      e.db.work.rows[|db.work.rows|].iteration == it && !CostPause(e)
  }

  predicate AllInCell(db: Db, it: nat, events: seq<Event>) {
    forall e :: e in events ==> InCell(db, it, e)
  }

  lemma AllInCellJoin(db: Db, it: nat, a: seq<Event>, b: seq<Event>)
    requires AllInCell(db, it, a) && AllInCell(db, it, b)
    ensures AllInCell(db, it, a + b)
  {}

  lemma {:induction false} SavesInCell(db: Db, it: nat, begun: Db, saves: seq<Output>)
    requires begun.work.rows != [] && begun.work.rows[..|begun.work.rows| - 1] == db.work.rows && begun.status == Running
    requires begun.work.rows[|begun.work.rows| - 1].iteration == it
    ensures AllInCell(db, it, SaveTrail(begun, saves))
    decreases |saves|
  {
    if saves != [] {
      var next := begun.(work := Checkpointed(begun.work, saves[0]));
      SavesInCell(db, it, next, saves[1..]);
      AllInCellJoin(db, it, [Commit(next)], SaveTrail(next, saves[1..]));
    }
  }

  lemma EndingInCell(m: Machine, db: Db, saved: Db, it: nat, result: StepResult, ending: Ending)
    requires saved.work.rows != [] && saved.work.rows[..|saved.work.rows| - 1] == db.work.rows && saved.status == Running
    requires saved.work.rows[|saved.work.rows| - 1].iteration == it
    ensures AllInCell(db, it, EndingFrom(m, saved, it, result, ending).trail)
  {
    hide RecordedOutput, Resolved, Settled;
  }

  lemma CellInCell(m: Machine, db: Db, it: nat, pos: nat, attempt: Attempt)
    requires pos < |m.plan.steps| && db.status == Running
    ensures AllInCell(db, it, CellFrom(m, db, it, pos, attempt).trail)
  {
    hide ResultAt, CallAt, SaveTrail, EndingFrom, AllInCell;
    var begun := OpenedDb(m, db, it, pos);
    var saved := begun.(work := AfterSaves(begun.work, attempt.saves));
    var opening := [Commit(begun), Called(CallAt(m, db.work.rows, it, pos))];
    assert begun.work.rows[..|db.work.rows|] == db.work.rows;
    OpeningInCell(db, it, begun, CallAt(m, db.work.rows, it, pos));
    SavesInCell(db, it, begun, attempt.saves);
    EndingInCell(m, db, saved, it, ResultAt(m.plan, db.work.rows, it, pos), attempt.ending);
    AllInCellJoin(db, it, opening, SaveTrail(begun, attempt.saves));
    AllInCellJoin(db, it, opening + SaveTrail(begun, attempt.saves),
                  EndingFrom(m, saved, it, ResultAt(m.plan, db.work.rows, it, pos), attempt.ending).trail);
  }

  lemma OpeningInCell(db: Db, it: nat, begun: Db, call: Call)
    requires begun.status == Running && |begun.work.rows| == |db.work.rows| + 1 && begun.work.rows[..|db.work.rows|] == db.work.rows
    requires begun.work.rows[|db.work.rows|].iteration == it
    ensures AllInCell(db, it, [Commit(begun), Called(call)])
  {}

  /** The first two events of a cell, and the only call. */
  lemma CellOpens(m: Machine, db: Db, it: nat, pos: nat, attempt: Attempt)
    requires pos < |m.plan.steps|
    ensures var trail := CellFrom(m, db, it, pos, attempt).trail;
      && |trail| >= 2 && trail[0] == Commit(OpenedDb(m, db, it, pos)) && trail[1] == Called(CallAt(m, db.work.rows, it, pos))
      && forall j :: 2 <= j < |trail| ==> trail[j].Commit?
  {
    hide ResultAt, CallAt, AfterSaves, Absorbed, RaisedDb, PausedDb, FailedDb, OpenedDb;
    var begun := OpenedDb(m, db, it, pos);
    RunTheorems.SavesCallNothing(begun, attempt.saves);
    var saved := begun.(work := AfterSaves(begun.work, attempt.saves));
    RunTheorems.EndingCallsNothing(m, saved, it, ResultAt(m.plan, db.work.rows, it, pos), attempt.ending);
    var trail := CellFrom(m, db, it, pos, attempt).trail;
    var rest := SaveTrail(begun, attempt.saves) + EndingFrom(m, saved, it, ResultAt(m.plan, db.work.rows, it, pos), attempt.ending).trail;
    assert trail == [trail[0], trail[1]] + rest;
    forall j | 2 <= j < |trail| ensures trail[j].Commit? {
      assert trail[j] == rest[j - 2] && rest[j - 2] in rest;
    }
  }

  /** What is committed before a later event of a cell. */
  lemma WithinCell(m: Machine, db: Db, it: nat, pos: nat, attempt: Attempt, j: nat)
    requires pos < |m.plan.steps| && db.status == Running && 1 <= j <= |CellFrom(m, db, it, pos, attempt).trail|
    ensures InCell(db, it, Commit(OnRecord(db, CellFrom(m, db, it, pos, attempt).trail, j)))
    ensures j <= 2 ==> OnRecord(db, CellFrom(m, db, it, pos, attempt).trail, j) == OpenedDb(m, db, it, pos)
  {
    hide CellFrom, InCell, OpenedDb;
    var trail := CellFrom(m, db, it, pos, attempt).trail;
    var begun := OpenedDb(m, db, it, pos);
    CellOpens(m, db, it, pos, attempt);
    CellInCell(m, db, it, pos, attempt);
    assert trail[..j] == [Commit(begun)] + trail[1..j];
    LastCommitJoin(db, [Commit(begun)], trail[1..j]);
    assert LastCommit(db, [Commit(begun)]) == begun;
    LastCommitAmong(begun, trail[1..j]);
    assert trail[0] in trail && forall e :: e in trail[1..j] ==> e in trail;
    if j == 2 {
      assert trail[1..j] == [trail[1]];
      assert [trail[1]][..0] == [];
    }
  }

  // ----- locating an event -----------------------------------------------------------------------------

  lemma RecordHere(m: Machine, db: Db, script: seq<Attempt>, events: seq<Event>, base: nat, at: Place, seg: seq<Event>, rest: seq<Event>, k: nat)
    requires Reached(m, db, script, events, base, at) && events[base..] == seg + rest && base <= k <= base + |seg|
    ensures k <= |events| && OnRecord(db, events, k) == OnRecord(at.db, seg, k - base)
    ensures k < base + |seg| ==> k < |events| && events[k] == seg[k - base]
    ensures |events| == base + |seg| + |rest|
  {
    hide From;
    assert |events| == base + |seg| + |rest|;
    assert events[..k] == events[..base] + seg[..k - base] by {
      forall x | base <= x < k ensures events[x] == seg[x - base] {
        assert events[base..][x - base] == (seg + rest)[x - base];
      }
    }
    LastCommitJoin(db, events[..base], seg[..k - base]);
    if k < base + |seg| {
      assert events[base..][k - base] == (seg + rest)[k - base];
    }
  }

  /** Event `k` of a dispatch, where it comes from and what is committed before it. */
  lemma Locate(life: Life, db: Db, script: seq<Attempt>, k: nat)
    returns (base: nat, at: Place, fi: nat, fp: nat, rest: seq<Event>)
    requires Holds(life, db) && 2 <= k < |Trace(PlanFor(life), db, script)|
    ensures Dispatched(life, db, script, base, at, fi, fp)
    ensures var plan := PlanFor(life);
      var m, events, attempt := MachineOf(plan, db), Trace(plan, db, script), NextAttempt(Drop(script, at.calls));
      var seg, onward := Segment(m, at.db, at.it, at.pos, attempt), Onward(m, at, attempt);
      && base <= k < base + |seg| && events[k] == seg[k - base] && |events| == base + |seg| + |rest|
      && OnRecord(db, events, k) == OnRecord(at.db, seg, k - base)
      && rest == (if onward.None? then []
                  else From(m, onward.value.db, onward.value.it, onward.value.pos, Drop(script, onward.value.calls)))
      && events[base..] == seg + rest
  {
    hide Stands, From, Segment, CellFrom, CapReached, IterationEndDb, Trace, Halts, MachineOf, OnRecord;
    base, at, fi, fp := TraceSegment(life, db, script, k);
    SegmentSplits(life, db, script, base, at, fi, fp);
    var plan := PlanFor(life);
    var m := MachineOf(plan, db);
    var onward := Onward(m, at, NextAttempt(Drop(script, at.calls)));
    rest := if onward.None? then [] else From(m, onward.value.db, onward.value.it, onward.value.pos, Drop(script, onward.value.calls));
    RecordHere(m, db, script, Trace(plan, db, script), base, at,
               Segment(m, at.db, at.it, at.pos, NextAttempt(Drop(script, at.calls))), rest, k);
  }

  /** What the place says about the rows. */
  lemma PlaceTells(life: Life, m: Machine, start: Context, at: Place, fi: nat, fp: nat)
    requires Stands(life, m, start, at, fi, fp) && Halts(m, at)
    ensures m.plan == PlanFor(life) && at.db.status == Running && fi <= m.plan.iterations && at.pos <= |m.plan.steps|
    ensures forall r :: r in at.db.work.rows ==> r.status == RowSucceeded
    ensures at.it < m.plan.iterations && at.pos < |m.plan.steps| ==> (fi, fp) == (at.it, at.pos)
    ensures forall it: nat, pos: nat ::
      SucceededAt(at.db.work.rows, it, pos) <==> pos < |m.plan.steps| && Before((it, pos), (fi, fp))
  {
    hide Reference, Matches, Spend, SucceededAt, Ordered;
    StandsLocated(life, m, start, at, fi, fp);
    MatchesSome(m.plan, at.db.work, fi, fp);
    ReferenceOrdered(m.plan, fi, fp);
    RunTheorems.OrderedSucceeded(m.plan, at.db.work.rows, fi, fp);
    forall it: nat, pos: nat ensures
      SucceededAt(at.db.work.rows, it, pos) <==> pos < |m.plan.steps| && Before((it, pos), (fi, fp))
    {
      ReferenceCells(m.plan, fi, fp, it, pos);
    }
  }

  // ----- the cap ------------------------------------------------------------------------------------------

  lemma ChargedOpen(rows: seq<Row>, row: Row)
    requires row.status != RowSucceeded
    ensures Charged(rows + [row]) == Charged(rows)
  {
    assert (rows + [row])[..|rows|] == rows;
  }

  ghost predicate CapKept(plan: Plan, cap: nat, was: Db, e: Event, last: bool) {
    && (e.Called? || OpensRow(was, e) ==> cap == 0 || Charged(was.work.rows) < cap)
    && (CostPause(e) ==> last && 0 < cap <= Charged(was.work.rows) && e.db.work == was.work && !Complete(plan, was.work.rows))
  }

  lemma CellKeepsCap(m: Machine, db: Db, it: nat, pos: nat, attempt: Attempt, j: nat, last: bool)
    requires pos < |m.plan.steps| && db.status == Running && j < |CellFrom(m, db, it, pos, attempt).trail|
    requires m.budget == 0 || Charged(db.work.rows) < m.budget
    ensures var trail := CellFrom(m, db, it, pos, attempt).trail;
      CapKept(m.plan, m.budget, OnRecord(db, trail, j), trail[j], last)
  {
    hide CellFrom, Charged, Complete;
    var trail := CellFrom(m, db, it, pos, attempt).trail;
    CellOpens(m, db, it, pos, attempt);
    CellInCell(m, db, it, pos, attempt);
    assert trail[j] in trail;
    if j > 0 {
      WithinCell(m, db, it, pos, attempt, j);
      ChargedOpen(db.work.rows, OpenRow(m.plan, it, pos));
    }
  }

  lemma SegmentKeepsCap(life: Life, db: Db, script: seq<Attempt>, k: nat)
    requires Holds(life, db) && 2 <= k < |Trace(PlanFor(life), db, script)|
    ensures var plan, events := PlanFor(life), Trace(PlanFor(life), db, script);
      CapKept(plan, MachineOf(plan, db).budget, OnRecord(db, events, k), events[k], k == |events| - 1)
  {
    hide Stands, From, CellFrom, CapKept, Spend, Halts, Reached, MachineOf, Trace, IterationEndDb, SucceededDb, PausedDb;
    var plan := PlanFor(life);
    var m, events := MachineOf(plan, db), Trace(plan, db, script);
    MachineFresh(plan, db);
    var base, at, fi, fp, rest := Locate(life, db, script, k);
    var attempt := NextAttempt(Drop(script, at.calls));
    PlaceTells(life, m, db.ctx, at, fi, fp);
    SpendIsCharged(at.db.work.rows);
    if at.it < plan.iterations && at.pos < |plan.steps| && !CapReached(m, at.db.work.rows) {
      CellKeepsCap(m, at.db, at.it, at.pos, attempt, k - base, k == |events| - 1);
    } else {
      SingleKeepsCap(m, at, attempt, |rest| == 0);
      assert OnRecord(at.db, Segment(m, at.db, at.it, at.pos, attempt), 0) == at.db;
    }
  }

  lemma BudgetInForce(life: Life, db: Db)
    ensures MachineOf(PlanFor(life), db).budget == InForce(db.ctx.budget, life.workflow.defaultBudget)
  {}

  /** No handler is called and no row opened while the succeeded rows report the cap or more; a pause for
      cost is the last event, with a cell still to do, at exactly such a moment. */
  lemma CapHolds(life: Life, acts: seq<Act>, script: seq<Attempt>, k: nat)
    requires k < |Trace(PlanFor(life), After(life, acts), script)|
    ensures var db, plan := After(life, acts), PlanFor(life);
      var events := Trace(plan, db, script);
      CapKept(plan, InForce(db.ctx.budget, life.workflow.defaultBudget), OnRecord(db, events, k), events[k], k == |events| - 1)
  {
    hide Trace, Complete, Charged, After, MachineOf, OnRecord;
    ReachableHolds(life, acts);
    BudgetInForce(life, After(life, acts));
    if k < 2 {
      OpeningKeepsRows(life, After(life, acts), script, k);
    } else {
      SegmentKeepsCap(life, After(life, acts), script, k);
    }
  }

  lemma OpeningKeepsRows(life: Life, db: Db, script: seq<Attempt>, k: nat)
    requires Holds(life, db) && k < 2
    ensures var events := Trace(PlanFor(life), db, script);
      |events| >= 2 && events[k].Commit? && !OpensRow(OnRecord(db, events, k), events[k]) && events[k].db.status == Running
  {
    hide From, Reference;
    var fi, fp :| HoldsAt(life, db, fi, fp);
    ReplayKeepsFinished(life, db, fi, fp);
    MatchesSome(PlanFor(life), db.work, fi, fp);
    var events := Trace(PlanFor(life), db, script);
    assert k == 1 ==> events[..1] == [Commit(StartedDb(db))];
  }

  lemma SingleKeepsCap(m: Machine, at: Place, attempt: Attempt, last: bool)
    requires at.pos <= |m.plan.steps| && at.db.status == Running && Halts(m, at)
    requires at.it >= m.plan.iterations || at.pos == |m.plan.steps| || (CapReached(m, at.db.work.rows) && last)
    requires Spend(at.db.work.rows) == Charged(at.db.work.rows)
    ensures var seg := Segment(m, at.db, at.it, at.pos, attempt);
      |seg| == 1 && CapKept(m.plan, m.budget, at.db, seg[0], last)
  {
    hide CellFrom, Spend, Charged;
  }

  /** From a place where the succeeded rows report the cap or more and a cell is still to do, nothing is
      called and the dispatch pauses for cost. */
  lemma {:induction false} CapPauses(life: Life, m: Machine, start: Context, at: Place, script: seq<Attempt>, fi: nat, fp: nat)
    requires Stands(life, m, start, at, fi, fp)
    requires CapReached(m, at.db.work.rows) && !Complete(m.plan, at.db.work.rows)
    ensures PausesNow(at.db, From(m, at.db, at.it, at.pos, script))
    decreases m.plan.iterations - at.it, |m.plan.steps| - at.pos
  {
    hide Stands, SucceededAt, CellFrom, Reference, From, Complete, CapReached, PausesNow, IterationEndDb, PausedDb;
    StandsLocated(life, m, start, at, fi, fp);
    ToDo(life, m, start, at, fi, fp);
    CapIs(m, at.db.work.rows);
    if at.pos == |m.plan.steps| {
      var ended := IterationEndDb(m, at.db, at.it);
      var next := Place(ended, at.it + 1, 0, at.calls);
      var gi, gp := OnwardStands(life, m, start, at, NextAttempt(script), fi, fp);
      EndedRows(m, at.db, at.it);
      CapPauses(life, m, start, next, script, gi, gp);
      RunExecutor.UnfoldEnd(m, at.db, at.it, script);
      PausesLater(at.db, ended, From(m, ended, at.it + 1, 0, script));
    } else {
      RunExecutor.Unfold(m, at.db, at.it, at.pos, script);
      if SucceededAt(at.db.work.rows, at.it, at.pos) {
        CapPauses(life, m, start, at.(pos := at.pos + 1), script, fi, fp);
      } else {
        PausesHere(m, at.db, at.it);
      }
    }
  }

  /** Nothing is called, and the last event pauses for cost with the rows as they are. */
  predicate PausesNow(db: Db, events: seq<Event>) {
    && (forall e :: e in events ==> !e.Called?)
    && events != [] && CostPause(events[|events| - 1]) && events[|events| - 1].db.work.rows == db.work.rows
  }

  lemma PausesLater(db: Db, next: Db, events: seq<Event>)
    requires PausesNow(next, events) && next.work.rows == db.work.rows
    ensures PausesNow(db, [Commit(next)] + events)
  {}

  lemma PausesHere(m: Machine, db: Db, it: nat)
    ensures PausesNow(db, [Commit(PausedDb(m, db, Cost, it))])
  {}

  lemma EndedRows(m: Machine, db: Db, it: nat)
    ensures IterationEndDb(m, db, it).work.rows == db.work.rows
  {}

  lemma CapIs(m: Machine, rows: seq<Row>)
    ensures CapReached(m, rows) <==> m.budget != 0 && Spend(rows) >= m.budget
  {}

  lemma ToDo(life: Life, m: Machine, start: Context, at: Place, fi: nat, fp: nat)
    requires Stands(life, m, start, at, fi, fp) && !Complete(m.plan, at.db.work.rows)
    ensures at.it < m.plan.iterations && at.pos <= |m.plan.steps|
    ensures at.pos == |m.plan.steps| ==> Halts(m, at) && Onward(m, at, Attempt([], Dies)) == Some(Place(IterationEndDb(m, at.db, at.it), at.it + 1, 0, at.calls))
  {
    hide Reference, SucceededAt, IterationEndDb, CellFrom, Spend;
    MatchesSome(m.plan, at.db.work, fi, fp);
    StandsLocated(life, m, start, at, fi, fp);
    if at.it >= m.plan.iterations {
      forall it: nat, pos: nat | it < m.plan.iterations && pos < |m.plan.steps| ensures SucceededAt(at.db.work.rows, it, pos) {
        ReferenceCells(m.plan, fi, fp, it, pos);
      }
    }
  }

  lemma PausesFirst(life: Life, db: Db, script: seq<Attempt>)
    requires Holds(life, db)
    requires CapReached(MachineOf(PlanFor(life), db), ReplayedDb(PlanFor(life), db).work.rows)
    requires !Complete(PlanFor(life), ReplayedDb(PlanFor(life), db).work.rows)
    ensures var events := Trace(PlanFor(life), db, script);
      |events| >= 2 && events[1] == Commit(ReplayedDb(PlanFor(life), db)) && PausesNow(ReplayedDb(PlanFor(life), db), events[2..])
  {
    hide Stands, From, Complete, PausesNow, CapReached, MachineOf;
    var plan := PlanFor(life);
    var m, replayed := MachineOf(plan, db), ReplayedDb(plan, db);
    var gi, gp :| HoldsAt(life, db, gi, gp);
    BeginWalks(life, db, gi, gp);
    StandsFirst(life, m, db, gi, gp);
    CapPauses(life, m, db.ctx, Place(replayed, 0, 0, 0), script, gi, gp);
    assert Trace(plan, db, script)[2..] == From(m, replayed, 0, 0, script);
  }

  lemma PausesAmid(life: Life, db: Db, script: seq<Attempt>, k: nat)
    requires Holds(life, db) && 2 <= k < |Trace(PlanFor(life), db, script)|
    requires var e := Trace(PlanFor(life), db, script)[k];
      && e.Commit? && e.db.status == Running && !Complete(PlanFor(life), e.db.work.rows)
      && (forall r :: r in e.db.work.rows ==> r.status == RowSucceeded)
      && CapReached(MachineOf(PlanFor(life), db), e.db.work.rows)
    ensures var events := Trace(PlanFor(life), db, script); PausesNow(events[k].db, events[k + 1..])
  {
    hide Stands, Complete, PausesNow, CapReached, MachineOf, Trace, From, Segment, Halts, Onward;
    var plan := PlanFor(life);
    var m, events := MachineOf(plan, db), Trace(plan, db, script);
    var base, at, fi, fp, rest := Locate(life, db, script, k);
    var attempt := NextAttempt(Drop(script, at.calls));
    PlaceTells(life, m, db.ctx, at, fi, fp);
    AllDoneSegment(life, m, db.ctx, at, attempt, fi, fp, k - base);
    var next := Onward(m, at, attempt).value;
    var gi, gp := OnwardStands(life, m, db.ctx, at, attempt, fi, fp);
    CapPauses(life, m, db.ctx, next, Drop(script, next.calls), gi, gp);
    assert events[k + 1..] == events[base..][k + 1 - base..] == rest;
  }

  /** Whenever a dispatch has committed rows that have all succeeded, report the cap or more, and leave a
      cell to do, it calls no handler any more and its last commit is a pause for cost on those rows. */
  lemma PausesAtCap(life: Life, acts: seq<Act>, script: seq<Attempt>, k: nat)
    requires 1 <= k < |Trace(PlanFor(life), After(life, acts), script)|
    requires var e := Trace(PlanFor(life), After(life, acts), script)[k];
      && e.Commit? && e.db.status == Running && !Complete(PlanFor(life), e.db.work.rows)
      && (forall r :: r in e.db.work.rows ==> r.status == RowSucceeded)
      && 0 < InForce(After(life, acts).ctx.budget, life.workflow.defaultBudget) <= Charged(e.db.work.rows)
    ensures var events := Trace(PlanFor(life), After(life, acts), script);
      PausesNow(events[k].db, events[k + 1..])
  {
    hide Trace, Complete, Charged, After, PausesNow, CapReached, Spend, Retried, PriorOutputs;
    var db, plan := After(life, acts), PlanFor(life);
    var events := Trace(plan, db, script);
    ReachableHolds(life, acts);
    SpendIsCharged(events[k].db.work.rows);
    CapIs(MachineOf(plan, db), events[k].db.work.rows);
    if k == 1 {
      TraceOpens(plan, db, script);
      PausesFirst(life, db, script);
    } else {
      PausesAmid(life, db, script, k);
    }
  }

  lemma TraceOpens(plan: Plan, db: Db, script: seq<Attempt>)
    ensures var events := Trace(plan, db, script);
      |events| >= 2 && events[0] == Commit(StartedDb(db)) && events[1] == Commit(ReplayedDb(plan, db))
  {
    hide From;
  }

  /** A running commit with no open row is the last of its segment, and the dispatch goes on from it. */
  lemma AllDoneSegment(life: Life, m: Machine, start: Context, at: Place, attempt: Attempt, fi: nat, fp: nat, j: nat)
    requires Stands(life, m, start, at, fi, fp) && Halts(m, at) && j < |Segment(m, at.db, at.it, at.pos, attempt)|
    requires var e := Segment(m, at.db, at.it, at.pos, attempt)[j];
      e.Commit? && e.db.status == Running && forall r :: r in e.db.work.rows ==> r.status == RowSucceeded
    ensures var seg, onward := Segment(m, at.db, at.it, at.pos, attempt), Onward(m, at, attempt);
      j == |seg| - 1 && onward.Some? && onward.value.db == seg[j].db
  {
    hide Stands, Halts, CellFrom, Spend, IterationEndDb;
    PlaceTells(life, m, start, at, fi, fp);
    if at.it < m.plan.iterations && at.pos < |m.plan.steps| && !CapReached(m, at.db.work.rows) {
      AllDoneCell(m, at.db, at.it, at.pos, attempt, j);
    }
  }

  /** The last row has not succeeded. */
  predicate Open(e: Event) {
    e.Commit? ==> e.db.work.rows != [] && e.db.work.rows[|e.db.work.rows| - 1].status != RowSucceeded
  }

  lemma {:induction false} SavesOpen(begun: Db, saves: seq<Output>)
    requires Open(Commit(begun)) && begun.work.rows != []
    ensures forall e :: e in SaveTrail(begun, saves) ==> Open(e)
    decreases |saves|
  {
    if saves != [] {
      SavesOpen(begun.(work := Checkpointed(begun.work, saves[0])), saves[1..]);
    }
  }

  lemma EndingOpen(m: Machine, saved: Db, it: nat, result: StepResult, ending: Ending)
    requires saved.work.rows != []
    ensures var rest := EndingFrom(m, saved, it, result, ending);
      if rest.next.None? then forall e :: e in rest.trail ==> Open(e) else rest.trail == [Commit(rest.next.value)]
  {
    hide Resolved, Absorbed, Settled;
  }

  lemma AllDoneCell(m: Machine, db: Db, it: nat, pos: nat, attempt: Attempt, j: nat)
    requires pos < |m.plan.steps| && j < |CellFrom(m, db, it, pos, attempt).trail|
    requires var e := CellFrom(m, db, it, pos, attempt).trail[j];
      e.Commit? && forall r :: r in e.db.work.rows ==> r.status == RowSucceeded
    ensures var cell := CellFrom(m, db, it, pos, attempt);
      j == |cell.trail| - 1 && cell.next.Some? && cell.next.value == cell.trail[j].db
  {
    hide ResultAt, CallAt, SaveTrail, EndingFrom, Absorbed;
    var begun := OpenedDb(m, db, it, pos);
    var saved := begun.(work := AfterSaves(begun.work, attempt.saves));
    var front := [Commit(begun), Called(CallAt(m, db.work.rows, it, pos))] + SaveTrail(begun, attempt.saves);
    var rest := EndingFrom(m, saved, it, ResultAt(m.plan, db.work.rows, it, pos), attempt.ending);
    var trail := front + rest.trail;
    SavesOpen(begun, attempt.saves);
    EndingOpen(m, saved, it, ResultAt(m.plan, db.work.rows, it, pos), attempt.ending);
    assert trail == CellFrom(m, db, it, pos, attempt).trail;
    assert trail[j] in front || trail[j] in rest.trail;
    assert !Open(trail[j]);
  }

  // ----- handler calls --------------------------------------------------------------------------------------

  /** A row left by an attempt that did not succeed. */
  predicate StoppedRow(rows: seq<Row>, r: Row, it: nat, pos: nat) {
    r in rows && r.status != RowSucceeded && r.iteration == it && r.position == pos
  }

  /** A second attempt exactly if the dispatch found the cell's row unfinished, with what that row held. */
  ghost predicate AttemptTells(found: seq<Row>, c: Call) {
    && c.attempt == (if exists r :: StoppedRow(found, r, c.iteration, c.position) then 2 else 1)
    && if c.prior.Some? then
         c.prior.value != map[] && exists r :: StoppedRow(found, r, c.iteration, c.position) && r.output == c.prior.value
       else forall r :: StoppedRow(found, r, c.iteration, c.position) ==> r.output == map[]
  }

  /** The call is for the open row, the last; all before it have succeeded and are the cells before its own;
      it is given what they left. */
  ghost predicate CallGiven(plan: Plan, rows: seq<Row>, c: Call) {
    && rows != [] && c.iteration < plan.iterations && c.position < |plan.steps|
    && var open, done := rows[|rows| - 1], rows[..|rows| - 1];
    && var step := plan.steps[c.position];
    && open == Row(c.iteration, c.position, step.handler, step.name, step.config, RowRunning, map[], None)
    && (forall r :: r in done ==> r.status == RowSucceeded)
    && (forall it: nat, pos: nat ::
          SucceededAt(done, it, pos) <==> pos < |plan.steps| && (it < c.iteration || (it == c.iteration && pos < c.position)))
    && Given(done, c.iteration, c.outputs, c.history)
  }

  lemma CallAttempt(plan: Plan, db: Db, rows: seq<Row>, it: nat, pos: nat)
    requires RowsOk(plan, db.work.rows)
    ensures AttemptTells(db.work.rows, CallAt(MachineOf(plan, db), rows, it, pos))
  {
    hide OutputsOf, HistoryOf, PriorOutputs, Kept, Spend;
    var found, c := db.work.rows, CallAt(MachineOf(plan, db), rows, it, pos);
    forall r | StoppedRow(found, r, it, pos)
      ensures (it, pos) in Retried(found, plan.iterations)
      ensures r.output != map[] ==> (it, pos) in PriorOutputs(found, plan.iterations) && PriorOutputs(found, plan.iterations)[(it, pos)] == r.output
    {
      assert Unfinished(r, plan.iterations) && Cell(r) == (it, pos);
      if r.output != map[] {
        RunExecutor.PriorOfRow(plan, found, plan.iterations, r);
      }
    }
    if (it, pos) in Retried(found, plan.iterations) {
      var r :| r in found && Unfinished(r, plan.iterations) && Cell(r) == (it, pos);
      assert StoppedRow(found, r, it, pos);
    }
    if (it, pos) in PriorOutputs(found, plan.iterations) {
      var r := RunExecutor.RowOfPrior(found, plan.iterations, (it, pos));
      assert StoppedRow(found, r, it, pos);
    }
  }

  lemma CallOpen(life: Life, m: Machine, start: Context, at: Place, fi: nat, fp: nat)
    requires Stands(life, m, start, at, fi, fp) && Halts(m, at) && at.it < m.plan.iterations && at.pos < |m.plan.steps|
    ensures CallGiven(m.plan, OpenedDb(m, at.db, at.it, at.pos).work.rows, CallAt(m, at.db.work.rows, at.it, at.pos))
  {
    hide Stands, Given, OutputsOf, HistoryOf, SucceededAt;
    PlaceTells(life, m, start, at, fi, fp);
    GivenHere(at.db.work.rows, at.it);
    var rows := OpenedDb(m, at.db, at.it, at.pos).work.rows;
    assert rows[..|rows| - 1] == at.db.work.rows;
  }

  /** Where a call is made: the second event of a cell. */
  lemma LocateCall(life: Life, db: Db, script: seq<Attempt>, k: nat)
    returns (base: nat, at: Place, fi: nat, fp: nat, rest: seq<Event>)
    requires Holds(life, db) && k < |Trace(PlanFor(life), db, script)| && Trace(PlanFor(life), db, script)[k].Called?
    ensures Dispatched(life, db, script, base, at, fi, fp) && k == base + 1
    ensures var plan := PlanFor(life);
      var m, events, attempt := MachineOf(plan, db), Trace(plan, db, script), NextAttempt(Drop(script, at.calls));
      && at.it < plan.iterations && at.pos < |plan.steps| && !CapReached(m, at.db.work.rows)
      && var cell := CellFrom(m, at.db, at.it, at.pos, attempt);
      && events[base..] == cell.trail + rest && (cell.next.None? ==> rest == [])
      && events[k] == Called(CallAt(m, at.db.work.rows, at.it, at.pos))
      && OnRecord(db, events, k) == OpenedDb(m, at.db, at.it, at.pos)
      && CallCount(events[..k]) == at.calls
  {
    hide Stands, From, CellFrom, CapReached, Halts, Reached, MachineOf, Trace, OpenedDb, CallAt, IterationEndDb, SucceededDb, PausedDb;
    var plan := PlanFor(life);
    var m, events := MachineOf(plan, db), Trace(plan, db, script);
    TraceOpens(plan, db, script);
    base, at, fi, fp, rest := Locate(life, db, script, k);
    var attempt := NextAttempt(Drop(script, at.calls));
    PlaceTells(life, m, db.ctx, at, fi, fp);
    CellOpens(m, at.db, at.it, at.pos, attempt);
    WithinCell(m, at.db, at.it, at.pos, attempt, 1);
    CallsBefore(m, db, script, events, base, at);
  }

  lemma CallsBefore(m: Machine, db: Db, script: seq<Attempt>, events: seq<Event>, base: nat, at: Place)
    requires Reached(m, db, script, events, base, at) && base < |events| && events[base..][0].Commit?
    ensures CallCount(events[..base + 1]) == at.calls
  {
    hide From;
    assert events[..base + 1][..base] == events[..base] && events[..base + 1][base] == events[base..][0];
  }

  /** Every handler call of every dispatch from every reachable state: for the first cell to do, with its
      row open, given exactly what the succeeded rows before it left, and told of an earlier attempt
      exactly if the dispatch found one. */
  lemma CallGets(life: Life, acts: seq<Act>, script: seq<Attempt>, k: nat)
    requires k < |Trace(PlanFor(life), After(life, acts), script)| && Trace(PlanFor(life), After(life, acts), script)[k].Called?
    ensures var db, plan := After(life, acts), PlanFor(life);
      var events := Trace(plan, db, script);
      && CallGiven(plan, OnRecord(db, events, k).work.rows, events[k].call)
      && AttemptTells(db.work.rows, events[k].call)
  {
    hide Stands, Trace, CallGiven, AttemptTells, CallAt, OpenedDb, CellFrom, MachineOf, Halts, After, CapReached, Reached, RowsOk;
    var db, plan := After(life, acts), PlanFor(life);
    ReachableHolds(life, acts);
    RunTheorems.ReachableRowsOk(life, acts);
    var base, at, fi, fp, rest := LocateCall(life, db, script, k);
    PlaceTells(life, MachineOf(plan, db), db.ctx, at, fi, fp);
    CallOpen(life, MachineOf(plan, db), db.ctx, at, fi, fp);
    CallAttempt(plan, db, at.db.work.rows, at.it, at.pos);
  }

  // ----- what follows a call ----------------------------------------------------------------------------------

  /** The open row's output with a checkpoint's keys put over it, and nothing else. */
  ghost predicate Merges(a: Db, b: Db, saved: Output) {
    && a.work.rows != [] && |b.work.rows| == |a.work.rows|
    && var n := |a.work.rows| - 1;
    && b == a.(work := a.work.(rows := b.work.rows)) && b.work.rows[..n] == a.work.rows[..n]
    && b.work.rows[n] == a.work.rows[n].(output := b.work.rows[n].output)
    && var before, after := a.work.rows[n].output, b.work.rows[n].output;
    && after.Keys == before.Keys + saved.Keys
    && forall key :: key in after ==> after[key] == if key in saved then saved[key] else before[key]
  }

  /** The events commit the checkpoints one after the other. */
  ghost predicate Checkpoints(db: Db, events: seq<Event>, saves: seq<Output>)
    decreases |saves|
  {
    if saves == [] then events == []
    else
      && events != [] && events[0].Commit?
      && Merges(db, events[0].db, saves[0]) && Checkpoints(events[0].db, events[1..], saves[1..])
  }

  function LastOf(db: Db, events: seq<Event>): Db {
    if events != [] && events[|events| - 1].Commit? then events[|events| - 1].db else db
  }

  lemma {:induction false} SavesCheckpoint(db: Db, saves: seq<Output>)
    requires db.work.rows != []
    ensures Checkpoints(db, SaveTrail(db, saves), saves)
    ensures LastOf(db, SaveTrail(db, saves)) == db.(work := AfterSaves(db.work, saves))
    decreases |saves|
  {
    if saves != [] {
      var next := db.(work := Checkpointed(db.work, saves[0]));
      SavesCheckpoint(next, saves[1..]);
      CheckpointMerges(db, saves[0]);
      var tail := SaveTrail(next, saves[1..]);
      RunTheorems.SavesCallNothing(next, saves[1..]);
      LastOfMore(db, next, tail);
      assert SaveTrail(db, saves)[1..] == tail;
    }
  }

  lemma LastOfMore(db: Db, next: Db, tail: seq<Event>)
    requires forall e :: e in tail ==> e.Commit?
    ensures LastOf(db, [Commit(next)] + tail) == LastOf(next, tail)
  {
    if tail != [] {
      assert tail[|tail| - 1] in tail;
      assert ([Commit(next)] + tail)[|tail|] == tail[|tail| - 1];
    }
  }

  lemma CheckpointMerges(db: Db, saved: Output)
    requires db.work.rows != []
    ensures Merges(db, db.(work := Checkpointed(db.work, saved)), saved)
  {}

  /** The open row failed with this output; nothing else changes. */
  predicate Fails(a: Db, b: Db, output: Output) {
    && a.work.rows != []
    && var n := |a.work.rows| - 1;
    && b == a.(work := a.work.(rows := a.work.rows[..n] + [a.work.rows[n].(status := RowFailed, output := output)]))
  }

  /** The open row succeeded with what the handler returned on what the rows before it left. */
  ghost predicate Succeeded(plan: Plan, a: Db, b: Db, result: StepResult) {
    && a.work.rows != [] && |b.work.rows| == |a.work.rows|
    && var n := |a.work.rows| - 1;
    && b.work.rows[..n] == a.work.rows[..n] && Cell(b.work.rows[n]) == Cell(a.work.rows[n])
    && Records(plan, b.work.rows[n], result)
    && b.status == a.status && b.ctx == a.ctx
  }

  /** What follows the checkpoints: nothing when the process dies or the prompt cannot be resolved; the
      failed row and then the stop when the handler raises; one commit when it succeeds. */
  ghost predicate EndsAs(plan: Plan, db: Db, events: seq<Event>, result: StepResult, ending: Ending) {
    match ending
    case Dies => events == []
    case Raises(output, resumable) =>
      && |events| == 2 && events[0].Commit? && events[1].Commit?
      && Fails(db, events[0].db, output)
      && events[1].db.work == events[0].db.work
      && events[1].db.status == (if resumable then Paused else Failed)
      && events[1].db.ctx.pausedKind == (if resumable then Some(StepTime) else None)
    case Succeeds =>
      if result.prompt.Some? && forall p :: !Chosen(plan.prompts, result.prompt.value, p) then events == []
      else events != [] && events[0].Commit? && Succeeded(plan, db, events[0].db, result)
  }

  lemma UnresolvedNone(prompts: seq<Prompt>, ref: PromptRef)
    ensures ResolvePrompt(prompts, ref).None? <==> forall p :: !Chosen(prompts, ref, p)
  {
    hide FindPrompt;
    FoundPrompt(prompts, 0, (p: Prompt) => p.slug == ref.slug && p.text == ref.template);
    if ref.version.Some? {
      FoundPrompt(prompts, 0, (p: Prompt) => p.slug == ref.slug && p.version == ref.version.value);
    }
    if ResolvePrompt(prompts, ref).Some? {
      ResolvedChosen(prompts, ref);
    }
  }

  lemma AbsorbedSucceeds(m: Machine, saved: Db, it: nat, pos: nat, result: StepResult)
    requires pos < |m.plan.steps| && saved.work.rows != [] && Resolved(m.plan, result).Some?
    requires saved.work.rows[|saved.work.rows| - 1] == OpenRow(m.plan, it, pos).(output := saved.work.rows[|saved.work.rows| - 1].output)
    ensures Succeeded(m.plan, saved, saved.(work := Absorbed(m.plan, saved.work, it, result, Resolved(m.plan, result).value)), result)
  {
    hide FindPrompt, ResolvePrompt, Touched, WithCandidate, IndexOf, Known;
    if result.prompt.Some? {
      ResolvedChosen(m.plan.prompts, result.prompt.value);
    }
  }

  lemma EndingEnds(m: Machine, saved: Db, it: nat, pos: nat, result: StepResult, ending: Ending, rest: seq<Event>)
    requires pos < |m.plan.steps| && saved.work.rows != [] && m.ctx.pausedKind == None
    requires saved.work.rows[|saved.work.rows| - 1] == OpenRow(m.plan, it, pos).(output := saved.work.rows[|saved.work.rows| - 1].output)
    requires EndingFrom(m, saved, it, result, ending).next.None? ==> rest == []
    ensures EndsAs(m.plan, saved, EndingFrom(m, saved, it, result, ending).trail + rest, result, ending)
  {
    hide Absorbed, Succeeded, Chosen, ResolvePrompt, Spend;
    if ending.Succeeds? {
      if result.prompt.Some? {
        UnresolvedNone(m.plan.prompts, result.prompt.value);
      }
      if Resolved(m.plan, result).Some? {
        AbsorbedSucceeds(m, saved, it, pos, result);
      }
    }
  }

  /** The attempt the environment scripted; past the script the process dies in the handler. */
  function Scripted(script: seq<Attempt>, n: nat): Attempt {
    if n < |script| then script[n] else Attempt([], Dies)
  }

  /** First the checkpoints, then the ending. */
  ghost predicate Follows(plan: Plan, db: Db, events: seq<Event>, result: StepResult, attempt: Attempt) {
    var n := |attempt.saves|;
    && n <= |events| && Checkpoints(db, events[..n], attempt.saves)
    && EndsAs(plan, LastOf(db, events[..n]), events[n..], result, attempt.ending)
  }

  lemma CellFollows(m: Machine, db: Db, it: nat, pos: nat, attempt: Attempt, rest: seq<Event>)
    requires pos < |m.plan.steps| && m.ctx.pausedKind == None
    requires CellFrom(m, db, it, pos, attempt).next.None? ==> rest == []
    ensures var trail := CellFrom(m, db, it, pos, attempt).trail;
      |trail| >= 2 && Follows(m.plan, OpenedDb(m, db, it, pos), (trail + rest)[2..], ResultAt(m.plan, db.work.rows, it, pos), attempt)
  {
    hide ResultAt, CallAt, SaveTrail, EndingFrom, Checkpoints, EndsAs;
    var begun := OpenedDb(m, db, it, pos);
    var saved := begun.(work := AfterSaves(begun.work, attempt.saves));
    var result := ResultAt(m.plan, db.work.rows, it, pos);
    var saves, ending := SaveTrail(begun, attempt.saves), EndingFrom(m, saved, it, result, attempt.ending);
    SavesCheckpoint(begun, attempt.saves);
    CheckpointsLength(begun, saves, attempt.saves);
    EndingEnds(m, saved, it, pos, result, attempt.ending, rest);
    var trail := CellFrom(m, db, it, pos, attempt).trail;
    var after := (trail + rest)[2..];
    assert after == saves + (ending.trail + rest);
    assert after[..|saves|] == saves && after[|saves|..] == ending.trail + rest;
  }

  lemma {:induction false} CheckpointsLength(db: Db, events: seq<Event>, saves: seq<Output>)
    requires Checkpoints(db, events, saves)
    ensures |events| == |saves|
    decreases |saves|
  {
    if saves != [] {
      CheckpointsLength(events[0].db, events[1..], saves[1..]);
    }
  }

  /** The handler returned something on what the rows before the open one left, and what follows goes as
      the attempt says. */
  ghost predicate Goes(plan: Plan, db: Db, events: seq<Event>, attempt: Attempt) {
    exists result :: ReturnedLast(plan, db.work.rows, result) && Follows(plan, db, events, result, attempt)
  }

  ghost predicate ReturnedLast(plan: Plan, rows: seq<Row>, result: StepResult) {
    rows != [] && Returned(plan, rows, |rows| - 1, result)
  }

  lemma ResultReturned(m: Machine, db: Db, it: nat, pos: nat)
    requires pos < |m.plan.steps|
    ensures var rows := OpenedDb(m, db, it, pos).work.rows;
      ReturnedLast(m.plan, rows, ResultAt(m.plan, db.work.rows, it, pos))
  {
    hide Given, OutputsOf, HistoryOf;
    GivenHere(db.work.rows, it);
    var rows := OpenedDb(m, db, it, pos).work.rows;
    assert rows[..|rows| - 1] == db.work.rows;
  }

  /** The `n`-th call of a dispatch goes as the `n`-th attempt says: its checkpoints are committed one by
      one, and then the process is gone, or the row fails with the handler's output and the run pauses or
      fails, or the row succeeds with what the handler returned, or the dispatch ends there because no
      registered prompt is the one the handler used. */
  lemma CallsFollowed(life: Life, acts: seq<Act>, script: seq<Attempt>, k: nat)
    requires k < |Trace(PlanFor(life), After(life, acts), script)| && Trace(PlanFor(life), After(life, acts), script)[k].Called?
    ensures var db, plan := After(life, acts), PlanFor(life);
      var events := Trace(plan, db, script);
      Goes(plan, OnRecord(db, events, k), events[k + 1..], Scripted(script, CallCount(events[..k])))
  {
    hide Stands, Trace, ReturnedLast, Follows, CallAt, OpenedDb, CellFrom, Halts, After, CapReached, Reached, OnRecord, MachineOf;
    var db, plan := After(life, acts), PlanFor(life);
    var m, events := MachineOf(plan, db), Trace(plan, db, script);
    ReachableHolds(life, acts);
    var base, at, fi, fp, rest := LocateCall(life, db, script, k);
    var attempt := NextAttempt(Drop(script, at.calls));
    MachineFresh(plan, db);
    CellFollows(m, at.db, at.it, at.pos, attempt, rest);
    ResultReturned(m, at.db, at.it, at.pos);
    assert events[k + 1..] == events[base..][2..];
  }

  lemma MachineFresh(plan: Plan, db: Db)
    ensures MachineOf(plan, db).plan == plan && MachineOf(plan, db).ctx == db.ctx.(pausedKind := None)
  {}

  // ----- what is committed beside the rows ---------------------------------------------------------------------

  /** The context says what was spent and what is in force, and keeps the rest. */
  ghost predicate Settles(life: Life, start: Context, db: Db) {
    && db.ctx.iterations == PlanFor(life).iterations && db.ctx.agentOverride == start.agentOverride
    && db.ctx.budget == Some(InForce(start.budget, life.workflow.defaultBudget))
    && db.ctx.timeout == Some(InForce(start.timeout, life.workflow.defaultTimeout))
    && db.ctx.spent == Some(Charged(db.work.rows))
  }

  /** Every cell of the first `n` iterations has succeeded. */
  ghost predicate DoneThrough(plan: Plan, rows: seq<Row>, n: nat) {
    forall it: nat, pos: nat :: it < n && pos < |plan.steps| ==> SucceededAt(rows, it, pos)
  }

  /** The first cell to do is in iteration `it`. */
  ghost predicate StoppedIn(plan: Plan, rows: seq<Row>, it: nat) {
    && it < plan.iterations && DoneThrough(plan, rows, it)
    && exists pos: nat :: pos < |plan.steps| && !SucceededAt(rows, it, pos)
  }

  /** An iteration ended: the context is settled, its candidate and no other is marked evaluated. */
  ghost predicate EndsIteration(life: Life, start: Context, was: Db, next: Db) {
    && Settles(life, start, next) && next.ctx.pausedKind == None
    && next.ctx.iterationsDone.Some? && next.ctx.iterationsDone.value > 0
    && var it := next.ctx.iterationsDone.value - 1;
    && it < PlanFor(life).iterations && DoneThrough(PlanFor(life), next.work.rows, it + 1)
    && next.work == was.work.(candidates := next.work.candidates) && next.status == was.status
    && |next.work.candidates| == |was.work.candidates|
    && forall i :: 0 <= i < |was.work.candidates| ==>
         var c := was.work.candidates[i];
         next.work.candidates[i] == if c.iteration == it then c.(evaluated := true) else c
  }

  /** What a commit says beside its rows, by its status. */
  ghost predicate CommitTells(life: Life, start: Context, was: Db, next: Db) {
    var plan := PlanFor(life);
    match next.status
    case Running => next.ctx == was.ctx || EndsIteration(life, start, was, next)
    case Paused =>
      && Settles(life, start, next) && next.ctx.pausedKind.Some?
      && next.ctx.iterationsDone.Some? && StoppedIn(plan, next.work.rows, next.ctx.iterationsDone.value)
    case Failed =>
      Settles(life, start, next) && next.ctx.pausedKind == None && next.ctx.iterationsDone == start.iterationsDone
    case Succeeded =>
      && Complete(plan, next.work.rows) && next.work == was.work
      && next.ctx.budget == Some(InForce(start.budget, life.workflow.defaultBudget))
      && next.ctx.timeout == Some(InForce(start.timeout, life.workflow.defaultTimeout))
      && next.ctx.spent == Some(Charged(next.work.rows))
      && (plan.iterations > 0 ==>
            Settles(life, start, next) && next.ctx.pausedKind == None && next.ctx.iterationsDone == Some(plan.iterations))
    case _ => false
  }

  lemma SettledSettles(life: Life, db: Db, work: Work, ctx: Context)
    requires ctx == Settled(MachineOf(PlanFor(life), db), work.rows).(iterationsDone := ctx.iterationsDone, pausedKind := ctx.pausedKind)
    ensures forall status :: Settles(life, db.ctx, Db(status, ctx, work))
  {
    SpendIsCharged(work.rows);
  }

  lemma MarkedOnly(candidates: seq<Candidate>, it: nat)
    requires forall i, j :: 0 <= i < j < |candidates| ==> candidates[i].iteration != candidates[j].iteration
    ensures var marked := MarkEvaluated(candidates, it);
      && |marked| == |candidates|
      && forall i :: 0 <= i < |candidates| ==>
           marked[i] == if candidates[i].iteration == it then candidates[i].(evaluated := true) else candidates[i]
  {
    var i := IndexOf(candidates, it);
  }

  lemma StandsCandidates(life: Life, m: Machine, start: Context, at: Place, fi: nat, fp: nat)
    requires Stands(life, m, start, at, fi, fp)
    ensures forall i, j :: 0 <= i < j < |at.db.work.candidates| ==> at.db.work.candidates[i].iteration != at.db.work.candidates[j].iteration
  {
    MatchesSome(m.plan, at.db.work, fi, fp);
    ReferenceCandidates(m.plan, fi, fp);
    BareDistinct(at.db.work.candidates);
  }

  lemma EndTells(life: Life, db: Db, at: Place, fi: nat, fp: nat)
    requires var m := MachineOf(PlanFor(life), db);
      && Stands(life, m, db.ctx, at, fi, fp) && Halts(m, at)
      && at.it < m.plan.iterations && at.pos == |m.plan.steps|
    ensures CommitTells(life, db.ctx, at.db, IterationEndDb(MachineOf(PlanFor(life), db), at.db, at.it))
  {
    hide Stands, SucceededAt, MarkEvaluated, Settles, MachineOf, Charged;
    var m := MachineOf(PlanFor(life), db);
    var next := IterationEndDb(m, at.db, at.it);
    MachineFresh(PlanFor(life), db);
    PlaceTells(life, m, db.ctx, at, fi, fp);
    StandsCandidates(life, m, db.ctx, at, fi, fp);
    NotBefore(life, m, db.ctx, at, fi, fp);
    MarkedOnly(at.db.work.candidates, at.it);
    SettledSettles(life, db, next.work, next.ctx);
  }

  lemma NotBefore(life: Life, m: Machine, start: Context, at: Place, fi: nat, fp: nat)
    requires Stands(life, m, start, at, fi, fp)
    ensures !Before((fi, fp), (at.it, at.pos))
  {}

  lemma PauseTells(life: Life, db: Db, at: Place, fi: nat, fp: nat)
    requires var m := MachineOf(PlanFor(life), db);
      && Stands(life, m, db.ctx, at, fi, fp) && Halts(m, at) && at.it < m.plan.iterations && at.pos < |m.plan.steps|
    ensures CommitTells(life, db.ctx, at.db, PausedDb(MachineOf(PlanFor(life), db), at.db, Cost, at.it))
  {
    hide Stands, SucceededAt, Settles, MachineOf;
    var m := MachineOf(PlanFor(life), db);
    var next := PausedDb(m, at.db, Cost, at.it);
    PlaceTells(life, m, db.ctx, at, fi, fp);
    SettledSettles(life, db, next.work, next.ctx);
    MachineFresh(PlanFor(life), db);
  }

  lemma FinishTells(life: Life, db: Db, at: Place, fi: nat, fp: nat)
    requires var m := MachineOf(PlanFor(life), db);
      && Stands(life, m, db.ctx, at, fi, fp) && Halts(m, at) && at.it >= m.plan.iterations
    ensures CommitTells(life, db.ctx, at.db, SucceededDb(MachineOf(PlanFor(life), db), at.db))
  {
    hide Walking, SucceededAt, Charged, Spend, Kept, Retried, PriorOutputs;
    var m := MachineOf(PlanFor(life), db);
    PlaceTells(life, m, db.ctx, at, fi, fp);
    SpendIsCharged(at.db.work.rows);
    StandsLocated(life, m, db.ctx, at, fi, fp);
  }

  /** A commit inside a cell keeps the context or settles it at the stop. */
  ghost predicate StopTells(m: Machine, db: Db, it: nat, e: Event) {
    e.Commit? ==>
      || (e.db.status == db.status && e.db.ctx == db.ctx)
      || (e.db.status == Paused && e.db.ctx == Settled(m, e.db.work.rows).(iterationsDone := Some(it), pausedKind := Some(StepTime)))
      || (e.db.status == Failed && e.db.ctx == Settled(m, e.db.work.rows))
  }

  lemma {:induction false} SavesStop(m: Machine, db: Db, it: nat, begun: Db, saves: seq<Output>)
    requires begun.work.rows != [] && begun.status == db.status && begun.ctx == db.ctx
    ensures forall e :: e in SaveTrail(begun, saves) ==> StopTells(m, db, it, e)
    decreases |saves|
  {
    if saves != [] {
      SavesStop(m, db, it, begun.(work := Checkpointed(begun.work, saves[0])), saves[1..]);
    }
  }

  lemma CellStops(m: Machine, db: Db, it: nat, pos: nat, attempt: Attempt, e: Event)
    requires pos < |m.plan.steps| && e in CellFrom(m, db, it, pos, attempt).trail
    ensures StopTells(m, db, it, e)
  {
    hide ResultAt, CallAt, SaveTrail, AfterSaves, Absorbed, Settled;
    var begun := OpenedDb(m, db, it, pos);
    SavesStop(m, db, it, begun, attempt.saves);
  }

  lemma CellTells(life: Life, db: Db, at: Place, fi: nat, fp: nat, attempt: Attempt, j: nat)
    requires var m := MachineOf(PlanFor(life), db);
      && Stands(life, m, db.ctx, at, fi, fp) && Halts(m, at) && at.it < m.plan.iterations && at.pos < |m.plan.steps|
      && j < |CellFrom(m, at.db, at.it, at.pos, attempt).trail| && CellFrom(m, at.db, at.it, at.pos, attempt).trail[j].Commit?
    ensures var trail := CellFrom(MachineOf(PlanFor(life), db), at.db, at.it, at.pos, attempt).trail;
      CommitTells(life, db.ctx, OnRecord(at.db, trail, j), trail[j].db)
  {
    hide Stands, SucceededAt, Settles, MachineOf, CellFrom, EndsIteration, Settled;
    var m := MachineOf(PlanFor(life), db);
    var trail := CellFrom(m, at.db, at.it, at.pos, attempt).trail;
    MachineFresh(PlanFor(life), db);
    PlaceTells(life, m, db.ctx, at, fi, fp);
    CellStops(m, at.db, at.it, at.pos, attempt, trail[j]);
    var next := trail[j].db;
    if next.status == Running {
      WasRunning(m, at.db, at.it, at.pos, attempt, j);
    } else {
      StoppedRows(m, at, fi, fp, attempt, trail[j]);
      SettledFields(m, next.work.rows);
      SettledSettles(life, db, next.work, next.ctx);
    }
  }

  lemma SettledFields(m: Machine, rows: seq<Row>)
    ensures Settled(m, rows).pausedKind == m.ctx.pausedKind && Settled(m, rows).iterationsDone == m.ctx.iterationsDone
  {}

  /** Before a running commit of a cell everything on record has the context the cell began with. */
  lemma WasRunning(m: Machine, db: Db, it: nat, pos: nat, attempt: Attempt, j: nat)
    requires pos < |m.plan.steps| && db.status == Running && j < |CellFrom(m, db, it, pos, attempt).trail|
    ensures OnRecord(db, CellFrom(m, db, it, pos, attempt).trail, j).ctx == db.ctx
  {
    hide CellFrom, Settled;
    var trail := CellFrom(m, db, it, pos, attempt).trail;
    RunTheorems.CellRunning(m, db, it, pos, attempt);
    LastCommitAmong(db, trail[..j]);
    var was := LastCommit(db, trail[..j]);
    if was != db {
      var i :| 0 <= i < j && trail[..j][i] == Commit(was);
      assert trail[i] == Commit(was) && trail[i] in trail;
      CellStops(m, db, it, pos, attempt, Commit(was));
    }
  }

  /** A stop inside a cell leaves that cell to do. */
  lemma StoppedRows(m: Machine, at: Place, fi: nat, fp: nat, attempt: Attempt, e: Event)
    requires at.it < m.plan.iterations && at.pos < |m.plan.steps| && at.db.status == Running
    requires (fi, fp) == (at.it, at.pos)
    requires forall it: nat, pos: nat :: SucceededAt(at.db.work.rows, it, pos) <==> pos < |m.plan.steps| && Before((it, pos), (fi, fp))
    requires e in CellFrom(m, at.db, at.it, at.pos, attempt).trail && e.Commit? && e.db.status != Running
    ensures StoppedIn(m.plan, e.db.work.rows, at.it)
  {
    hide CellFrom, SucceededAt;
    CellInCell(m, at.db, at.it, at.pos, attempt);
    StopOpen(m, at.db, at.it, at.pos, attempt, e);
    var n := |at.db.work.rows|;
    var last := e.db.work.rows[n];
    assert e.db.work.rows == at.db.work.rows + [last];
    forall it: nat, pos: nat ensures SucceededAt(e.db.work.rows, it, pos) <==> SucceededAt(at.db.work.rows, it, pos) {
      RunExecutor.SucceededAtSnoc(at.db.work.rows, last, it, pos);
    }
    assert !SucceededAt(e.db.work.rows, at.it, at.pos);
  }

  lemma StopOpen(m: Machine, db: Db, it: nat, pos: nat, attempt: Attempt, e: Event)
    requires pos < |m.plan.steps| && db.status == Running
    requires e in CellFrom(m, db, it, pos, attempt).trail && e.Commit? && e.db.status != Running
    ensures Open(e)
  {
    hide ResultAt, CallAt, SaveTrail, EndingFrom, Absorbed;
    var begun := OpenedDb(m, db, it, pos);
    var saved := begun.(work := AfterSaves(begun.work, attempt.saves));
    SavesOpen(begun, attempt.saves);
    EndingOpen(m, saved, it, ResultAt(m.plan, db.work.rows, it, pos), attempt.ending);
    RunTheorems.CellRunning(m, db, it, pos, attempt);
  }

  /** Every commit of every dispatch from a reachable state says, beside its rows, what its status says:
      while it runs the context stays until an iteration ends; at the end it tells the money the rows
      report, the limits in force, how many iterations are done and why the run stopped. */
  lemma CommitsTell(life: Life, acts: seq<Act>, script: seq<Attempt>, k: nat)
    requires 2 <= k < |Trace(PlanFor(life), After(life, acts), script)| && Trace(PlanFor(life), After(life, acts), script)[k].Commit?
    ensures var db := After(life, acts);
      var events := Trace(PlanFor(life), db, script);
      CommitTells(life, db.ctx, OnRecord(db, events, k), events[k].db)
  {
    hide Stands, Trace, CellFrom, Halts, After, CapReached, Reached, MachineOf, CommitTells, IterationEndDb, PausedDb, SucceededDb;
    var db, plan := After(life, acts), PlanFor(life);
    var m := MachineOf(plan, db);
    ReachableHolds(life, acts);
    MachineFresh(plan, db);
    var base, at, fi, fp, rest := Locate(life, db, script, k);
    var attempt := NextAttempt(Drop(script, at.calls));
    PlaceTells(life, m, db.ctx, at, fi, fp);
    if at.it >= plan.iterations {
      FinishTells(life, db, at, fi, fp);
    } else if at.pos == |plan.steps| {
      EndTells(life, db, at, fi, fp);
    } else if CapReached(m, at.db.work.rows) {
      PauseTells(life, db, at, fi, fp);
    } else {
      CellTells(life, db, at, fi, fp, attempt, k - base);
    }
  }

  // ----- evaluated candidates -------------------------------------------------------------------------------------

  /** Every cell of the iteration has succeeded. */
  ghost predicate DoneIteration(plan: Plan, rows: seq<Row>, it: nat) {
    forall pos: nat :: pos < |plan.steps| ==> SucceededAt(rows, it, pos)
  }

  /** A candidate is marked evaluated only when its iteration is done, and is before a later one begins. */
  ghost predicate MarksOk(plan: Plan, work: Work) {
    && (forall c :: c in work.candidates && c.evaluated ==> DoneIteration(plan, work.rows, c.iteration))
    && forall c, r :: c in work.candidates && r in work.rows && c.iteration < r.iteration ==> c.evaluated
  }

  lemma DoneMore(plan: Plan, rows: seq<Row>, more: seq<Row>, it: nat)
    requires DoneIteration(plan, rows, it) && forall r :: r in rows && r.status == RowSucceeded ==> r in more
    ensures DoneIteration(plan, more, it)
  {
    forall pos: nat | pos < |plan.steps| ensures SucceededAt(more, it, pos) {
      assert SucceededAt(rows, it, pos);
      var r :| r in rows && r.status.RowSucceeded? && r.iteration == it && r.position == pos;
      assert r in more;
    }
  }

  /** Inside a cell the candidates stay until its result is stored. */
  predicate SameCandidates(db: Db, e: Event) {
    e.Commit? ==> e.db.work.candidates == db.work.candidates
  }

  lemma {:induction false} SavesKeepCandidates(db: Db, begun: Db, saves: seq<Output>)
    requires begun.work.rows != [] && begun.work.candidates == db.work.candidates
    ensures forall e :: e in SaveTrail(begun, saves) ==> SameCandidates(db, e)
    decreases |saves|
  {
    if saves != [] {
      SavesKeepCandidates(db, begun.(work := Checkpointed(begun.work, saves[0])), saves[1..]);
    }
  }

  lemma CellCandidates(m: Machine, db: Db, it: nat, pos: nat, attempt: Attempt, e: Event)
    requires pos < |m.plan.steps| && e in CellFrom(m, db, it, pos, attempt).trail
    ensures SameCandidates(db, e) || CellFrom(m, db, it, pos, attempt).next == Some(e.db)
  {
    hide ResultAt, CallAt, SaveTrail, AfterSaves, Absorbed, Settled;
    var begun := OpenedDb(m, db, it, pos);
    SavesKeepCandidates(db, begun, attempt.saves);
  }

  /** The marks after a cell's result is stored are those before. */
  lemma TouchedMarks(candidates: seq<Candidate>, it: nat, info: Option<CandidateInfo>, prompt: Option<Prompt>, c: Candidate)
    requires var cands := WithCandidate(candidates, it);
      var i := IndexOf(cands, it);
      c in cands[i := Touched(cands[i], info, prompt)] && c.evaluated
    ensures exists d :: d in candidates && d.evaluated && d.iteration == c.iteration
  {
    var cands := WithCandidate(candidates, it);
    var i := IndexOf(cands, it);
    var d := if c in cands then c else cands[i];
    assert d in cands && d.evaluated && d.iteration == c.iteration;
    assert d in candidates;
  }

  lemma StoredMarks(m: Machine, db: Db, it: nat, pos: nat, attempt: Attempt, c: Candidate)
    requires pos < |m.plan.steps| && CellFrom(m, db, it, pos, attempt).next.Some?
    requires c in CellFrom(m, db, it, pos, attempt).next.value.work.candidates && c.evaluated
    ensures exists d :: d in db.work.candidates && d.evaluated && d.iteration == c.iteration
  {
    hide SaveTrail, CallAt, WithCandidate, Touched, Resolved, IndexOf;
    var result := ResultAt(m.plan, db.work.rows, it, pos);
    if !(result.candidate.None? && result.benchmarks == []) {
      TouchedMarks(db.work.candidates, it, result.candidate, Resolved(m.plan, result).value, c);
    }
  }

  lemma CellMarks(life: Life, m: Machine, start: Context, at: Place, fi: nat, fp: nat, attempt: Attempt, e: Event)
    requires Stands(life, m, start, at, fi, fp) && Halts(m, at) && MarksOk(m.plan, at.db.work)
    requires at.it < m.plan.iterations && at.pos < |m.plan.steps| && !CapReached(m, at.db.work.rows)
    requires e in CellFrom(m, at.db, at.it, at.pos, attempt).trail && e.Commit?
    ensures MarksOk(m.plan, e.db.work)
  {
    hide Stands, CellFrom, SucceededAt, DoneIteration, CapReached;
    var cell := CellFrom(m, at.db, at.it, at.pos, attempt);
    var rows, more := at.db.work.rows, e.db.work.rows;
    PlaceTells(life, m, start, at, fi, fp);
    CellInCell(m, at.db, at.it, at.pos, attempt);
    CellCandidates(m, at.db, at.it, at.pos, attempt, e);
    EarlierMarked(life, m, start, at, fi, fp, attempt);
    assert more == rows + [more[|rows|]];
    forall c | c in e.db.work.candidates && c.evaluated ensures DoneIteration(m.plan, more, c.iteration) {
      if c !in at.db.work.candidates {
        StoredMarks(m, at.db, at.it, at.pos, attempt, c);
      }
      DoneMore(m.plan, rows, more, c.iteration);
    }
  }

  /** While the cell's iteration runs, every earlier candidate is marked and no row is of a later one. */
  lemma EarlierMarked(life: Life, m: Machine, start: Context, at: Place, fi: nat, fp: nat, attempt: Attempt)
    requires Stands(life, m, start, at, fi, fp) && Halts(m, at)
    requires at.it < m.plan.iterations && at.pos < |m.plan.steps| && !CapReached(m, at.db.work.rows)
    ensures AllEvaluated(at.db.work.candidates, at.it)
    ensures var next := CellFrom(m, at.db, at.it, at.pos, attempt).next;
      next.Some? ==> AllEvaluated(next.value.work.candidates, at.it)
    ensures forall r :: r in at.db.work.rows ==> r.iteration <= at.it
  {
    hide CellFrom, HoldsAt, Reference, Spend, SucceededAt, MachineOk, CapReached;
    StandsLocated(life, m, start, at, fi, fp);
    CellHolds(life, m, at.db, at.it, at.pos, attempt);
    RunTheorems.WalkingRows(life, m, at.db, at.it, at.pos);
    ReferenceOrdered(m.plan, at.it, at.pos);
  }

  lemma EndMarks(plan: Plan, work: Work, it: nat)
    requires MarksOk(plan, work) && DoneIteration(plan, work.rows, it)
    ensures MarksOk(plan, work.(candidates := MarkEvaluated(work.candidates, it)))
  {
    hide DoneIteration;
    var marked := MarkEvaluated(work.candidates, it);
    forall c | c in marked ensures c in work.candidates || (c.evaluated && c.iteration == it) {}
  }

  lemma SegmentMarks(life: Life, m: Machine, start: Context, at: Place, fi: nat, fp: nat, attempt: Attempt, e: Event)
    requires Stands(life, m, start, at, fi, fp) && Halts(m, at) && MarksOk(m.plan, at.db.work)
    requires e in Segment(m, at.db, at.it, at.pos, attempt) && e.Commit?
    ensures MarksOk(m.plan, e.db.work)
  {
    hide Stands, CellFrom, SucceededAt, MarksOk, CapReached;
    PlaceTells(life, m, start, at, fi, fp);
    NotBefore(life, m, start, at, fi, fp);
    if at.it < m.plan.iterations {
      if at.pos == |m.plan.steps| {
        EndMarks(m.plan, at.db.work, at.it);
      } else if !CapReached(m, at.db.work.rows) {
        CellMarks(life, m, start, at, fi, fp, attempt, e);
      }
    }
  }

  lemma ReplayMarks(plan: Plan, work: Work)
    requires MarksOk(plan, work) && RowsOk(plan, work.rows)
    ensures MarksOk(plan, work.(rows := Kept(work.rows, plan.iterations)))
  {
    hide DoneIteration;
    RunExecutor.KeptMembers(work.rows, plan.iterations);
    forall c | c in work.candidates && c.evaluated ensures DoneIteration(plan, Kept(work.rows, plan.iterations), c.iteration) {
      DoneMore(plan, work.rows, Kept(work.rows, plan.iterations), c.iteration);
    }
  }

  lemma {:induction false} DispatchMarks(life: Life, db: Db, script: seq<Attempt>, k: nat)
    requires Holds(life, db) && MarksOk(PlanFor(life), db.work) && RowsOk(PlanFor(life), db.work.rows)
    requires k <= |Trace(PlanFor(life), db, script)|
    ensures MarksOk(PlanFor(life), OnRecord(db, Trace(PlanFor(life), db, script), k).work)
    decreases k
  {
    hide Stands, Trace, Halts, From, Segment, MachineOf, MarksOk, RowsOk, Kept;
    var plan := PlanFor(life);
    var m, events := MachineOf(plan, db), Trace(plan, db, script);
    if k > 0 {
      TraceOpens(plan, db, script);
      assert events[..k][..k - 1] == events[..k - 1] && events[..k][k - 1] == events[k - 1];
      if !events[k - 1].Commit? {
        DispatchMarks(life, db, script, k - 1);
      } else if k == 2 {
        ReplayMarks(plan, db.work);
      } else if k > 2 {
        var base, at, fi, fp, rest := Locate(life, db, script, k - 1);
        DispatchMarks(life, db, script, base);
        MachineFresh(plan, db);
        SegmentMarks(life, m, db.ctx, at, fi, fp, NextAttempt(Drop(script, at.calls)), events[k - 1]);
      }
    }
  }

  /** In every reachable state a candidate marked evaluated has every cell of its iteration succeeded; it is
      marked before a row of a later iteration exists and by the time the run has succeeded. */
  lemma {:induction false} EvaluatedTells(life: Life, acts: seq<Act>)
    ensures var plan, db := PlanFor(life), After(life, acts);
      MarksOk(plan, db.work) && (db.status == RunStatus.Succeeded ==> forall c :: c in db.work.candidates ==> c.evaluated)
  {
    hide MarksOk, Trace;
    var plan := PlanFor(life);
    if acts == [] {
      NothingMarked(life);
    } else {
      var init, act := acts[..|acts| - 1], acts[|acts| - 1];
      EvaluatedTells(life, init);
      if act.Execute? {
        var before := After(life, init);
        ReachableHolds(life, init);
        RunTheorems.ReachableRowsOk(life, init);
        var events := Trace(plan, before, act.script);
        DispatchMarks(life, before, act.script, if act.cut <= |events| then act.cut else |events|);
        assert events[..|events|] == events;
      }
    }
    ReachableHolds(life, acts);
    if After(life, acts).status == RunStatus.Succeeded {
      SucceededMarked(life, After(life, acts));
    }
  }

  lemma NothingMarked(life: Life)
    ensures MarksOk(PlanFor(life), Created(life).work)
  {}

  lemma SucceededMarked(life: Life, db: Db)
    requires Holds(life, db) && db.status == RunStatus.Succeeded
    ensures forall c :: c in db.work.candidates ==> c.evaluated
  {
    hide Spend, Reference;
    var fi, fp :| HoldsAt(life, db, fi, fp);
    MatchesSome(PlanFor(life), db.work, fi, fp);
    ReferenceCandidates(PlanFor(life), fi, fp);
    forall c | c in db.work.candidates ensures c.evaluated {
      var k :| 0 <= k < |db.work.candidates| && db.work.candidates[k] == c;
      assert Bare(db.work.candidates)[k] in Bare(db.work.candidates);
    }
  }

  // ----- how a dispatch begins --------------------------------------------------------------------------------------

  /** A dispatch first marks the run running and then deletes the row that has not succeeded, if there is
      one; nothing else changes. */
  lemma OpeningTells(life: Life, acts: seq<Act>, script: seq<Attempt>)
    ensures var db := After(life, acts);
      var events := Trace(PlanFor(life), db, script);
      && |events| >= 2 && events[0] == Commit(db.(status := Running)) && events[1].Commit?
      && var kept := events[1].db.work.rows;
      && events[1].db == db.(status := Running, work := db.work.(rows := kept))
      && kept <= db.work.rows && (forall r :: r in kept ==> r.status == RowSucceeded)
      && |db.work.rows| <= |kept| + 1 && (forall r :: r in db.work.rows[|kept|..] ==> r.status != RowSucceeded)
  {
    hide From, Reference, After, Kept, Ordered, MachineOf;
    var db, plan := After(life, acts), PlanFor(life);
    ReachableHolds(life, acts);
    var fi, fp :| HoldsAt(life, db, fi, fp);
    MatchesSome(plan, db.work, fi, fp);
    ReplayKeepsFinished(life, db, fi, fp);
    ReferenceOrdered(plan, fi, fp);
    RunTheorems.OrderedSucceeded(plan, Reference(plan, fi, fp).value.rows, fi, fp);
    TraceOpens(plan, db, script);
  }
}
