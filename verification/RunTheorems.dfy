/** What the run protocol guarantees, over every history of a run. */
module RunTheorems {
  import opened Options
  import opened RunModel
  import opened RunReference
  import opened RunProtocol
  import RunExecutor

  // ----- the shape of every committed state -----------------------------------------------------

  lemma InFlightRowsOk(plan: Plan, rows: seq<Row>, finished: seq<Row>, fi: nat, fp: nat)
    requires Ordered(plan, finished, fi, fp) && InFlight(plan, rows, finished, fi, fp)
    ensures RowsOk(plan, rows)
    ensures forall r :: r in rows && !r.status.RowSucceeded? ==> Cell(r) == (fi, fp)
    ensures forall i: nat, p: nat :: SucceededAt(rows, i, p) <==> SucceededAt(finished, i, p)
  {
    var last := rows[|finished|];
    assert rows == finished + [last];
    forall i, j | 0 <= i < j < |rows| ensures Cell(rows[i]) != Cell(rows[j]) {
      if j == |finished| {
        assert rows[i] in finished;
      } else {
        assert Before(Cell(finished[i]), Cell(finished[j]));
      }
    }
    forall i: nat, p: nat ensures SucceededAt(rows, i, p) <==> SucceededAt(finished, i, p) {
      RunExecutor.SucceededAtSnoc(finished, last, i, p);
    }
  }

  /** Succeeded cells form a lexicographic prefix of the grid, one row each; at most one other row
      exists, at the next cell; an iteration has at most one candidate; the benchmark results are
      the known-benchmark outcomes of the succeeded cells, each once and in order. */
  lemma CommittedShape(life: Life, db: Db) returns (fi: nat, fp: nat)
    requires Holds(life, db)
    ensures var plan := PlanFor(life);
      && fi <= plan.iterations && fp <= |plan.steps|
      && RowsOk(plan, db.work.rows)
      && (forall i: nat, p: nat :: SucceededAt(db.work.rows, i, p) <==> p < |plan.steps| && Before((i, p), (fi, fp)))
      && (forall r :: r in db.work.rows && !r.status.RowSucceeded? ==> Cell(r) == (fi, fp))
      && (forall i, j :: 0 <= i < j < |db.work.candidates| ==>
            db.work.candidates[i].iteration != db.work.candidates[j].iteration)
      && var finished := Kept(db.work.rows, plan.iterations);
      && (forall r :: r in finished ==> r.position < |plan.steps|)
      && db.work.results == Outcomes(plan, finished)
  {
    hide Ordered, RowsOk, InFlight, SucceededAt, Reference, Kept, Outcomes, Spend, Before, RowOf;
    var plan := PlanFor(life);
    fi, fp :| HoldsAt(life, db, fi, fp);
    var finished := Reference(plan, fi, fp).value.rows;
    ReplayKeepsFinished(life, db, fi, fp);
    ReferenceOrdered(plan, fi, fp);
    ReferenceOutcomes(plan, fi, fp);
    ReferenceCandidates(plan, fi, fp);
    BareDistinct(db.work.candidates);
    forall i: nat, p: nat ensures SucceededAt(finished, i, p) <==> p < |plan.steps| && Before((i, p), (fi, fp)) {
      ReferenceCells(plan, fi, fp, i, p);
    }
    if db.work.rows != finished {
      InFlightRowsOk(plan, db.work.rows, finished, fi, fp);
    } else {
      AtRestRowsOk(plan, finished, fi, fp);
    }
  }

  lemma AtRestRowsOk(plan: Plan, rows: seq<Row>, fi: nat, fp: nat)
    requires Ordered(plan, rows, fi, fp) && fi <= plan.iterations && (fi == plan.iterations ==> fp == 0)
    ensures RowsOk(plan, rows) && forall r :: r in rows ==> r.status.RowSucceeded?
  {
    forall i, j | 0 <= i < j < |rows| ensures Cell(rows[i]) != Cell(rows[j]) {
      assert Before(Cell(rows[i]), Cell(rows[j]));
    }
  }

  /** Every reachable state meets what `ExecuteRun` asks of the rows it replays. */
  lemma ReachableRowsOk(life: Life, acts: seq<Act>)
    ensures RowsOk(PlanOf(life.workflow, After(life, acts).ctx), After(life, acts).work.rows)
    ensures PlanOf(life.workflow, After(life, acts).ctx) == PlanFor(life)
  {
    ReachableHolds(life, acts);
    var fi, fp := CommittedShape(life, After(life, acts));
  }

  // ----- interrupted equals uninterrupted -------------------------------------------------------

  lemma SameCandidates(a: seq<Candidate>, b: seq<Candidate>, n: nat)
    requires Bare(a) == Bare(b) && AllEvaluated(a, n) && AllEvaluated(b, n)
    requires forall c :: c in Bare(a) ==> c.iteration < n
    ensures a == b
  {
    assert |a| == |Bare(a)| == |Bare(b)| == |b|;
    forall i | 0 <= i < |a| ensures a[i] == b[i] {
      assert Bare(a)[i] == Bare(b)[i] && Bare(a)[i] in Bare(a);
      assert a[i] in a && b[i] in b;
    }
  }

  /** Two lives that differ at most in the budget they were launched with, and any two histories
      that end in `succeeded`, leave the same rows, candidates, benchmark results and summary. */
  lemma ResumeTransparency(life: Life, acts: seq<Act>, other: Life, otherActs: seq<Act>)
    requires other.workflow == life.workflow && other.launch == life.launch.(budget := other.launch.budget)
    requires After(life, acts).status.Succeeded? && After(other, otherActs).status.Succeeded?
    ensures After(life, acts).work == After(other, otherActs).work
  {
    ReachableHolds(life, acts);
    ReachableHolds(other, otherActs);
    var a, b := After(life, acts), After(other, otherActs);
    var plan := PlanFor(life);
    assert PlanFor(other) == plan;
    var fi, fp :| HoldsAt(life, a, fi, fp);
    var gi, gp :| HoldsAt(other, b, gi, gp);
    assert fi == plan.iterations && fp == 0;
    assert gi == plan.iterations && gp == 0;
    ReferenceCandidates(plan, fi, fp);
    SameCandidates(a.work.candidates, b.work.candidates, fi);
  }

  /** How many handler calls are left at most from cell `(it, pos)`. */
  function Cells(plan: Plan, it: nat, pos: nat): nat
    requires pos <= |plan.steps|
    decreases plan.iterations - it, |plan.steps| - pos
  {
    if it >= plan.iterations then 0
    else if pos == |plan.steps| then Cells(plan, it + 1, 0)
    else 1 + Cells(plan, it, pos + 1)
  }

  /** The process never dies inside a handler. */
  predicate Survives(script: seq<Attempt>) {
    forall a :: a in script ==> !a.ending.Dies?
  }

  predicate OnlyStops(script: seq<Attempt>) {
    forall a :: a in script ==> a.ending.Succeeds? || (a.ending.Raises? && a.ending.resumable)
  }

  predicate AllSucceed(script: seq<Attempt>) {
    forall a :: a in script ==> a.ending.Succeeds?
  }

  /** How a completed dispatch leaves the run. */
  ghost predicate EndsWell(m: Machine, events: seq<Event>, script: seq<Attempt>) {
    && events != [] && events[|events| - 1].Commit?
    && var last := events[|events| - 1].db;
    && Cap(m.plan, last.ctx) == m.budget
    && (last.status.Succeeded? || last.status.Paused? || last.status.Failed?)
    && (OnlyStops(script) ==> !last.status.Failed?)
    && (AllSucceed(script) && last.status.Paused? ==> last.ctx.pausedKind == Some(Cost))
  }

  /** The dispatch crashed on a result whose prompt is not registered: everything it committed is
      `running`. */
  ghost predicate Crashes(plan: Plan, events: seq<Event>) {
    AllRunning(events) &&
    exists it: nat, pos: nat :: pos < |plan.steps| && it < plan.iterations && Reference(plan, it, pos).Some? && Reference(plan, it, pos + 1).None?
  }

  ghost predicate Ends(m: Machine, events: seq<Event>, script: seq<Attempt>) {
    EndsWell(m, events, script) || Crashes(m.plan, events)
  }

  lemma EndsLater(m: Machine, front: seq<Event>, events: seq<Event>, script: seq<Attempt>, later: seq<Attempt>)
    requires Ends(m, events, later) && AllRunning(front) && (forall a :: a in later ==> a in script)
    ensures Ends(m, front + events, script)
  {
    hide Reference;
  }

  lemma {:induction false} FromEnds(life: Life, m: Machine, db: Db, it: nat, pos: nat, script: seq<Attempt>, fi: nat, fp: nat)
    requires Walking(life, m, db, it, pos, fi, fp) && (it >= m.plan.iterations ==> pos == 0)
    requires Survives(script) && |script| >= Cells(m.plan, it, pos)
    ensures Ends(m, From(m, db, it, pos, script), script)
    decreases m.plan.iterations - it, |m.plan.steps| - pos
  {
    hide Walking, HoldsAt, SucceededAt, CellFrom, Spend, Reference, Before, Ends, EndsWell, MachineOk, PausedDb, IterationEndDb,
      SucceededDb, AllRunning, From;
    Located(life, m, db, it, pos, fi, fp);
    WalkingRuns(life, m, db, it, pos, fi, fp);
    if it >= m.plan.iterations {
      RunExecutor.UnfoldLast(m, db, it, script);
      LastEnds(life, m, db, fi, fp, script);
    } else if pos == |m.plan.steps| {
      IterationEndWalks(life, m, db, it, fi, fp);
      var ended := IterationEndDb(m, db, it);
      if fi == it {
        FromEnds(life, m, ended, it + 1, 0, script, it + 1, 0);
      } else {
        FromEnds(life, m, ended, it + 1, 0, script, fi, fp);
      }
      RunExecutor.UnfoldEnd(m, db, it, script);
      EndRuns(m, db, it);
      EndsLater(m, [Commit(ended)], From(m, ended, it + 1, 0, script), script, script);
    } else {
      RunExecutor.Unfold(m, db, it, pos, script);
      if SucceededAt(db.work.rows, it, pos) {
        FromEnds(life, m, db, it, pos + 1, script, fi, fp);
      } else if CapReached(m, db.work.rows) {
        PausedEnds(life, m, db, fi, fp, it, script);
      } else {
        var cell := CellFrom(m, db, it, pos, script[0]);
        CellHolds(life, m, db, it, pos, script[0]);
        CellRunning(m, db, it, pos, script[0]);
        if cell.next.Some? {
          FromEnds(life, m, cell.next.value, it, pos + 1, Later(script), it, pos + 1);
          EndsLater(m, cell.trail, From(m, cell.next.value, it, pos + 1, Later(script)), script, Later(script));
        } else {
          WalkingKnown(life, m, db, it, pos);
          CellEnds(life, m, db, it, pos, script);
          assert cell.trail + [] == cell.trail;
        }
      }
    }
  }

  lemma WalkingRuns(life: Life, m: Machine, db: Db, it: nat, pos: nat, fi: nat, fp: nat)
    requires Walking(life, m, db, it, pos, fi, fp)
    ensures db.status.Running?
  {}

  lemma WalkingKnown(life: Life, m: Machine, db: Db, it: nat, pos: nat)
    requires Walking(life, m, db, it, pos, it, pos)
    ensures pos <= |m.plan.steps| && Reference(m.plan, it, pos).Some?
  {
    MatchesSome(m.plan, db.work, it, pos);
  }

  lemma EndRuns(m: Machine, db: Db, it: nat)
    requires db.status.Running?
    ensures AllRunning([Commit(IterationEndDb(m, db, it))])
  {}

  lemma LastEnds(life: Life, m: Machine, db: Db, fi: nat, fp: nat, script: seq<Attempt>)
    requires MachineOk(life, m)
    ensures Ends(m, [Commit(SucceededDb(m, db))], script)
  {
    hide Crashes;
  }

  lemma PausedEnds(life: Life, m: Machine, db: Db, fi: nat, fp: nat, it: nat, script: seq<Attempt>)
    requires MachineOk(life, m)
    ensures Ends(m, [Commit(PausedDb(m, db, Cost, it))], script)
  {
    hide Crashes;
  }

  lemma CellEnds(life: Life, m: Machine, db: Db, it: nat, pos: nat, script: seq<Attempt>)
    requires MachineOk(life, m) && db.status.Running?
    requires it < m.plan.iterations && pos < |m.plan.steps| && script != [] && Survives(script)
    requires CellFrom(m, db, it, pos, script[0]).next.None?
    requires Reference(m.plan, it, pos).Some? && (script[0].ending.Succeeds? ==> Reference(m.plan, it, pos + 1).None?)
    ensures Ends(m, CellFrom(m, db, it, pos, script[0]).trail, script)
  {
    hide Reference, ResultAt, CallAt, SaveTrail, AfterSaves, Spend;
    assert script[0] in script;
    var begun := OpenedDb(m, db, it, pos);
    var saved := begun.(work := AfterSaves(begun.work, script[0].saves));
    var opening := [Commit(begun), Called(CallAt(m, db.work.rows, it, pos))];
    SavesRunning(begun, script[0].saves);
    if script[0].ending.Succeeds? {
      assert AllRunning(opening + SaveTrail(begun, script[0].saves) + []);
    } else {
      RaisedEnds(life, m, saved, it, ResultAt(m.plan, db.work.rows, it, pos), script);
      EndsLater(m, opening + SaveTrail(begun, script[0].saves),
                EndingFrom(m, saved, it, ResultAt(m.plan, db.work.rows, it, pos), script[0].ending).trail, script, script);
    }
  }

  lemma RaisedEnds(life: Life, m: Machine, saved: Db, it: nat, result: StepResult, script: seq<Attempt>)
    requires MachineOk(life, m) && saved.work.rows != [] && script != [] && script[0].ending.Raises?
    ensures Ends(m, EndingFrom(m, saved, it, result, script[0].ending).trail, script)
  {
    hide Crashes, Spend;
    assert script[0] in script;
  }

  /** A dispatch that is not cut short. */
  function Finished(life: Life, db: Db, script: seq<Attempt>): Db {
    LastCommit(db, Trace(PlanOf(life.workflow, db.ctx), db, script))
  }

  lemma FinishedIsExecuted(life: Life, db: Db, script: seq<Attempt>)
    ensures Finished(life, db, script) ==
      Executed(life, db, script, |Trace(PlanOf(life.workflow, db.ctx), db, script)|)
  {
    var trace := Trace(PlanOf(life.workflow, db.ctx), db, script);
    assert trace[..|trace|] == trace;
  }

  /** A dispatch whose process does not die leaves the run paused, failed or succeeded, under the cap it
      started with, unless it crashes on an unregistered prompt; only a non-resumable error fails it; with
      no error it can only stop on the cap. */
  lemma DispatchEnds(life: Life, db: Db, script: seq<Attempt>)
    requires Holds(life, db) && Survives(script) && |script| >= Cells(PlanFor(life), 0, 0)
    ensures var plan := PlanFor(life);
      && PlanOf(life.workflow, db.ctx) == plan
      && Ends(MachineOf(plan, db), Trace(plan, db, script), script)
      && Holds(life, Finished(life, db, script))
  {
    hide Ends, Walking, HoldsAt, AllRunning, From;
    var plan := PlanFor(life);
    var fi, fp :| HoldsAt(life, db, fi, fp);
    BeginWalks(life, db, fi, fp);
    var m, replayed := MachineOf(plan, db), ReplayedDb(plan, db);
    FromEnds(life, m, replayed, 0, 0, script, fi, fp);
    OpeningRuns(db, replayed);
    EndsLater(m, [Commit(StartedDb(db)), Commit(replayed)], From(m, replayed, 0, 0, script), script, script);
    FinishedIsExecuted(life, db, script);
    ExecutedHolds(life, db, script, |Trace(plan, db, script)|);
  }

  lemma OpeningRuns(db: Db, replayed: Db)
    requires replayed.status.Running?
    ensures AllRunning([Commit(StartedDb(db)), Commit(replayed)])
  {}

  /** When every prompt the grid returns is registered no dispatch crashes. */
  lemma ResolvedEnds(life: Life, db: Db, script: seq<Attempt>)
    requires Holds(life, db) && Survives(script) && |script| >= Cells(PlanFor(life), 0, 0)
    requires Reference(PlanFor(life), PlanFor(life).iterations, 0).Some?
    ensures var plan := PlanFor(life);
      && PlanOf(life.workflow, db.ctx) == plan
      && EndsWell(MachineOf(plan, db), Trace(plan, db, script), script)
      && Holds(life, Finished(life, db, script))
      && Finished(life, db, script) == Trace(plan, db, script)[|Trace(plan, db, script)| - 1].db
  {
    hide Holds, Trace, AllRunning, Reference, Finished;
    var plan := PlanFor(life);
    DispatchEnds(life, db, script);
    var trace := Trace(plan, db, script);
    if Crashes(plan, trace) {
      var it: nat, pos: nat :| pos < |plan.steps| && it < plan.iterations && Reference(plan, it, pos).Some? && Reference(plan, it, pos + 1).None?;
      GridResolved(plan, it, pos);
    }
    LastIsFinished(life, db, script);
  }

  /** Past the last iteration there is nothing to resolve. */
  lemma GridResolved(plan: Plan, it: nat, pos: nat)
    requires pos < |plan.steps| && Reference(plan, plan.iterations, 0).Some? && it < plan.iterations
    ensures Reference(plan, it, pos + 1).Some?
  {
    hide Reference;
    ReferencePrefix(plan, plan.iterations, 0, it, pos + 1);
  }

  lemma LastIsFinished(life: Life, db: Db, script: seq<Attempt>)
    requires var trace := Trace(PlanOf(life.workflow, db.ctx), db, script);
      trace != [] && trace[|trace| - 1].Commit?
    ensures var trace := Trace(PlanOf(life.workflow, db.ctx), db, script);
      Finished(life, db, script) == trace[|trace| - 1].db
  {}

  /** A cost pause is at a cell where what the grid has cost so far is at or above the cap. */
  lemma PausedPrefix(life: Life, db: Db) returns (k: nat)
    requires Holds(life, db) && PausedFor(db, Cost)
    requires Reference(PlanFor(life), PlanFor(life).iterations, 0).Some?
    ensures var all := Reference(PlanFor(life), PlanFor(life).iterations, 0).value.rows;
      k <= |all| && Cap(PlanFor(life), db.ctx) <= Spend(all[..k])
  {
    var plan := PlanFor(life);
    var fi, fp :| HoldsAt(life, db, fi, fp);
    ReferencePrefix(plan, plan.iterations, 0, fi, fp);
    var finished := Reference(plan, fi, fp).value.rows;
    k := |finished|;
    assert Reference(plan, plan.iterations, 0).value.rows[..k] == finished;
  }

  /** Whatever interrupted a run that succeeded, one dispatch under a cap above every partial sum
      succeeds in one go and leaves the same work. */
  lemma UninterruptedSame(life: Life, acts: seq<Act>, cap: nat, script: seq<Attempt>)
    requires After(life, acts).status.Succeeded?
    requires AllSucceed(script) && |script| >= Cells(PlanFor(life), 0, 0)
    requires cap > 0 && forall k :: 0 <= k <= |After(life, acts).work.rows| ==> Spend(After(life, acts).work.rows[..k]) < cap
    ensures var other := life.(launch := life.launch.(budget := Some(cap)));
      var direct := Finished(other, Next(other, Created(other), Claim), script);
      direct.status.Succeeded? && direct.work == After(life, acts).work
  {
    var other := life.(launch := life.launch.(budget := Some(cap)));
    var plan := PlanFor(life);
    assert PlanFor(other) == plan;
    ReachableHolds(life, acts);
    var db := After(life, acts);
    var fi, fp :| HoldsAt(life, db, fi, fp);
    var claimed := Next(other, Created(other), Claim);
    ReachableHolds(other, [Claim]);
    assert After(other, [Claim]) == claimed by {
      assert [Claim][..0] == [];
    }
    ResolvedEnds(other, claimed, script);
    var direct := Finished(other, claimed, script);
    if direct.status.Paused? {
      var k := PausedPrefix(other, direct);
      assert false;
    }
    FinishedIsExecuted(other, claimed, script);
    var cut := |Trace(PlanOf(other.workflow, claimed.ctx), claimed, script)|;
    var direct2 := [Claim, Execute(script, cut)];
    assert direct2[..1] == [Claim];
    assert After(other, direct2) == direct;
    ResumeTransparency(life, acts, other, direct2);
  }

  // ----- money ------------------------------------------------------------------------------------

  lemma SpendOfFinished(plan: Plan, rows: seq<Row>, finished: seq<Row>, fi: nat, fp: nat)
    requires Ordered(plan, finished, fi, fp) && (rows == finished || InFlight(plan, rows, finished, fi, fp))
    ensures Spend(rows) == Spend(finished)
    ensures finished != [] ==>
      Spend(finished) - StepCost(finished[|finished| - 1].output) == Spend(finished[..|finished| - 1])
  {
    if finished != [] {
      assert finished[|finished| - 1] in finished;
    }
    if rows != finished {
      assert rows == finished + [rows[|finished|]];
      RunExecutor.SpendSnoc(finished, rows[|finished|]);
    }
  }

  /** In every reachable state, recorded spend without the last succeeded step is below the current
      cap, so spend overshoots by less than that step; a cost pause means spend is at or above it,
      a time stop that it is below. */
  lemma SpendBounded(life: Life, acts: seq<Act>)
    requires OnGrid(life)
    ensures var db, plan := After(life, acts), PlanFor(life);
      var finished := Kept(db.work.rows, plan.iterations);
      && Spend(db.work.rows) == Spend(finished)
      && (finished != [] ==>
            Spend(db.work.rows) - StepCost(finished[|finished| - 1].output) < Cap(plan, db.ctx))
      && (PausedFor(db, Cost) ==> Spend(db.work.rows) >= Cap(plan, db.ctx))
      && (PausedFor(db, StepTime) ==> Spend(db.work.rows) < Cap(plan, db.ctx))
  {
    hide Spend, InFlight, Ordered, Kept, StepCost, Reference;
    var db, plan := After(life, acts), PlanFor(life);
    ReachableHolds(life, acts);
    var fi, fp :| HoldsAt(life, db, fi, fp);
    ReplayKeepsFinished(life, db, fi, fp);
    ReferenceOrdered(plan, fi, fp);
    SpendOfFinished(plan, db.work.rows, Reference(plan, fi, fp).value.rows, fi, fp);
  }

  /** A resume lowers the cap exactly when the cap is off the 4-decimal grid and the sum rounds down
      past it. */
  lemma ResumeLowersCap(cap: nat, add: nat)
    requires add > 0
    ensures Round4(cap + add) < cap <==>
      cap % 100 != 0 && (cap % 100 + add < 50 || (cap % 100 + add == 50 && (cap / 100) % 2 == 0))
  {
    var q, r := cap / 100, cap % 100;
    if r + add < 100 {
      assert (cap + add) / 100 == q && (cap + add) % 100 == r + add;
    } else {
      assert (cap + add) / 100 >= q + 1;
    }
  }

  /** A requested budget of 0 does not disable the cap: the run gets the default one. */
  lemma ZeroBudgetIsDefault(life: Life)
    requires life.launch.budget == Some(0)
    ensures Cap(PlanFor(life), Created(life).ctx) == life.workflow.defaultBudget
  {}

  // ----- bounded resumes -----------------------------------------------------------------------------

  /** The run after one more dispatch, resumed with the defaults first if it was paused. */
  function Round(life: Life, db: Db, script: seq<Attempt>): Db {
    Finished(life, Next(life, Next(life, db, Resume(None, None)), Claim), script)
  }

  function Rounds(life: Life, scripts: seq<seq<Attempt>>): Db {
    if scripts == [] then Created(life)
    else Round(life, Rounds(life, scripts[..|scripts| - 1]), scripts[|scripts| - 1])
  }

  predicate PausedFor(db: Db, kind: PauseKind) {
    db.status.Paused? && db.ctx.pausedKind == Some(kind)
  }

  /** How many of the dispatches ended in a pause of this kind. */
  function Pauses(life: Life, scripts: seq<seq<Attempt>>, kind: PauseKind): nat {
    if scripts == [] then 0
    else Pauses(life, scripts[..|scripts| - 1], kind) + if PausedFor(Rounds(life, scripts), kind) then 1 else 0
  }

  predicate NoneSucceeded(life: Life, scripts: seq<seq<Attempt>>) {
    forall k :: 1 <= k <= |scripts| ==> !Rounds(life, scripts[..k]).status.Succeeded?
  }

  predicate Patient(life: Life, scripts: seq<seq<Attempt>>) {
    forall s :: s in scripts ==> OnlyStops(s) && |s| >= Cells(PlanFor(life), 0, 0)
  }

  lemma HoldsGives(life: Life, db: Db)
    requires Holds(life, db)
    ensures PlanOf(life.workflow, db.ctx) == PlanFor(life)
    ensures OnGrid(life) ==> Cap(PlanFor(life), db.ctx) > 0 && Cap(PlanFor(life), db.ctx) % 100 == 0
    ensures db.status.Paused? ==> PausedFor(db, Cost) || PausedFor(db, StepTime)
    ensures Holds(life, Next(life, db, Claim))
  {
    hide Matches, Spend, Reference;
    var fi, fp :| HoldsAt(life, db, fi, fp);
    MatchesSome(PlanFor(life), db.work, fi, fp);
    if db.status.Paused? {
      assert db.ctx.pausedKind.value.Cost? || db.ctx.pausedKind.value.StepTime?;
    }
    assert HoldsAt(life, Next(life, db, Claim), fi, fp);
  }

  lemma RoundCap(life: Life, db: Db)
    requires Holds(life, db) && OnGrid(life)
    ensures var next := Next(life, Next(life, db, Resume(None, None)), Claim);
      && Holds(life, next)
      && Cap(PlanFor(life), next.ctx) ==
           Cap(PlanFor(life), db.ctx) + if PausedFor(db, Cost) then 2_000_000 else 0
  {
    hide Holds, Round4;
    HoldsGives(life, db);
    ResumedHolds(life, db, None, None);
    HoldsGives(life, Next(life, db, Resume(None, None)));
    if db.status.Paused? {
      ResumeRaisesCap(life, db.ctx, None, None);
      Round4OnGrid(Cap(PlanFor(life), db.ctx) + AddedUsd(db.ctx, None, None));
    }
  }

  lemma InitNoneSucceeded(life: Life, scripts: seq<seq<Attempt>>, n: nat)
    requires 0 < n <= |scripts| && NoneSucceeded(life, scripts[..n])
    ensures !Rounds(life, scripts[..n]).status.Succeeded?
    ensures NoneSucceeded(life, scripts[..n][..n - 1])
  {
    assert scripts[..n][..n] == scripts[..n];
    var init := scripts[..n][..n - 1];
    forall k | 1 <= k <= |init| ensures !Rounds(life, init[..k]).status.Succeeded? {
      assert init[..k] == scripts[..n][..k];
    }
  }

  function Init<T>(s: seq<T>): seq<T> {
    if s == [] then [] else s[..|s| - 1]
  }

  /** After some dispatches none of which succeeded: each one paused, and the cap went up by 2 USD
      for every cost pause but a last one. */
  lemma {:induction false} RoundsSoFar(life: Life, scripts: seq<seq<Attempt>>)
    requires OnGrid(life) && Patient(life, scripts)
    requires NoneSucceeded(life, Init(scripts))
    requires Reference(PlanFor(life), PlanFor(life).iterations, 0).Some?
    ensures var db := Rounds(life, scripts);
      && Holds(life, db)
      && (scripts != [] ==> db.status.Succeeded? || PausedFor(db, Cost) || PausedFor(db, StepTime))
      && Cap(PlanFor(life), db.ctx) == Cap(PlanFor(life), Created(life).ctx)
           + 2_000_000 * (Pauses(life, scripts, Cost) - if PausedFor(db, Cost) then 1 else 0)
      && (!db.status.Succeeded? ==>
            Pauses(life, scripts, Cost) + Pauses(life, scripts, StepTime) == |scripts|)
  {
    hide Holds, NoneSucceeded, Cells, Cap, OnlyStops, Trace, Next;
    if scripts == [] {
      CreatedHolds(life);
      CreatedReachable(life);
    } else {
      var n := |scripts| - 1;
      var init, script := scripts[..n], scripts[n];
      if n > 0 {
        InitNoneSucceeded(life, scripts, n);
      }
      assert script in scripts && forall s :: s in init ==> s in scripts;
      RoundsSoFar(life, init);
      RoundStep(life, Rounds(life, init), script);
    }
  }

  lemma CreatedReachable(life: Life)
    ensures Holds(life, Created(life)) && Created(life).status.Pending?
  {
    CreatedHolds(life);
  }

  lemma RoundStep(life: Life, before: Db, script: seq<Attempt>)
    requires Holds(life, before) && OnGrid(life) && OnlyStops(script) && |script| >= Cells(PlanFor(life), 0, 0)
    requires Reference(PlanFor(life), PlanFor(life).iterations, 0).Some?
    ensures var db := Round(life, before, script);
      && Holds(life, db)
      && (db.status.Succeeded? || PausedFor(db, Cost) || PausedFor(db, StepTime))
      && Cap(PlanFor(life), db.ctx) == Cap(PlanFor(life), before.ctx) + if PausedFor(before, Cost) then 2_000_000 else 0
  {
    hide Holds, Cells, Trace;
    RoundCap(life, before);
    var next := Next(life, Next(life, before, Resume(None, None)), Claim);
    ResolvedEnds(life, next, script);
    HoldsGives(life, Round(life, before, script));
  }

  lemma {:induction false} SpendGrows(rows: seq<Row>, k: nat)
    requires k <= |rows| && forall r :: r in rows ==> StepCost(r.output) >= 0
    ensures Spend(rows[..k]) <= Spend(rows)
    decreases |rows|
  {
    if k < |rows| {
      var init := rows[..|rows| - 1];
      SpendGrows(init, k);
      assert init[..k] == rows[..k] && rows[|rows| - 1] in rows;
    } else {
      assert rows[..k] == rows;
    }
  }

  /** How often a run whose steps cost `total` in all can pause on its cap, launched with `cap`. */
  function PauseBound(total: int, cap: nat): nat {
    if total < cap then 0 else (total - cap) / 2_000_000 + 1
  }

  /** With steps of non-negative cost, a run resumed with the default top-up after every pause pauses
      on the cap at most `PauseBound` times, however many time stops come in between. */
  lemma BoundedPauses(life: Life, scripts: seq<seq<Attempt>>)
    requires OnGrid(life) && Patient(life, scripts) && NoneSucceeded(life, scripts)
    requires Reference(PlanFor(life), PlanFor(life).iterations, 0).Some?
    requires forall r :: r in Reference(PlanFor(life), PlanFor(life).iterations, 0).value.rows ==> StepCost(r.output) >= 0
    ensures Pauses(life, scripts, Cost) <=
      PauseBound(Spend(Reference(PlanFor(life), PlanFor(life).iterations, 0).value.rows), Cap(PlanFor(life), Created(life).ctx))
    ensures Pauses(life, scripts, Cost) + Pauses(life, scripts, StepTime) == |scripts|
  {
    if scripts != [] {
      var n := |scripts| - 1;
      assert scripts[..|scripts|] == scripts;
      InitNoneSucceeded(life, scripts, |scripts|);
      RoundsSoFar(life, scripts);
      var db := Rounds(life, scripts);
      if PausedFor(db, Cost) {
        PausedSpend(life, db);
      } else {
        BoundedPauses(life, scripts[..n]);
      }
    }
  }

  lemma PausedSpend(life: Life, db: Db)
    requires Holds(life, db) && PausedFor(db, Cost)
    requires Reference(PlanFor(life), PlanFor(life).iterations, 0).Some?
    requires forall r :: r in Reference(PlanFor(life), PlanFor(life).iterations, 0).value.rows ==> StepCost(r.output) >= 0
    ensures Cap(PlanFor(life), db.ctx) <= Spend(Reference(PlanFor(life), PlanFor(life).iterations, 0).value.rows)
  {
    var k := PausedPrefix(life, db);
    SpendGrows(Reference(PlanFor(life), PlanFor(life).iterations, 0).value.rows, k);
  }

  /** So it succeeds: after more dispatches than the bound and its time stops allow, one has. */
  lemma BoundedResumes(life: Life, scripts: seq<seq<Attempt>>)
    requires OnGrid(life) && Patient(life, scripts)
    requires Reference(PlanFor(life), PlanFor(life).iterations, 0).Some?
    requires forall r :: r in Reference(PlanFor(life), PlanFor(life).iterations, 0).value.rows ==> StepCost(r.output) >= 0
    requires |scripts| > Pauses(life, scripts, StepTime) +
      PauseBound(Spend(Reference(PlanFor(life), PlanFor(life).iterations, 0).value.rows), Cap(PlanFor(life), Created(life).ctx))
    ensures exists k :: 1 <= k <= |scripts| && Rounds(life, scripts[..k]).status.Succeeded?
  {
    if NoneSucceeded(life, scripts) {
      BoundedPauses(life, scripts);
    }
  }

  // ----- continuing after a resumable stop --------------------------------------------------------

  function FirstCall(events: seq<Event>): Option<Call>
    decreases |events|
  {
    if events == [] then None
    else if events[0].Called? then Some(events[0].call)
    else FirstCall(events[1..])
  }

  /** From a cell before the frontier the executor calls no handler until the frontier, and there it
      calls one unless the cap is reached. */
  lemma {:induction false} FirstCallAtFrontier(life: Life, m: Machine, db: Db, it: nat, pos: nat, script: seq<Attempt>, fi: nat, fp: nat)
    requires Walking(life, m, db, it, pos, fi, fp) && fi < m.plan.iterations && fp < |m.plan.steps|
    ensures FirstCall(From(m, db, it, pos, script)) ==
      if CapReached(m, db.work.rows) then None else Some(CallAt(m, db.work.rows, fi, fp))
    decreases m.plan.iterations - it, |m.plan.steps| - pos
  {
    hide Walking, HoldsAt, SucceededAt, CellFrom, Spend, Reference, PausedDb, CallAt;
    FrontierAhead(life, m, db, it, pos, fi, fp);
    if pos == |m.plan.steps| {
      IterationEndWalks(life, m, db, it, fi, fp);
      var ended := IterationEndDb(m, db, it);
      FirstCallAtFrontier(life, m, ended, it + 1, 0, script, fi, fp);
      RunExecutor.UnfoldEnd(m, db, it, script);
      FirstCallSkip(Commit(ended), From(m, ended, it + 1, 0, script));
    } else {
      RunExecutor.Unfold(m, db, it, pos, script);
      if SucceededAt(db.work.rows, it, pos) {
        FirstCallAtFrontier(life, m, db, it, pos + 1, script, fi, fp);
      } else if CapReached(m, db.work.rows) {
        FirstCallSkip(Commit(PausedDb(m, db, Cost, it)), []);
      } else {
        var cell := CellFrom(m, db, it, pos, NextAttempt(script));
        FirstCallOfCell(m, db, it, pos, NextAttempt(script),
                        if cell.next.None? then [] else From(m, cell.next.value, it, pos + 1, Later(script)));
      }
    }
  }

  lemma FrontierAhead(life: Life, m: Machine, db: Db, it: nat, pos: nat, fi: nat, fp: nat)
    requires Walking(life, m, db, it, pos, fi, fp) && fi < m.plan.iterations && fp < |m.plan.steps|
    ensures it <= fi && pos <= |m.plan.steps| && (pos == |m.plan.steps| ==> it < fi)
    ensures pos < |m.plan.steps| ==>
      if SucceededAt(db.work.rows, it, pos) then Walking(life, m, db, it, pos + 1, fi, fp) else (it, pos) == (fi, fp)
  {
    Located(life, m, db, it, pos, fi, fp);
  }

  lemma FirstCallSkip(e: Event, events: seq<Event>)
    requires e.Commit?
    ensures FirstCall([e] + events) == FirstCall(events)
  {
    assert ([e] + events)[1..] == events;
  }

  lemma FirstCallOfCell(m: Machine, db: Db, it: nat, pos: nat, attempt: Attempt, events: seq<Event>)
    requires pos < |m.plan.steps|
    ensures FirstCall(CellFrom(m, db, it, pos, attempt).trail + events) == Some(CallAt(m, db.work.rows, it, pos))
  {
    var all := CellFrom(m, db, it, pos, attempt).trail + events;
    assert all[0] == Commit(OpenedDb(m, db, it, pos)) && all[1] == Called(CallAt(m, db.work.rows, it, pos));
    assert all == [all[0]] + all[1..] && all[1..][0] == all[1];
  }

  lemma FirstCallSkips(a: Event, b: Event, events: seq<Event>)
    requires a.Commit? && b.Commit?
    ensures FirstCall([a, b] + events) == FirstCall(events)
  {
    FirstCallSkip(b, events);
    FirstCallSkip(a, [b] + events);
    assert [a, b] + events == [a] + ([b] + events);
  }

  lemma RetriedCell(plan: Plan, rows: seq<Row>, finished: seq<Row>, fi: nat, fp: nat)
    requires InFlight(plan, rows, finished, fi, fp) && RowsOk(plan, rows)
    requires forall r :: r in finished ==> r.status.RowSucceeded?
    ensures (fi, fp) in Retried(rows, plan.iterations)
    ensures var last := rows[|finished|]; var prior := PriorOutputs(rows, plan.iterations);
      if last.output == map[] then (fi, fp) !in prior else (fi, fp) in prior && prior[(fi, fp)] == last.output
  {
    var last := rows[|finished|];
    assert rows == finished + [last];
    assert last in rows && Unfinished(last, plan.iterations) && Cell(last) == (fi, fp);
    if last.output != map[] {
      RunExecutor.PriorOfRow(plan, rows, plan.iterations, last);
    } else if (fi, fp) in PriorOutputs(rows, plan.iterations) {
      var r := RunExecutor.RowOfPrior(rows, plan.iterations, (fi, fp));
    }
  }

  /** A run that stopped resumably at a cell and was resumed: the next dispatch's first handler call
      is at that cell, second attempt, with the stopped attempt's non-empty output; that is so exactly
      unless the recorded spend has reached the cap, which it cannot have with caps on the grid. */
  lemma ContinuesWhereItStopped(life: Life, acts: seq<Act>, addUsd: Option<nat>, addTime: Option<nat>, script: seq<Attempt>)
    requires PausedFor(After(life, acts), StepTime)
    ensures var stopped := After(life, acts);
      var plan := PlanFor(life);
      var rows := stopped.work.rows;
      var again := Next(life, Next(life, stopped, Resume(addUsd, addTime)), Claim);
      && rows != [] && rows[|rows| - 1].status.RowFailed?
      && PlanOf(life.workflow, again.ctx) == plan
      && var row := rows[|rows| - 1];
      && FirstCall(Trace(plan, again, script)) == (
           if CapReached(MachineOf(plan, again), rows) then None
           else Some(Call(row.iteration, row.position, OutputsOf(rows, row.iteration), HistoryOf(rows, row.iteration),
                          2, if row.output == map[] then None else Some(row.output))))
      && (OnGrid(life) ==> !CapReached(MachineOf(plan, again), rows))
  {
    hide Next, Trace, MachineOf, ReplayedDb, StartedDb, Walking, Spend, CapReached, Kept, Ordered, InFlight, OutputsOf, HistoryOf,
      RowsOk, PriorOutputs, Retried, From, Reference;
    var stopped, plan := After(life, acts), PlanFor(life);
    ReachableHolds(life, acts);
    var fi, fp :| HoldsAt(life, stopped, fi, fp);
    var rows, finished := stopped.work.rows, Reference(plan, fi, fp).value.rows;
    var again := Next(life, Next(life, stopped, Resume(addUsd, addTime)), Claim);
    StoppedAgain(life, stopped, again, addUsd, addTime, fi, fp);
    ReferenceOrdered(plan, fi, fp);
    SpendOfFinished(plan, rows, finished, fi, fp);
    InFlightOutputs(plan, rows, finished, fi, fp);
    ContinuesFrom(life, again, script, fi, fp);
    CapReachedOnSpend(MachineOf(plan, again), rows, finished);
  }

  lemma CapReachedOnSpend(m: Machine, rows: seq<Row>, finished: seq<Row>)
    requires Spend(rows) == Spend(finished)
    ensures CapReached(m, rows) == CapReached(m, finished)
  {}

  /** The first call of a dispatch that finds an unfinished row. */
  lemma ContinuesFrom(life: Life, db: Db, script: seq<Attempt>, fi: nat, fp: nat)
    requires HoldsAt(life, db, fi, fp)
    requires db.work.rows != Reference(PlanFor(life), fi, fp).value.rows
    ensures var plan := PlanFor(life);
      var finished := Reference(plan, fi, fp).value.rows;
      && PlanOf(life.workflow, db.ctx) == plan
      && |db.work.rows| == |finished| + 1
      && var row := db.work.rows[|finished|];
      && Cell(row) == (fi, fp)
      && FirstCall(Trace(plan, db, script)) == (
           if CapReached(MachineOf(plan, db), finished) then None
           else Some(Call(fi, fp, OutputsOf(finished, fi), HistoryOf(finished, fi),
                          2, if row.output == map[] then None else Some(row.output))))
  {
    hide OutputsOf, HistoryOf, Spend, Kept, From, Reference, CapReached, RowsOk, Ordered, Retried, PriorOutputs;
    var plan := PlanFor(life);
    var finished := Reference(plan, fi, fp).value.rows;
    ReferenceOrdered(plan, fi, fp);
    OrderedSucceeded(plan, finished, fi, fp);
    InFlightRowsOk(plan, db.work.rows, finished, fi, fp);
    BeginWalks(life, db, fi, fp);
    ReplayKeepsFinished(life, db, fi, fp);
    var m, replayed := MachineOf(plan, db), ReplayedDb(plan, db);
    RetriedCell(plan, db.work.rows, finished, fi, fp);
    FirstCallAtFrontier(life, m, replayed, 0, 0, script, fi, fp);
    FirstCallSkips(Commit(StartedDb(db)), Commit(replayed), From(m, replayed, 0, 0, script));
  }

  lemma OrderedSucceeded(plan: Plan, rows: seq<Row>, fi: nat, fp: nat)
    requires Ordered(plan, rows, fi, fp)
    ensures forall r :: r in rows ==> r.status.RowSucceeded?
  {}

  lemma StoppedAgain(life: Life, stopped: Db, again: Db, addUsd: Option<nat>, addTime: Option<nat>, fi: nat, fp: nat)
    requires HoldsAt(life, stopped, fi, fp) && PausedFor(stopped, StepTime)
    requires again == Next(life, Next(life, stopped, Resume(addUsd, addTime)), Claim)
    ensures HoldsAt(life, again, fi, fp) && again.work == stopped.work
    ensures InFlight(PlanFor(life), stopped.work.rows, Reference(PlanFor(life), fi, fp).value.rows, fi, fp)
    ensures stopped.work.rows[|Reference(PlanFor(life), fi, fp).value.rows|].status.RowFailed?
    ensures OnGrid(life) ==>
      !CapReached(MachineOf(PlanFor(life), again), Reference(PlanFor(life), fi, fp).value.rows)
  {
    hide Round4, AddedUsd, AddedTime, Spend, Reference, Retried, PriorOutputs;
    MatchesSome(PlanFor(life), stopped.work, fi, fp);
    if OnGrid(life) {
      ResumeRaisesCap(life, stopped.ctx, addUsd, addTime);
    }
  }

  lemma InFlightOutputs(plan: Plan, rows: seq<Row>, finished: seq<Row>, fi: nat, fp: nat)
    requires InFlight(plan, rows, finished, fi, fp)
    ensures OutputsOf(rows, fi) == OutputsOf(finished, fi) && HistoryOf(rows, fi) == HistoryOf(finished, fi)
  {
    assert rows == finished + [rows[|finished|]];
    forall i: nat ensures OutputsOf(rows, i) == OutputsOf(finished, i) {
      RunExecutor.OutputsOfSnoc(finished, rows[|finished|], i);
    }
  }

  // ----- every handler call --------------------------------------------------------------------------

  /** The call is at an unfinished cell and gets what the uninterrupted execution has there. */
  ghost predicate CallRight(m: Machine, c: Call, fi: nat, fp: nat) {
    && c.iteration < m.plan.iterations && c.position < |m.plan.steps| && !Before((c.iteration, c.position), (fi, fp))
    && Reference(m.plan, c.iteration, c.position).Some?
    && c == CallAt(m, Reference(m.plan, c.iteration, c.position).value.rows, c.iteration, c.position)
  }

  ghost predicate CallsRight(m: Machine, events: seq<Event>, fi: nat, fp: nat) {
    forall e :: e in events && e.Called? ==> CallRight(m, e.call, fi, fp)
  }

  lemma CallsRightThen(m: Machine, a: seq<Event>, b: seq<Event>, fi: nat, fp: nat)
    requires CallsRight(m, a, fi, fp) && CallsRight(m, b, fi, fp)
    ensures CallsRight(m, a + b, fi, fp)
  {}

  lemma NoCalls(m: Machine, e: Event, fi: nat, fp: nat)
    requires e.Commit?
    ensures CallsRight(m, [e], fi, fp)
  {}

  lemma {:induction false} SavesCallNothing(db: Db, saves: seq<Output>)
    requires db.work.rows != []
    ensures forall e :: e in SaveTrail(db, saves) ==> e.Commit?
    decreases |saves|
  {
    if saves != [] {
      SavesCallNothing(db.(work := Checkpointed(db.work, saves[0])), saves[1..]);
    }
  }

  lemma CellCallsRight(life: Life, m: Machine, db: Db, it: nat, pos: nat, attempt: Attempt)
    requires Walking(life, m, db, it, pos, it, pos) && it < m.plan.iterations && pos < |m.plan.steps|
    ensures CallsRight(m, CellFrom(m, db, it, pos, attempt).trail, it, pos)
  {
    hide Reference, CallAt, ResultAt, SaveTrail, AfterSaves, CallsRight, Walking;
    WalkingKnown(life, m, db, it, pos);
    WalkingRows(life, m, db, it, pos);
    var begun := OpenedDb(m, db, it, pos);
    var saved := begun.(work := AfterSaves(begun.work, attempt.saves));
    var call := CallAt(m, db.work.rows, it, pos);
    CallNames(m, db.work.rows, it, pos);
    var rest := EndingFrom(m, saved, it, ResultAt(m.plan, db.work.rows, it, pos), attempt.ending).trail;
    SavesCallNothing(begun, attempt.saves);
    OpeningCall(m, begun, call, it, pos);
    EndingCallsNothing(m, saved, it, ResultAt(m.plan, db.work.rows, it, pos), attempt.ending);
    OnlyCommits(m, SaveTrail(begun, attempt.saves), it, pos);
    OnlyCommits(m, rest, it, pos);
    CallsRightThen(m, [Commit(begun), Called(call)], SaveTrail(begun, attempt.saves), it, pos);
    CallsRightThen(m, [Commit(begun), Called(call)] + SaveTrail(begun, attempt.saves), rest, it, pos);
  }

  lemma CallNames(m: Machine, rows: seq<Row>, it: nat, pos: nat)
    ensures CallAt(m, rows, it, pos).iteration == it && CallAt(m, rows, it, pos).position == pos
  {}

  lemma WalkingRows(life: Life, m: Machine, db: Db, it: nat, pos: nat)
    requires Walking(life, m, db, it, pos, it, pos)
    ensures pos <= |m.plan.steps| && Reference(m.plan, it, pos).Some? && db.work.rows == Reference(m.plan, it, pos).value.rows
  {
    WalkingKnown(life, m, db, it, pos);
  }

  lemma OpeningCall(m: Machine, begun: Db, call: Call, it: nat, pos: nat)
    requires call.iteration == it && call.position == pos && CallRight(m, call, it, pos)
    ensures CallsRight(m, [Commit(begun), Called(call)], it, pos)
  {}

  lemma EndingCallsNothing(m: Machine, saved: Db, it: nat, result: StepResult, ending: Ending)
    requires saved.work.rows != []
    ensures forall e :: e in EndingFrom(m, saved, it, result, ending).trail ==> e.Commit?
  {}

  lemma OnlyCommits(m: Machine, events: seq<Event>, fi: nat, fp: nat)
    requires forall e :: e in events ==> e.Commit?
    ensures CallsRight(m, events, fi, fp)
  {}

  lemma CallsLater(m: Machine, events: seq<Event>, it: nat, pos: nat, fi: nat, fp: nat)
    requires CallsRight(m, events, it, pos) && !Before((it, pos), (fi, fp))
    ensures CallsRight(m, events, fi, fp)
  {
    hide Reference, CallAt;
  }

  lemma {:induction false} FromCalls(life: Life, m: Machine, db: Db, it: nat, pos: nat, script: seq<Attempt>, fi: nat, fp: nat)
    requires Walking(life, m, db, it, pos, fi, fp) && (it >= m.plan.iterations ==> pos == 0)
    ensures CallsRight(m, From(m, db, it, pos, script), fi, fp)
    decreases m.plan.iterations - it, |m.plan.steps| - pos
  {
    hide Walking, HoldsAt, SucceededAt, CellFrom, Spend, Reference, CallsRight, MachineOk, PausedDb, IterationEndDb, SucceededDb, From;
    Located(life, m, db, it, pos, fi, fp);
    if it >= m.plan.iterations {
      RunExecutor.UnfoldLast(m, db, it, script);
      NoCalls(m, Commit(SucceededDb(m, db)), fi, fp);
    } else if pos == |m.plan.steps| {
      IterationEndWalks(life, m, db, it, fi, fp);
      RunExecutor.UnfoldEnd(m, db, it, script);
      var ended := IterationEndDb(m, db, it);
      if fi == it {
        FromCalls(life, m, ended, it + 1, 0, script, it + 1, 0);
        CallsLater(m, From(m, ended, it + 1, 0, script), it + 1, 0, fi, fp);
      } else {
        FromCalls(life, m, ended, it + 1, 0, script, fi, fp);
      }
      NoCalls(m, Commit(ended), fi, fp);
      CallsRightThen(m, [Commit(ended)], From(m, ended, it + 1, 0, script), fi, fp);
    } else {
      RunExecutor.Unfold(m, db, it, pos, script);
      if SucceededAt(db.work.rows, it, pos) {
        FromCalls(life, m, db, it, pos + 1, script, fi, fp);
      } else if CapReached(m, db.work.rows) {
        NoCalls(m, Commit(PausedDb(m, db, Cost, it)), fi, fp);
      } else {
        var cell := CellFrom(m, db, it, pos, NextAttempt(script));
        CellHolds(life, m, db, it, pos, NextAttempt(script));
        CellCallsRight(life, m, db, it, pos, NextAttempt(script));
        if cell.next.Some? {
          var tail := From(m, cell.next.value, it, pos + 1, Later(script));
          FromCalls(life, m, cell.next.value, it, pos + 1, Later(script), it, pos + 1);
          CallsLater(m, tail, it, pos + 1, it, pos);
          CallsRightThen(m, cell.trail, tail, it, pos);
        } else {
          assert cell.trail + [] == cell.trail;
        }
      }
    }
  }

  /** Every handler call of every dispatch from every reachable state: at a cell without a succeeded row,
      with the outputs and the history the uninterrupted execution has there, a second attempt exactly if
      the cell has an unfinished row, with what that row had recorded. */
  lemma EveryCallRight(life: Life, acts: seq<Act>, script: seq<Attempt>, c: Call)
    requires Called(c) in Trace(PlanFor(life), After(life, acts), script)
    ensures var plan, rows := PlanFor(life), After(life, acts).work.rows;
      && c.iteration < plan.iterations && c.position < |plan.steps| && !SucceededAt(rows, c.iteration, c.position)
      && Reference(plan, c.iteration, c.position).Some?
      && var there := Reference(plan, c.iteration, c.position).value.rows;
      && c.outputs == OutputsOf(there, c.iteration) && c.history == HistoryOf(there, c.iteration)
      && c.attempt == (if (c.iteration, c.position) in Retried(rows, plan.iterations) then 2 else 1)
      && var prior := PriorOutputs(rows, plan.iterations);
      && c.prior == (if (c.iteration, c.position) in prior then Some(prior[(c.iteration, c.position)]) else None)
  {
    hide Trace, From, CallsRight, Walking, OutputsOf, HistoryOf, Retried, PriorOutputs, Reference;
    var db, plan := After(life, acts), PlanFor(life);
    ReachableHolds(life, acts);
    var fi, fp :| HoldsAt(life, db, fi, fp);
    BeginWalks(life, db, fi, fp);
    var m, replayed := MachineOf(plan, db), ReplayedDb(plan, db);
    FromCalls(life, m, replayed, 0, 0, script, fi, fp);
    TraceCalls(plan, db, script, fi, fp, c);
    FrontierCells(life, db, fi, fp, c.iteration, c.position);
  }

  lemma TraceCalls(plan: Plan, db: Db, script: seq<Attempt>, fi: nat, fp: nat, c: Call)
    requires CallsRight(MachineOf(plan, db), From(MachineOf(plan, db), ReplayedDb(plan, db), 0, 0, script), fi, fp)
    requires Called(c) in Trace(plan, db, script)
    ensures CallRight(MachineOf(plan, db), c, fi, fp)
  {
    hide CallRight, From;
  }

  lemma FrontierCells(life: Life, db: Db, fi: nat, fp: nat, it: nat, pos: nat)
    requires HoldsAt(life, db, fi, fp)
    ensures SucceededAt(db.work.rows, it, pos) ==> Before((it, pos), (fi, fp))
  {
    hide Reference, SucceededAt, Ordered;
    var plan := PlanFor(life);
    var finished := Reference(plan, fi, fp).value.rows;
    ReferenceOrdered(plan, fi, fp);
    ReferenceCells(plan, fi, fp, it, pos);
    if db.work.rows != finished {
      InFlightRowsOk(plan, db.work.rows, finished, fi, fp);
    }
  }

  // ----- statuses a dispatch commits --------------------------------------------------------------

  /** Everything a dispatch commits before its last event is `running`. */
  predicate RunningUntilLast(events: seq<Event>) {
    forall i :: 0 <= i < |events| - 1 && events[i].Commit? ==> events[i].db.status.Running?
  }

  predicate AllRunning(events: seq<Event>) {
    forall e :: e in events && e.Commit? ==> e.db.status.Running?
  }

  lemma RunningThen(front: seq<Event>, events: seq<Event>)
    requires AllRunning(front) && RunningUntilLast(events)
    ensures RunningUntilLast(front + events)
  {
    forall i | 0 <= i < |front + events| - 1 && (front + events)[i].Commit?
      ensures (front + events)[i].db.status.Running?
    {
      if i < |front| {
        assert (front + events)[i] in front;
      }
    }
  }

  lemma {:induction false} SavesRunning(db: Db, saves: seq<Output>)
    requires db.work.rows != [] && db.status.Running?
    ensures AllRunning(SaveTrail(db, saves))
    decreases |saves|
  {
    if saves != [] {
      SavesRunning(db.(work := Checkpointed(db.work, saves[0])), saves[1..]);
    }
  }

  lemma CellRunning(m: Machine, db: Db, it: nat, pos: nat, attempt: Attempt)
    requires pos < |m.plan.steps| && db.status.Running?
    ensures var cell := CellFrom(m, db, it, pos, attempt);
      && RunningUntilLast(cell.trail)
      && (cell.next.Some? ==> AllRunning(cell.trail) && cell.next.value.status.Running?)
  {
    hide ResultAt, CallAt, AfterSaves, SaveTrail, Spend, Absorbed;
    var begun := OpenedDb(m, db, it, pos);
    SavesRunning(begun, attempt.saves);
    var front := [Commit(begun), Called(CallAt(m, db.work.rows, it, pos))] + SaveTrail(begun, attempt.saves);
    assert AllRunning(front);
    var saved := begun.(work := AfterSaves(begun.work, attempt.saves));
    var rest := EndingFrom(m, saved, it, ResultAt(m.plan, db.work.rows, it, pos), attempt.ending);
    RunningThen(front, rest.trail);
  }

  lemma {:induction false} FromRunning(m: Machine, db: Db, it: nat, pos: nat, script: seq<Attempt>)
    requires pos <= |m.plan.steps| && db.status.Running?
    ensures RunningUntilLast(From(m, db, it, pos, script))
    decreases m.plan.iterations - it, |m.plan.steps| - pos
  {
    hide CellFrom, RunningUntilLast, AllRunning, PausedDb, SucceededDb;
    if it >= m.plan.iterations {
      OneEvent(Commit(SucceededDb(m, db)));
    } else if pos == |m.plan.steps| {
      RunExecutor.UnfoldEnd(m, db, it, script);
      var ended := IterationEndDb(m, db, it);
      FromRunning(m, ended, it + 1, 0, script);
      OneEvent(Commit(ended));
      RunningThen([Commit(ended)], From(m, ended, it + 1, 0, script));
    } else {
      RunExecutor.Unfold(m, db, it, pos, script);
      if SucceededAt(db.work.rows, it, pos) {
        FromRunning(m, db, it, pos + 1, script);
      } else if CapReached(m, db.work.rows) {
        OneEvent(Commit(PausedDb(m, db, Cost, it)));
      } else {
        var cell := CellFrom(m, db, it, pos, NextAttempt(script));
        CellRunning(m, db, it, pos, NextAttempt(script));
        if cell.next.Some? {
          FromRunning(m, cell.next.value, it, pos + 1, Later(script));
          RunningThen(cell.trail, From(m, cell.next.value, it, pos + 1, Later(script)));
        } else {
          assert cell.trail + [] == cell.trail;
        }
      }
    }
  }

  lemma OneEvent(e: Event)
    ensures RunningUntilLast([e])
    ensures e.Commit? && e.db.status.Running? ==> AllRunning([e])
  {}

  /** A dispatch commits `running` until its very last event, from whatever state it starts. */
  lemma DispatchRunning(plan: Plan, db: Db, script: seq<Attempt>)
    ensures RunningUntilLast(Trace(plan, db, script))
  {
    var m, replayed := MachineOf(plan, db), ReplayedDb(plan, db);
    FromRunning(m, replayed, 0, 0, script);
    RunningThen([Commit(StartedDb(db)), Commit(replayed)], From(m, replayed, 0, 0, script));
  }

  predicate NoDispatch(acts: seq<Act>) {
    forall a :: a in acts ==> !a.Execute?
  }

  /** No sequence of claims, retries and resumes changes the run. */
  ghost predicate Stuck(life: Life, db: Db) {
    forall acts :: NoDispatch(acts) ==> Fold(life, db, acts) == db
  }

  lemma FoldOne(life: Life, db: Db, act: Act)
    ensures Fold(life, db, [act]) == Next(life, db, act)
  {
    assert [act][..0] == [];
  }

  /** Claim, retry and resume leave a run alone for good exactly if it is scheduled, running or succeeded. */
  lemma StuckIff(life: Life, db: Db)
    ensures Stuck(life, db) <==> db.status.Scheduled? || db.status.Running? || db.status.Succeeded?
  {
    if db.status.Scheduled? || db.status.Running? || db.status.Succeeded? {
      forall acts | NoDispatch(acts) ensures Fold(life, db, acts) == db {
        FoldStuck(life, db, acts);
      }
    } else {
      var act := if db.status.Pending? then Claim else if db.status.Paused? then Resume(None, None) else Retry;
      FoldOne(life, db, act);
      assert NoDispatch([act]) && Next(life, db, act).status != db.status;
    }
  }

  /** A runner that dies after its claim and before its last commit leaves the run stuck: `scheduled` if it
      died before the first commit, else `running`. Only calling the executor on it directly goes on. */
  lemma StuckAfterCrash(life: Life, db: Db, script: seq<Attempt>, cut: nat)
    requires db.status.Scheduled? && cut < |Trace(PlanOf(life.workflow, db.ctx), db, script)|
    ensures var left := Executed(life, db, script, cut);
      && (if cut == 0 then left == db else left.status.Running?)
      && Stuck(life, left)
  {
    hide Trace, Stuck;
    var trace := Trace(PlanOf(life.workflow, db.ctx), db, script);
    if cut > 0 {
      DispatchRunning(PlanOf(life.workflow, db.ctx), db, script);
      TraceBegins(PlanOf(life.workflow, db.ctx), db, script);
      LastRunning(db, trace, cut);
    }
    StuckIff(life, Executed(life, db, script, cut));
  }

  lemma TraceBegins(plan: Plan, db: Db, script: seq<Attempt>)
    ensures Trace(plan, db, script) != [] && Trace(plan, db, script)[0].Commit?
  {}

  function Fold(life: Life, db: Db, acts: seq<Act>): Db {
    if acts == [] then db else Next(life, Fold(life, db, acts[..|acts| - 1]), acts[|acts| - 1])
  }

  lemma {:induction false} FoldStuck(life: Life, db: Db, acts: seq<Act>)
    requires (db.status.Scheduled? || db.status.Running? || db.status.Succeeded?) && NoDispatch(acts)
    ensures Fold(life, db, acts) == db
  {
    if acts != [] {
      FoldStuck(life, db, acts[..|acts| - 1]);
      assert acts[|acts| - 1] in acts;
    }
  }

  lemma {:induction false} LastRunning(db: Db, events: seq<Event>, cut: nat)
    requires 0 < cut < |events| && RunningUntilLast(events) && events[0].Commit?
    ensures LastCommit(db, events[..cut]).status.Running?
  {
    assert events[..cut][cut - 1] == events[cut - 1] && events[..cut][..cut - 1] == events[..cut - 1];
    if !events[cut - 1].Commit? {
      LastRunning(db, events, cut - 1);
    }
  }

  /** A handler that returns a prompt the lab has not registered crashes the dispatch: the run stays
      `running` with its row unfinished and nothing of the result stored. */
  lemma UnregisteredPromptCrashes(m: Machine, db: Db, it: nat, pos: nat, saves: seq<Output>, rest: seq<Attempt>)
    requires it < m.plan.iterations && pos < |m.plan.steps| && db.status.Running?
    requires !SucceededAt(db.work.rows, it, pos) && !CapReached(m, db.work.rows)
    requires Resolved(m.plan, ResultAt(m.plan, db.work.rows, it, pos)).None?
    ensures var events := From(m, db, it, pos, [Attempt(saves, Succeeds)] + rest);
      && AllRunning(events)
      && var last := LastCommit(db, events);
      && last.work.candidates == db.work.candidates && last.work.results == db.work.results
      && last.work.rows != []
      && last.work.rows == db.work.rows + [OpenRow(m.plan, it, pos).(output := last.work.rows[|last.work.rows| - 1].output)]
  {
    hide CellFrom, ResultAt, Resolved, From, CapReached, SucceededAt, CallAt, AfterSaves, SaveTrail, LastCommit, AllRunning;
    var begun := OpenedDb(m, db, it, pos);
    var front := [Commit(begun), Called(CallAt(m, db.work.rows, it, pos))];
    var script := [Attempt(saves, Succeeds)] + rest;
    RunExecutor.Unfold(m, db, it, pos, script);
    CapUnreached(m, db.work.rows);
    UnresolvedCell(m, db, it, pos, saves);
    assert NextAttempt(script) == Attempt(saves, Succeeds);
    assert From(m, db, it, pos, script) == front + SaveTrail(begun, saves);
    CrashTrail(m, db, begun, CallAt(m, db.work.rows, it, pos), saves);
    var after := AfterSaves(begun.work, saves);
    assert after.rows == db.work.rows + [after.rows[|after.rows| - 1]];
  }

  lemma CapUnreached(m: Machine, rows: seq<Row>)
    ensures CapReached(m, rows) <==> m.budget != 0 && Spend(rows) >= m.budget
  {}

  lemma CrashTrail(m: Machine, db: Db, begun: Db, call: Call, saves: seq<Output>)
    requires begun.work.rows != [] && begun.status.Running?
    ensures var events := [Commit(begun), Called(call)] + SaveTrail(begun, saves);
      AllRunning(events) && LastCommit(db, events) == begun.(work := AfterSaves(begun.work, saves))
  {
    var front := [Commit(begun), Called(call)];
    SavesRunning(begun, saves);
    assert front[..1] == [Commit(begun)];
    SavesLast(db, front, begun, saves);
  }

  lemma UnresolvedCell(m: Machine, db: Db, it: nat, pos: nat, saves: seq<Output>)
    requires pos < |m.plan.steps| && Resolved(m.plan, ResultAt(m.plan, db.work.rows, it, pos)).None?
    ensures var begun := OpenedDb(m, db, it, pos);
      CellFrom(m, db, it, pos, Attempt(saves, Succeeds)) ==
        CellRun([Commit(begun), Called(CallAt(m, db.work.rows, it, pos))] + SaveTrail(begun, saves), None)
  {}

  lemma CommitLast(start: Db, front: seq<Event>, db: Db)
    ensures LastCommit(start, front + [Commit(db)]) == db
  {}

  lemma {:induction false} SavesLast(start: Db, front: seq<Event>, db: Db, saves: seq<Output>)
    requires db.work.rows != [] && LastCommit(start, front) == db
    ensures LastCommit(start, front + SaveTrail(db, saves)) == db.(work := AfterSaves(db.work, saves))
    decreases |saves|
  {
    if saves == [] {
      assert front + [] == front;
    } else {
      hide Checkpointed;
      var next := db.(work := Checkpointed(db.work, saves[0]));
      CommitLast(start, front, next);
      SavesLast(start, front + [Commit(next)], next, saves[1..]);
      assert front + SaveTrail(db, saves) == front + [Commit(next)] + SaveTrail(next, saves[1..]);
    }
  }

  // ----- why handler keys must be distinct --------------------------------------------------------

  /** Replaying rebuilds the same outputs from every order of every committed set of rows. */
  ghost predicate ReplayStable(plan: Plan) {
    forall rows, prior, it: nat :: RowsOk(plan, rows) && multiset(rows) == multiset(prior) ==>
      OutputsOf(rows, it) == OutputsOf(prior, it)
  }

  /** Rows come back in no particular order, so replay is sound exactly when handler keys are distinct. */
  lemma ReplayStableIffDistinct(plan: Plan)
    requires plan.iterations > 0
    ensures ReplayStable(plan) <==> DistinctHandlers(plan.steps)
  {
    if DistinctHandlers(plan.steps) {
      forall rows, prior, it: nat | RowsOk(plan, rows) && multiset(rows) == multiset(prior)
        ensures OutputsOf(rows, it) == OutputsOf(prior, it)
      {
        RunExecutor.PermutedRowsOk(plan, rows, prior);
        RunExecutor.ReplayInAnyOrder(plan, rows, prior, it);
      }
    } else {
      var p, q :| 0 <= p < q < |plan.steps| && plan.steps[p].handler == plan.steps[q].handler;
      var rows, prior := ReplayUnstable(plan, p, q);
    }
  }

  /** Two rows of the same handler in one iteration replay differently in the two orders. */
  lemma ReplayUnstable(plan: Plan, p: nat, q: nat) returns (rows: seq<Row>, prior: seq<Row>)
    requires plan.iterations > 0 && p < q < |plan.steps| && plan.steps[p].handler == plan.steps[q].handler
    ensures RowsOk(plan, rows) && multiset(rows) == multiset(prior)
    ensures OutputsOf(rows, 0) != OutputsOf(prior, 0)
  {
    var a := OpenRow(plan, 0, p).(status := RowSucceeded);
    var b := OpenRow(plan, 0, q).(status := RowSucceeded, output := map["x" := Null]);
    rows, prior := [a] + [b], [b] + [a];
    assert rows == [a, b];
    RunExecutor.OutputsOfSnoc([a], b, 0);
    RunExecutor.OutputsOfSnoc([b], a, 0);
    assert OutputsOf(rows, 0)[a.handler] == map["x" := Null];
    assert "x" in OutputsOf(rows, 0)[a.handler] && "x" !in OutputsOf(prior, 0)[a.handler];
  }
}
