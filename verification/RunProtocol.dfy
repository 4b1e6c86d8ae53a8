/** The life of a run under an adversary who chooses how every handler call goes, when the process
    dies and which API calls arrive: what every reachable committed state satisfies. */
module RunProtocol {
  import opened Options
  import opened RunModel
  import opened RunReference
  import RunExecutor

  /** The body of the request that created the run. */
  datatype Launch = Launch(iterations: Option<nat>, agent: string, budget: Option<nat>)

  datatype Life = Life(workflow: Workflow, launch: Launch)

  /** `create_run`. */
  function Created(life: Life): Db {
    var w := life.workflow;
    Db(Pending,
       Context(OrDefault(life.launch.iterations, w.iterations), life.launch.agent,
               Some(life.launch.budget.GetOr(w.defaultBudget)), None, None, None, None),
       Work([], [], [], ""))
  }

  function PlanFor(life: Life): Plan {
    PlanOf(life.workflow, Created(life).ctx)
  }

  /** `round(x, 4)` of a USD amount: the nearest multiple of 100 micro-USD, ties to even. */
  function Round4(x: nat): nat {
    var q, r := x / 100, x % 100;
    if r < 50 || (r == 50 && q % 2 == 0) then q * 100 else (q + 1) * 100
  }

  /** What a resume adds: with nothing specified, the default for whatever the run ran out of. */
  function AddedUsd(ctx: Context, addUsd: Option<nat>, addTime: Option<nat>): nat {
    if addUsd.None? && addTime.None? && ctx.pausedKind != Some(StepTime) then 2_000_000 else addUsd.GetOr(0)
  }

  function AddedTime(ctx: Context, addUsd: Option<nat>, addTime: Option<nat>): nat {
    if addUsd.None? && addTime.None? && ctx.pausedKind == Some(StepTime) then 36_000 else addTime.GetOr(0)
  }

  /** `resume_run` on a paused run. */
  function ToppedUp(workflow: Workflow, ctx: Context, addUsd: Option<nat>, addTime: Option<nat>): Context {
    var usd, time := AddedUsd(ctx, addUsd, addTime), AddedTime(ctx, addUsd, addTime);
    ctx.(budget := if usd != 0 then Some(Round4(OrDefault(ctx.budget, workflow.defaultBudget) + usd)) else ctx.budget,
         timeout := if time != 0 then Some(OrDefault(ctx.timeout, workflow.defaultTimeout) + time) else ctx.timeout,
         pausedKind := None)
  }

  /** What can happen to a run. `Execute` is one call of the executor of which only the first `cut`
      events take effect: the process dies then, or the call ends before. */
  datatype Act =
    | Claim
    | Execute(script: seq<Attempt>, cut: nat)
    | Retry
    | Resume(addUsd: Option<nat>, addTime: Option<nat>)

  function LastCommit(db: Db, events: seq<Event>): Db {
    if events == [] then db
    else
      var last := events[|events| - 1];
      if last.Commit? then last.db else LastCommit(db, events[..|events| - 1])
  }

  function CutAt<T>(s: seq<T>, cut: nat): seq<T> {
    if cut <= |s| then s[..cut] else s
  }

  function Executed(life: Life, db: Db, script: seq<Attempt>, cut: nat): Db {
    LastCommit(db, CutAt(Trace(PlanOf(life.workflow, db.ctx), db, script), cut))
  }

  /** The API refuses a transition from any other status and changes nothing. */
  function Next(life: Life, db: Db, act: Act): Db {
    match act
    case Claim => if db.status.Pending? then db.(status := Scheduled) else db
    case Execute(script, cut) => Executed(life, db, script, cut)
    case Retry => if db.status.Failed? || db.status.Cancelled? then db.(status := Pending) else db
    case Resume(addUsd, addTime) =>
      if db.status.Paused? then db.(status := Pending, ctx := ToppedUp(life.workflow, db.ctx, addUsd, addTime)) else db
  }

  function After(life: Life, acts: seq<Act>): Db {
    if acts == [] then Created(life)
    else Next(life, After(life, acts[..|acts| - 1]), acts[|acts| - 1])
  }

  // ----- the invariant -------------------------------------------------------------------------

  function Bare(candidates: seq<Candidate>): seq<Candidate> {
    seq(|candidates|, i requires 0 <= i < |candidates| => candidates[i].(evaluated := false))
  }

  /** The work is the reference's up to cell `(fi, fp)`, whatever is marked evaluated, and at most
      one more row, unfinished and at that cell. */
  ghost predicate Matches(plan: Plan, work: Work, fi: nat, fp: nat) {
    && fp <= |plan.steps| && Reference(plan, fi, fp).Some?
    && var ref := Reference(plan, fi, fp).value;
    && Bare(work.candidates) == ref.candidates && work.results == ref.results && work.summary == ref.summary
    && (work.rows == ref.rows || InFlight(plan, work.rows, ref.rows, fi, fp))
  }

  ghost predicate InFlight(plan: Plan, rows: seq<Row>, finished: seq<Row>, fi: nat, fp: nat) {
    && fi < plan.iterations
    && |rows| == |finished| + 1 && rows[..|finished|] == finished
    && RowOf(plan, rows[|finished|], fi, fp) && !rows[|finished|].status.RowSucceeded?
  }

  predicate AllEvaluated(candidates: seq<Candidate>, it: nat) {
    forall c :: c in candidates && c.iteration < it ==> c.evaluated
  }

  /** Caps and the default are positive and on the 4-decimal grid. */
  predicate OnGrid(life: Life) {
    && life.workflow.defaultBudget > 0 && life.workflow.defaultBudget % 100 == 0
    && (life.launch.budget.Some? ==> life.launch.budget.value % 100 == 0)
  }

  /** The steps before the last succeeded one cost less than the cap. */
  ghost predicate Bounded(plan: Plan, ctx: Context, finished: seq<Row>) {
    && Cap(plan, ctx) > 0 && Cap(plan, ctx) % 100 == 0
    && (finished != [] ==> Spend(finished[..|finished| - 1]) < Cap(plan, ctx))
  }

  /** What the status promises about the work. */
  ghost predicate StatusTells(plan: Plan, db: Db, finished: seq<Row>, fi: nat) {
    && (db.status.Succeeded? ==>
          fi == plan.iterations && db.work.rows == finished && AllEvaluated(db.work.candidates, fi))
    && (db.status.Failed? ==>
          |db.work.rows| == |finished| + 1 && db.work.rows[|finished|].status.RowFailed?)
    && (db.status.Paused? ==> db.ctx.pausedKind.Some?)
    && (db.status.Paused? && db.ctx.pausedKind == Some(Cost) ==>
          fi < plan.iterations && db.work.rows == finished && 0 < Cap(plan, db.ctx) <= Spend(finished))
    && (db.status.Paused? && db.ctx.pausedKind == Some(StepTime) ==>
          && |db.work.rows| == |finished| + 1 && db.work.rows[|finished|].status.RowFailed?
          && (Cap(plan, db.ctx) == 0 || Spend(finished) < Cap(plan, db.ctx)))
  }

  ghost predicate HoldsAt(life: Life, db: Db, fi: nat, fp: nat) {
    var plan := PlanFor(life);
    && fi <= plan.iterations && (fi == plan.iterations ==> fp == 0)
    && Matches(plan, db.work, fi, fp)
    && PlanOf(life.workflow, db.ctx) == plan
    && var finished := Reference(plan, fi, fp).value.rows;
    && (OnGrid(life) ==> Bounded(plan, db.ctx, finished))
    && StatusTells(plan, db, finished, fi)
  }

  ghost predicate Holds(life: Life, db: Db) {
    exists fi, fp :: HoldsAt(life, db, fi, fp)
  }

  ghost predicate AllHold(life: Life, events: seq<Event>) {
    forall e :: e in events && e.Commit? ==> Holds(life, e.db)
  }

  lemma AllHoldConcat(life: Life, a: seq<Event>, b: seq<Event>)
    requires AllHold(life, a) && AllHold(life, b)
    ensures AllHold(life, a + b)
  {}

  lemma AllHoldOne(life: Life, e: Event)
    requires e.Commit? ==> Holds(life, e.db)
    ensures AllHold(life, [e])
  {}

  // ----- candidates up to their mark ------------------------------------------------------------

  lemma BareIndex(candidates: seq<Candidate>, it: nat)
    ensures IndexOf(Bare(candidates), it) == IndexOf(candidates, it)
  {
    assert forall k :: 0 <= k < |candidates| ==> Bare(candidates)[k].iteration == candidates[k].iteration;
  }

  lemma BareWith(candidates: seq<Candidate>, it: nat)
    ensures Bare(WithCandidate(candidates, it)) == WithCandidate(Bare(candidates), it)
  {
    hide IndexOf;
    BareIndex(candidates, it);
  }

  lemma BareUpdate(candidates: seq<Candidate>, i: nat, c: Candidate)
    requires i < |candidates|
    ensures Bare(candidates[i := c]) == Bare(candidates)[i := c.(evaluated := false)]
    ensures Bare(candidates)[i] == candidates[i].(evaluated := false)
  {}

  lemma TouchedBare(c: Candidate, info: Option<CandidateInfo>, prompt: Option<Prompt>)
    ensures Touched(c.(evaluated := false), info, prompt) == Touched(c, info, prompt).(evaluated := false)
  {}

  lemma BareTouched(candidates: seq<Candidate>, it: nat, info: Option<CandidateInfo>, prompt: Option<Prompt>)
    ensures var cands, bare := WithCandidate(candidates, it), WithCandidate(Bare(candidates), it);
      var i, j := IndexOf(cands, it), IndexOf(bare, it);
      Bare(cands[i := Touched(cands[i], info, prompt)]) == bare[j := Touched(bare[j], info, prompt)]
  {
    hide IndexOf, Touched, WithCandidate, Bare;
    var cands := WithCandidate(candidates, it);
    BareWith(candidates, it);
    BareIndex(cands, it);
    var i := IndexOf(cands, it);
    BareUpdate(cands, i, Touched(cands[i], info, prompt));
    TouchedBare(cands[i], info, prompt);
  }

  lemma BareMarked(candidates: seq<Candidate>, it: nat)
    ensures Bare(MarkEvaluated(candidates, it)) == Bare(candidates)
  {}

  lemma TouchedKeepsMarks(candidates: seq<Candidate>, it: nat, info: Option<CandidateInfo>, prompt: Option<Prompt>)
    requires AllEvaluated(candidates, it)
    ensures var cands := WithCandidate(candidates, it);
      var i := IndexOf(cands, it);
      AllEvaluated(cands[i := Touched(cands[i], info, prompt)], it)
  {
    var cands := WithCandidate(candidates, it);
    var i := IndexOf(cands, it);
    var touched := cands[i := Touched(cands[i], info, prompt)];
    forall c | c in touched && c.iteration < it ensures c.evaluated {
      assert c in candidates || c.iteration == it;
    }
  }

  /** Marking the only candidate of an iteration. */
  lemma MarkedAll(candidates: seq<Candidate>, it: nat)
    requires AllEvaluated(candidates, it)
    requires forall i, j :: 0 <= i < j < |candidates| ==> candidates[i].iteration != candidates[j].iteration
    ensures AllEvaluated(MarkEvaluated(candidates, it), it + 1)
  {
    var marked := MarkEvaluated(candidates, it);
    var i := IndexOf(candidates, it);
    forall c | c in marked && c.iteration < it + 1 ensures c.evaluated {
      var k :| 0 <= k < |marked| && marked[k] == c;
      if k != i {
        assert c == candidates[k];
        if i < |candidates| {
          assert candidates[i].iteration != candidates[k].iteration;
        }
      }
    }
  }

  lemma BareDistinct(candidates: seq<Candidate>)
    requires forall i, j :: 0 <= i < j < |Bare(candidates)| ==> Bare(candidates)[i].iteration != Bare(candidates)[j].iteration
    ensures forall i, j :: 0 <= i < j < |candidates| ==> candidates[i].iteration != candidates[j].iteration
  {
    forall i, j | 0 <= i < j < |candidates| ensures candidates[i].iteration != candidates[j].iteration {
      assert Bare(candidates)[i].iteration != Bare(candidates)[j].iteration;
    }
  }

  /** A success is stored the same way whatever the handler had checkpointed, and extends the reference. */
  lemma SuccessMatches(plan: Plan, work: Work, saved: Work, it: nat, pos: nat)
    requires it < plan.iterations && pos < |plan.steps|
    requires Matches(plan, work, it, pos) && work.rows == Reference(plan, it, pos).value.rows
    requires |saved.rows| == |work.rows| + 1 && saved.rows[..|work.rows|] == work.rows
    requires saved.rows[|work.rows|] == OpenRow(plan, it, pos).(output := saved.rows[|work.rows|].output)
    requires saved == work.(rows := saved.rows)
    ensures var result := ResultAt(plan, work.rows, it, pos);
      && Resolved(plan, result).Some? == Reference(plan, it, pos + 1).Some?
      && (Resolved(plan, result).Some? ==>
            var next := Absorbed(plan, saved, it, result, Resolved(plan, result).value);
            && Matches(plan, next, it, pos + 1)
            && next.rows == Reference(plan, it, pos + 1).value.rows
            && (AllEvaluated(work.candidates, it) ==> AllEvaluated(next.candidates, it)))
  {
    var ref := Reference(plan, it, pos).value;
    var result := ResultAt(plan, work.rows, it, pos);
    var prompt := Resolved(plan, result);
    assert Reference(plan, it, pos + 1) == StepWork(plan, ref, it, pos);
    if prompt.Some? {
      var begun := ref.rows + [OpenRow(plan, it, pos)];
      assert begun[..|begun| - 1] == ref.rows == saved.rows[..|saved.rows| - 1];
      if !(result.candidate.None? && result.benchmarks == []) {
        BareTouched(work.candidates, it, result.candidate, prompt.value);
        if AllEvaluated(work.candidates, it) {
          TouchedKeepsMarks(work.candidates, it, result.candidate, prompt.value);
        }
      }
    }
  }

  // ----- one call of the executor keeps the invariant --------------------------------------------

  ghost predicate MachineOk(life: Life, m: Machine) {
    && m.plan == PlanFor(life) && PlanOf(life.workflow, m.ctx) == m.plan
    && (m.budget == 0 ==> m.plan.defaultBudget == 0)
    && (OnGrid(life) ==> m.budget % 100 == 0)
  }

  /** The executor is at cell `(it, pos)` and everything before `(fi, fp)` is finished. */
  ghost predicate Walking(life: Life, m: Machine, db: Db, it: nat, pos: nat, fi: nat, fp: nat) {
    && MachineOk(life, m) && HoldsAt(life, db, fi, fp)
    && db.status.Running? && Cap(m.plan, db.ctx) == m.budget
    && db.work.rows == Reference(m.plan, fi, fp).value.rows
    && pos <= |m.plan.steps| && !Before((fi, fp), (it, pos))
    && AllEvaluated(db.work.candidates, it)
  }

  lemma SettledContext(life: Life, m: Machine, rows: seq<Row>)
    requires MachineOk(life, m)
    ensures PlanOf(life.workflow, Settled(m, rows)) == m.plan && Cap(m.plan, Settled(m, rows)) == m.budget
  {}

  lemma PausedHolds(life: Life, m: Machine, db: Db, it: nat, pos: nat)
    requires Walking(life, m, db, it, pos, it, pos) && it < m.plan.iterations && CapReached(m, db.work.rows)
    ensures HoldsAt(life, PausedDb(m, db, Cost, it), it, pos)
  {
    SettledContext(life, m, db.work.rows);
  }

  lemma BegunHolds(life: Life, m: Machine, db: Db, it: nat, pos: nat)
    requires Walking(life, m, db, it, pos, it, pos) && it < m.plan.iterations && pos < |m.plan.steps|
    ensures HoldsAt(life, OpenedDb(m, db, it, pos), it, pos)
  {}

  lemma {:induction false} SavesHold(life: Life, db: Db, saves: seq<Output>, it: nat, pos: nat)
    requires HoldsAt(life, db, it, pos) && db.status.Running?
    requires |db.work.rows| == |Reference(PlanFor(life), it, pos).value.rows| + 1
    ensures AllHold(life, SaveTrail(db, saves))
    ensures HoldsAt(life, db.(work := AfterSaves(db.work, saves)), it, pos)
    decreases |saves|
  {
    if saves != [] {
      var next := db.(work := Checkpointed(db.work, saves[0]));
      assert HoldsAt(life, next, it, pos);
      SavesHold(life, next, saves[1..], it, pos);
      AllHoldConcat(life, [Commit(next)], SaveTrail(next, saves[1..]));
    }
  }

  /** The open row may fail with any output. */
  lemma RaisedMatches(plan: Plan, work: Work, it: nat, pos: nat, output: Output)
    requires Matches(plan, work, it, pos) && |work.rows| == |Reference(plan, it, pos).value.rows| + 1
    ensures var finished, rows := Reference(plan, it, pos).value.rows, work.rows;
      var failed := ReplaceLast(rows, FailedRow(rows[|rows| - 1], output));
      && Matches(plan, work.(rows := failed), it, pos)
      && |failed| == |finished| + 1 && failed[|finished|].status.RowFailed?
  {
    hide Reference;
    var finished := Reference(plan, it, pos).value.rows;
    var failed := ReplaceLast(work.rows, FailedRow(work.rows[|finished|], output));
    assert failed[..|finished|] == finished;
  }

  lemma StoppedHolds(life: Life, m: Machine, raised: Db, it: nat, pos: nat, resumable: bool)
    requires MachineOk(life, m) && HoldsAt(life, raised, it, pos) && Cap(m.plan, raised.ctx) == m.budget
    requires var finished := Reference(m.plan, it, pos).value.rows;
      && |raised.work.rows| == |finished| + 1 && raised.work.rows[|finished|].status.RowFailed?
      && (m.budget == 0 || Spend(finished) < m.budget)
    ensures HoldsAt(life, if resumable then PausedDb(m, raised, StepTime, it) else FailedDb(m, raised), it, pos)
  {
    hide Reference, Matches, Spend, MachineOk, Settled;
    MachinePlan(life, m);
    SettledContext(life, m, raised.work.rows);
    MatchesSome(m.plan, raised.work, it, pos);
    CapSettled(m, raised, it);
  }

  lemma MachinePlan(life: Life, m: Machine)
    requires MachineOk(life, m)
    ensures m.plan == PlanFor(life) && (OnGrid(life) ==> m.budget % 100 == 0)
  {}

  lemma CapSettled(m: Machine, db: Db, it: nat)
    ensures Cap(m.plan, PausedDb(m, db, StepTime, it).ctx) == Cap(m.plan, Settled(m, db.work.rows))
    ensures PausedDb(m, db, StepTime, it).ctx.iterations == Settled(m, db.work.rows).iterations
    ensures PausedDb(m, db, StepTime, it).ctx.agentOverride == Settled(m, db.work.rows).agentOverride
  {}

  lemma RaisedHolds(life: Life, m: Machine, saved: Db, it: nat, pos: nat, output: Output, resumable: bool)
    requires MachineOk(life, m) && HoldsAt(life, saved, it, pos) && saved.status.Running?
    requires var finished := Reference(m.plan, it, pos).value.rows;
      |saved.work.rows| == |finished| + 1 && (m.budget == 0 || Spend(finished) < m.budget)
    requires Cap(m.plan, saved.ctx) == m.budget
    ensures AllHold(life, EndingFrom(m, saved, it, ResultAt(m.plan, Reference(m.plan, it, pos).value.rows, it, pos),
                                     Raises(output, resumable)).trail)
  {
    hide Reference, Matches, Spend, ResultAt, MachineOk, PausedDb, FailedDb;
    MachinePlan(life, m);
    MatchesSome(m.plan, saved.work, it, pos);
    RaisedMatches(m.plan, saved.work, it, pos, output);
    var raised := RaisedDb(saved, output);
    assert HoldsAt(life, raised, it, pos);
    StoppedHolds(life, m, raised, it, pos, resumable);
  }

  lemma SucceededStepHolds(life: Life, m: Machine, db: Db, saved: Db, it: nat, pos: nat)
    requires Walking(life, m, db, it, pos, it, pos) && it < m.plan.iterations && pos < |m.plan.steps|
    requires !CapReached(m, db.work.rows)
    requires saved == OpenedDb(m, db, it, pos).(work := saved.work)
    requires |saved.work.rows| == |db.work.rows| + 1 && saved.work.rows[..|db.work.rows|] == db.work.rows
    requires saved.work.rows[|db.work.rows|] == OpenRow(m.plan, it, pos).(output := saved.work.rows[|db.work.rows|].output)
    requires saved.work == db.work.(rows := saved.work.rows)
    ensures var rest := EndingFrom(m, saved, it, ResultAt(m.plan, db.work.rows, it, pos), Succeeds);
      && AllHold(life, rest.trail)
      && (rest.next.Some? <==> Reference(m.plan, it, pos + 1).Some?)
      && (rest.next.Some? ==> Walking(life, m, rest.next.value, it, pos + 1, it, pos + 1))
  {
    var rest := EndingFrom(m, saved, it, ResultAt(m.plan, db.work.rows, it, pos), Succeeds);
    SuccessMatches(m.plan, db.work, saved.work, it, pos);
    if rest.next.Some? {
      var next := rest.next.value;
      var rows := next.work.rows;
      StepRows(m.plan, Reference(m.plan, it, pos).value, it, pos);
      assert rows[..|rows| - 1] == db.work.rows;
      assert HoldsAt(life, next, it, pos + 1);
    }
  }

  lemma CellHolds(life: Life, m: Machine, db: Db, it: nat, pos: nat, attempt: Attempt)
    requires Walking(life, m, db, it, pos, it, pos) && it < m.plan.iterations && pos < |m.plan.steps|
    requires !CapReached(m, db.work.rows)
    ensures var cell := CellFrom(m, db, it, pos, attempt);
      && AllHold(life, cell.trail)
      && (cell.next.Some? ==> Walking(life, m, cell.next.value, it, pos + 1, it, pos + 1))
      && (attempt.ending.Succeeds? && Reference(m.plan, it, pos + 1).Some? ==> cell.next.Some?)
  {
    var cell := CellFrom(m, db, it, pos, attempt);
    var begun := OpenedDb(m, db, it, pos);
    var saved := begun.(work := AfterSaves(begun.work, attempt.saves));
    var rest := EndingFrom(m, saved, it, ResultAt(m.plan, db.work.rows, it, pos), attempt.ending);
    var call := Called(CallAt(m, db.work.rows, it, pos));
    BegunHolds(life, m, db, it, pos);
    SavesHold(life, begun, attempt.saves, it, pos);
    assert saved.work.rows[..|db.work.rows|] == db.work.rows;
    match attempt.ending {
      case Dies =>
      case Raises(output, resumable) => RaisedHolds(life, m, saved, it, pos, output, resumable);
      case Succeeds => SucceededStepHolds(life, m, db, saved, it, pos);
    }
    assert AllHold(life, [Commit(begun), call]);
    assert cell.trail == [Commit(begun), call] + SaveTrail(begun, attempt.saves) + rest.trail;
    AllHoldConcat(life, [Commit(begun), call], SaveTrail(begun, attempt.saves));
    AllHoldConcat(life, [Commit(begun), call] + SaveTrail(begun, attempt.saves), rest.trail);
  }

  /** Marking an iteration's candidate keeps the match and completes the marks. */
  lemma MarkedMatches(plan: Plan, work: Work, it: nat, fi: nat, fp: nat)
    requires Matches(plan, work, fi, fp) && AllEvaluated(work.candidates, it)
    ensures var marked := work.(candidates := MarkEvaluated(work.candidates, it));
      Matches(plan, marked, fi, fp) && AllEvaluated(marked.candidates, it + 1)
  {
    hide Reference, MarkEvaluated, Bare, InFlight, AllEvaluated;
    BareMarked(work.candidates, it);
    ReferenceCandidates(plan, fi, fp);
    BareDistinct(work.candidates);
    MarkedAll(work.candidates, it);
  }

  /** The end of an iteration is the start of the next. */
  lemma MatchesNext(plan: Plan, work: Work, it: nat)
    requires Matches(plan, work, it, |plan.steps|) && work.rows == Reference(plan, it, |plan.steps|).value.rows
    ensures Reference(plan, it + 1, 0) == Reference(plan, it, |plan.steps|) && Matches(plan, work, it + 1, 0)
  {
    hide Bare;
  }

  lemma IterationEndHolds(life: Life, m: Machine, db: Db, it: nat, fi: nat, fp: nat)
    requires Walking(life, m, db, it, |m.plan.steps|, fi, fp) && it < m.plan.iterations
    ensures HoldsAt(life, IterationEndDb(m, db, it), fi, fp)
    ensures AllEvaluated(IterationEndDb(m, db, it).work.candidates, it + 1)
    ensures Cap(m.plan, IterationEndDb(m, db, it).ctx) == m.budget
  {
    hide Reference, Matches, Spend, MarkEvaluated, AllEvaluated;
    SettledContext(life, m, db.work.rows);
    MatchesSome(m.plan, db.work, fi, fp);
    MarkedMatches(m.plan, db.work, it, fi, fp);
  }

  lemma IterationEndWalks(life: Life, m: Machine, db: Db, it: nat, fi: nat, fp: nat)
    requires Walking(life, m, db, it, |m.plan.steps|, fi, fp) && it < m.plan.iterations
    ensures var ended := IterationEndDb(m, db, it);
      Holds(life, ended) &&
      if fi == it then Walking(life, m, ended, it + 1, 0, it + 1, 0) else Walking(life, m, ended, it + 1, 0, fi, fp)
  {
    hide Reference, Matches, Spend, MarkEvaluated, AllEvaluated, Settled, MachineOk;
    var ended := IterationEndDb(m, db, it);
    MachinePlan(life, m);
    MatchesSome(m.plan, db.work, fi, fp);
    IterationEndHolds(life, m, db, it, fi, fp);
    if fi == it {
      MatchesNext(m.plan, ended.work, it);
      assert HoldsAt(life, ended, it + 1, 0);
    }
  }

  lemma LastHolds(life: Life, m: Machine, db: Db, it: nat, fi: nat, fp: nat)
    requires Walking(life, m, db, it, 0, fi, fp) && it >= m.plan.iterations
    ensures HoldsAt(life, SucceededDb(m, db), fi, fp)
  {}

  /** Every state committed from here on satisfies the invariant. */
  lemma {:induction false} FromHolds(life: Life, m: Machine, db: Db, it: nat, pos: nat, script: seq<Attempt>, fi: nat, fp: nat)
    requires Walking(life, m, db, it, pos, fi, fp) && (it >= m.plan.iterations ==> pos == 0)
    ensures AllHold(life, From(m, db, it, pos, script))
    decreases m.plan.iterations - it, |m.plan.steps| - pos
  {
    hide Walking, HoldsAt, AllHold, SucceededAt, CellFrom, Spend, PausedDb, IterationEndDb, SucceededDb, Reference, Before;
    Located(life, m, db, it, pos, fi, fp);
    var tail := From(m, db, it, pos, script);
    if it >= m.plan.iterations {
      LastHolds(life, m, db, it, fi, fp);
      AllHoldOne(life, Commit(SucceededDb(m, db)));
      RunExecutor.UnfoldLast(m, db, it, script);
    } else if pos == |m.plan.steps| {
      IterationEndWalks(life, m, db, it, fi, fp);
      var ended := IterationEndDb(m, db, it);
      if fi == it {
        FromHolds(life, m, ended, it + 1, 0, script, it + 1, 0);
      } else {
        FromHolds(life, m, ended, it + 1, 0, script, fi, fp);
      }
      RunExecutor.UnfoldEnd(m, db, it, script);
      AllHoldOne(life, Commit(ended));
      AllHoldConcat(life, [Commit(ended)], From(m, ended, it + 1, 0, script));
    } else {
      RunExecutor.Unfold(m, db, it, pos, script);
      if SucceededAt(db.work.rows, it, pos) {
        FromHolds(life, m, db, it, pos + 1, script, fi, fp);
      } else if CapReached(m, db.work.rows) {
        PausedHolds(life, m, db, it, pos);
        AllHoldOne(life, Commit(PausedDb(m, db, Cost, it)));
      } else {
        CellHolds(life, m, db, it, pos, NextAttempt(script));
        var cell := CellFrom(m, db, it, pos, NextAttempt(script));
        if cell.next.Some? {
          FromHolds(life, m, cell.next.value, it, pos + 1, Later(script), it, pos + 1);
          AllHoldConcat(life, cell.trail, From(m, cell.next.value, it, pos + 1, Later(script)));
        } else {
          assert tail == cell.trail;
        }
      }
    }
  }

  /** A cell is skipped exactly when it is before the frontier; the first other one is the frontier. */
  lemma Located(life: Life, m: Machine, db: Db, it: nat, pos: nat, fi: nat, fp: nat)
    requires Walking(life, m, db, it, pos, fi, fp)
    ensures m.plan == PlanFor(life) && pos <= |m.plan.steps| && MachineOk(life, m)
    ensures pos < |m.plan.steps| ==>
      if SucceededAt(db.work.rows, it, pos) then Walking(life, m, db, it, pos + 1, fi, fp) else (it, pos) == (fi, fp)
  {
    hide Reference, Matches, Spend, SucceededAt, AllEvaluated;
    MatchesSome(m.plan, db.work, fi, fp);
    if pos < |m.plan.steps| {
      ReferenceCells(m.plan, fi, fp, it, pos);
    }
  }

  lemma {:induction false} KeptFinished(rows: seq<Row>, n: nat)
    requires forall r :: r in rows ==> r.status.RowSucceeded? && r.iteration < n
    ensures Kept(rows, n) == rows
  {
    if rows != [] {
      assert rows[|rows| - 1] in rows;
      KeptFinished(rows[..|rows| - 1], n);
    }
  }

  lemma ReplayKeepsFinished(life: Life, db: Db, fi: nat, fp: nat)
    requires HoldsAt(life, db, fi, fp)
    ensures Kept(db.work.rows, PlanFor(life).iterations) == Reference(PlanFor(life), fi, fp).value.rows
  {
    var plan := PlanFor(life);
    var finished := Reference(plan, fi, fp).value.rows;
    ReferenceOrdered(plan, fi, fp);
    KeptFinished(finished, plan.iterations);
  }

  /** A dispatch begins by walking the grid from its first cell. */
  lemma BeginWalks(life: Life, db: Db, fi: nat, fp: nat)
    requires HoldsAt(life, db, fi, fp)
    ensures var plan := PlanFor(life);
      && PlanOf(life.workflow, db.ctx) == plan
      && HoldsAt(life, StartedDb(db), fi, fp)
      && Walking(life, MachineOf(plan, db), ReplayedDb(plan, db), 0, 0, fi, fp)
  {
    ReplayKeepsFinished(life, db, fi, fp);
  }

  lemma TraceHolds(life: Life, db: Db, script: seq<Attempt>)
    requires Holds(life, db)
    ensures AllHold(life, Trace(PlanOf(life.workflow, db.ctx), db, script))
  {
    var plan := PlanFor(life);
    var fi, fp :| HoldsAt(life, db, fi, fp);
    BeginWalks(life, db, fi, fp);
    var replayed := ReplayedDb(plan, db);
    var m := MachineOf(plan, db);
    var opening := [Commit(StartedDb(db)), Commit(replayed)];
    FromHolds(life, m, replayed, 0, 0, script, fi, fp);
    assert AllHold(life, opening) by {
      assert HoldsAt(life, replayed, fi, fp);
    }
    AllHoldConcat(life, opening, From(m, replayed, 0, 0, script));
  }

  lemma {:induction false} LastCommitAmong(db: Db, events: seq<Event>)
    ensures LastCommit(db, events) == db || Commit(LastCommit(db, events)) in events
  {
    if events != [] && !events[|events| - 1].Commit? {
      LastCommitAmong(db, events[..|events| - 1]);
    }
  }

  lemma ExecutedHolds(life: Life, db: Db, script: seq<Attempt>, cut: nat)
    requires Holds(life, db)
    ensures Holds(life, Executed(life, db, script, cut))
  {
    var trace := Trace(PlanOf(life.workflow, db.ctx), db, script);
    TraceHolds(life, db, script);
    LastCommitAmong(db, CutAt(trace, cut));
    assert forall e :: e in CutAt(trace, cut) ==> e in trace;
  }

  /** A cap on the grid is never lowered by a resume and stays on the grid. */
  lemma Round4OnGrid(x: nat)
    ensures Round4(x) % 100 == 0
    ensures x - 50 <= Round4(x) <= x + 50
    ensures x % 100 == 0 ==> Round4(x) == x
  {}

  lemma GridMonotone(cur: nat, add: nat)
    requires cur % 100 == 0
    ensures Round4(cur + add) >= cur && Round4(cur + add) % 100 == 0
  {
    assert (cur + add) / 100 >= cur / 100;
  }

  /** With caps on the grid a resume never lowers the cap. */
  lemma ResumeRaisesCap(life: Life, ctx: Context, addUsd: Option<nat>, addTime: Option<nat>)
    requires life.workflow.defaultBudget > 0 && Cap(PlanFor(life), ctx) % 100 == 0
    ensures var raised := ToppedUp(life.workflow, ctx, addUsd, addTime);
      && Cap(PlanFor(life), raised) == Round4(Cap(PlanFor(life), ctx) + AddedUsd(ctx, addUsd, addTime))
      && Cap(PlanFor(life), raised) >= Cap(PlanFor(life), ctx) && Cap(PlanFor(life), raised) % 100 == 0
  {
    GridMonotone(Cap(PlanFor(life), ctx), AddedUsd(ctx, addUsd, addTime));
  }

  lemma ResumedHolds(life: Life, db: Db, addUsd: Option<nat>, addTime: Option<nat>)
    requires Holds(life, db)
    ensures Holds(life, Next(life, db, Resume(addUsd, addTime)))
  {
    hide Round4, AddedUsd, AddedTime, Matches, Spend;
    var fi, fp :| HoldsAt(life, db, fi, fp);
    var next := Next(life, db, Resume(addUsd, addTime));
    if db.status.Paused? && OnGrid(life) {
      ResumeRaisesCap(life, db.ctx, addUsd, addTime);
    }
    MatchesSome(PlanFor(life), db.work, fi, fp);
    assert HoldsAt(life, next, fi, fp);
  }

  lemma MatchesSome(plan: Plan, work: Work, fi: nat, fp: nat)
    requires Matches(plan, work, fi, fp)
    ensures fp <= |plan.steps| && Reference(plan, fi, fp).Some?
  {}

  lemma CreatedHolds(life: Life)
    ensures HoldsAt(life, Created(life), 0, 0)
  {}

  /** The one invariant of every state a run can ever be left in, whatever the handlers do, whenever
      the process dies and whoever calls the API. */
  lemma {:induction false} ReachableHolds(life: Life, acts: seq<Act>)
    ensures Holds(life, After(life, acts))
  {
    if acts == [] {
      CreatedHolds(life);
    } else {
      var before := After(life, acts[..|acts| - 1]);
      ReachableHolds(life, acts[..|acts| - 1]);
      match acts[|acts| - 1] {
        case Claim | Retry =>
          var fi, fp :| HoldsAt(life, before, fi, fp);
          assert HoldsAt(life, Next(life, before, acts[|acts| - 1]), fi, fp);
        case Execute(script, cut) => ExecutedHolds(life, before, script, cut);
        case Resume(addUsd, addTime) => ResumedHolds(life, before, addUsd, addTime);
      }
    }
  }
}
