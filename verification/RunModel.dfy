/** The data of one run and what the executor does to it.

    A run is an `iterations x steps` grid. `Trace` lists, in order, everything one call of the
    executor makes observable: each committed state of the database and each handler call. It is
    written over the committed rows alone; the executor of module RunExecutor carries volatile
    state (the `done` set, the outputs of the current iteration, the history) and is proved to
    produce exactly this list. A crash is a prefix of the list. */
module RunModel {
  import opened Options

  /** A JSON value of a step's output. Numbers count millionths, so money is exact. */
  datatype Value = Num(millionths: int) | Flag(on: bool) | Text(text: string) | Null

  /** A recorded output; the empty map stands for both `{}` and NULL, which the code treats alike. */
  type Output = map<string, Value>

  /** The outputs of one iteration, keyed by handler. */
  type Outputs = map<string, Output>

  datatype StepSpec = StepSpec(handler: string, name: string, config: map<string, string>)

  datatype Prompt = Prompt(id: nat, slug: string, version: nat, text: string)

  datatype PromptRef = PromptRef(slug: string, template: string, version: Option<nat>)

  datatype CandidateInfo = CandidateInfo(
    name: string, summary: Option<string>, commitSha: Option<string>, branch: Option<string>,
    score: Option<real>, cost: Option<int>, tokens: Option<int>, extra: Output)

  datatype BenchmarkOutcome = BenchmarkOutcome(
    slug: string, score: Option<real>, passed: Option<bool>, details: Output)

  /** What a handler returns when it succeeds. */
  datatype StepResult = StepResult(
    output: Output, candidate: Option<CandidateInfo>, benchmarks: seq<BenchmarkOutcome>,
    prompt: Option<PromptRef>, summary: string)

  datatype RowStatus = RowRunning | RowSucceeded | RowFailed

  datatype Row = Row(
    iteration: nat, position: nat, handler: string, name: string, config: map<string, string>,
    status: RowStatus, output: Output, promptId: Option<nat>)

  datatype Candidate = Candidate(
    iteration: nat, evaluated: bool, summary: Option<string>, commitSha: Option<string>,
    branch: Option<string>, score: Option<real>, cost: Option<int>, tokens: Option<int>,
    extra: Output)

  /** A benchmark row; the candidate it belongs to is named by its iteration. */
  datatype BenchmarkResult = BenchmarkResult(iteration: nat, outcome: BenchmarkOutcome)

  datatype RunStatus = Pending | Scheduled | Running | Paused | Succeeded | Failed | Cancelled

  datatype PauseKind = Cost | StepTime

  /** `Run.context`. Budgets are micro-USD, times are tenths of a second. */
  datatype Context = Context(
    iterations: nat, agentOverride: string, budget: Option<nat>, timeout: Option<nat>,
    iterationsDone: Option<nat>, spent: Option<int>, pausedKind: Option<PauseKind>)

  /** What the steps of a run have produced so far. */
  datatype Work = Work(
    rows: seq<Row>, candidates: seq<Candidate>, results: seq<BenchmarkResult>, summary: string)

  /** The committed state of one run. */
  datatype Db = Db(status: RunStatus, ctx: Context, work: Work)

  /** What a deployment fixes: the experiment's workflow, the lab's registered prompts and
      benchmarks, the defaults, and what a handler returns when it succeeds, as a function of its
      config and its inputs alone. */
  datatype Workflow = Workflow(
    steps: seq<StepSpec>, iterations: nat, prompts: seq<Prompt>, benchmarks: set<string>,
    defaultBudget: nat, defaultTimeout: nat,
    handler: (StepSpec, nat, Outputs, seq<Outputs>) -> StepResult)

  /** The workflow as one dispatch sees it: agent override applied, iterations resolved. */
  datatype Plan = Plan(
    steps: seq<StepSpec>, iterations: nat, prompts: seq<Prompt>, benchmarks: set<string>,
    defaultBudget: nat, defaultTimeout: nat,
    handler: (StepSpec, nat, Outputs, seq<Outputs>) -> StepResult)

  /** The override replaces the agent of every step whose config names one. */
  function Overridden(step: StepSpec, agent: string): StepSpec {
    if agent != "" && "agent" in step.config && step.config["agent"] != "" then
      step.(config := step.config["agent" := agent])
    else step
  }

  function PlanOf(workflow: Workflow, ctx: Context): Plan {
    Plan(seq(|workflow.steps|, i requires 0 <= i < |workflow.steps| => Overridden(workflow.steps[i], ctx.agentOverride)),
         if ctx.iterations != 0 then ctx.iterations else workflow.iterations,
         workflow.prompts, workflow.benchmarks, workflow.defaultBudget, workflow.defaultTimeout, workflow.handler)
  }

  /** How one handler call goes: what it checkpoints, then how it ends. `Dies` is the process
      going down inside the handler. The environment chooses freely at every attempt. */
  datatype Ending = Succeeds | Raises(output: Output, resumable: bool) | Dies
  datatype Attempt = Attempt(saves: seq<Output>, ending: Ending)

  datatype Call = Call(
    iteration: nat, position: nat, outputs: Outputs, history: seq<Outputs>,
    attempt: nat, prior: Option<Output>)

  datatype Event = Commit(db: Db) | Called(call: Call)

  /** The executor's own variables that stay constant during one call. */
  datatype Machine = Machine(
    plan: Plan, ctx: Context, budget: nat, timeout: nat,
    retried: set<(nat, nat)>, prior: map<(nat, nat), Output>)

  // ----- money ---------------------------------------------------------------------------------

  /** A Python `bool` is an `int`, so `true` counts as one dollar. */
  function StepCost(output: Output): int {
    if "cost_usd" !in output then 0
    else match output["cost_usd"]
      case Num(n) => n
      case Flag(on) => if on then 1_000_000 else 0
      case _ => 0
  }

  function Spend(rows: seq<Row>): int {
    if rows == [] then 0
    else
      var last := rows[|rows| - 1];
      Spend(rows[..|rows| - 1]) + if last.status.RowSucceeded? then StepCost(last.output) else 0
  }

  /** `x or default`: a missing value and a zero both fall back. */
  function OrDefault(x: Option<nat>, default: nat): nat {
    if x.Some? && x.value != 0 then x.value else default
  }

  function Cap(plan: Plan, ctx: Context): nat {
    OrDefault(ctx.budget, plan.defaultBudget)
  }

  // ----- prompts -------------------------------------------------------------------------------

  /** The first prompt at or after `from` that `wanted` accepts. */
  function FindPrompt(prompts: seq<Prompt>, from: nat, wanted: Prompt -> bool): Option<Prompt>
    decreases |prompts| - from
  {
    if from >= |prompts| then None
    else if wanted(prompts[from]) then Some(prompts[from])
    else FindPrompt(prompts, from + 1, wanted)
  }

  /** By version when the step knows it, else by content; digests are as injective as the text. */
  function ResolvePrompt(prompts: seq<Prompt>, ref: PromptRef): Option<Prompt> {
    var byVersion :=
      if ref.version.None? then None
      else FindPrompt(prompts, 0, (p: Prompt) => p.slug == ref.slug && p.version == ref.version.value);
    if byVersion.Some? then byVersion
    else FindPrompt(prompts, 0, (p: Prompt) => p.slug == ref.slug && p.text == ref.template)
  }

  // ----- candidates and benchmark results ------------------------------------------------------

  /** The first candidate of the iteration, or the length when there is none. */
  function IndexOf(candidates: seq<Candidate>, iteration: nat): (i: nat)
    ensures i <= |candidates|
    ensures i < |candidates| ==> candidates[i].iteration == iteration
    ensures forall j :: 0 <= j < i ==> candidates[j].iteration != iteration
  {
    if candidates == [] then 0
    else
      var i := IndexOf(candidates[..|candidates| - 1], iteration);
      if i == |candidates| - 1 && candidates[i].iteration != iteration then |candidates| else i
  }

  function Proposed(iteration: nat): Candidate {
    Candidate(iteration, false, None, None, None, None, None, None, map[])
  }

  function WithCandidate(candidates: seq<Candidate>, iteration: nat): (r: seq<Candidate>)
    ensures IndexOf(r, iteration) < |r|
  {
    if IndexOf(candidates, iteration) == |candidates| then candidates + [Proposed(iteration)]
    else candidates
  }

  function Either<T>(given: Option<T>, current: Option<T>): Option<T> {
    if given.Some? then given else current
  }

  function Described(c: Candidate, info: CandidateInfo): Candidate {
    c.(summary := Either(info.summary, c.summary),
       commitSha := Either(info.commitSha, c.commitSha),
       branch := Either(info.branch, c.branch),
       score := Either(info.score, c.score),
       cost := Either(info.cost, c.cost),
       tokens := Either(info.tokens, c.tokens),
       extra := (if info.name != "" then c.extra["name" := Text(info.name)] else c.extra) + info.extra)
  }

  /** What one succeeded step does to its iteration's candidate. */
  function Touched(c: Candidate, info: Option<CandidateInfo>, prompt: Option<Prompt>): Candidate {
    var c := if info.Some? then Described(c, info.value) else c;
    if prompt.Some? then c.(extra := c.extra["prompt_version" := Num(prompt.value.version * 1_000_000)])
    else c
  }

  function Known(benchmarks: set<string>, iteration: nat, outcomes: seq<BenchmarkOutcome>): seq<BenchmarkResult> {
    if outcomes == [] then []
    else
      var last := outcomes[|outcomes| - 1];
      var before := Known(benchmarks, iteration, outcomes[..|outcomes| - 1]);
      if last.slug in benchmarks then before + [BenchmarkResult(iteration, last)] else before
  }

  function MarkEvaluated(candidates: seq<Candidate>, iteration: nat): seq<Candidate> {
    var i := IndexOf(candidates, iteration);
    if i < |candidates| then candidates[i := candidates[i].(evaluated := true)] else candidates
  }

  // ----- rows ----------------------------------------------------------------------------------

  /** An iteration's outputs by handler; a later row of the same handler replaces an earlier one. */
  function OutputsOf(rows: seq<Row>, iteration: nat): Outputs {
    if rows == [] then map[]
    else
      var last := rows[|rows| - 1];
      var before := OutputsOf(rows[..|rows| - 1], iteration);
      if last.status.RowSucceeded? && last.iteration == iteration then before[last.handler := last.output]
      else before
  }

  function HistoryOf(rows: seq<Row>, n: nat): seq<Outputs> {
    seq(n, i requires 0 <= i < n => OutputsOf(rows, i))
  }

  predicate SucceededAt(rows: seq<Row>, iteration: nat, position: nat) {
    exists r :: r in rows && r.status.RowSucceeded? && r.iteration == iteration && r.position == position
  }

  /** The rows that survive a re-dispatch. */
  function Kept(rows: seq<Row>, iterations: nat): seq<Row> {
    if rows == [] then []
    else
      var last := rows[|rows| - 1];
      var before := Kept(rows[..|rows| - 1], iterations);
      if last.status.RowSucceeded? && last.iteration < iterations then before + [last] else before
  }

  /** What holds of the rows of every committed state: see `RunProtocol.ReachableHolds`. */
  predicate RowsOk(plan: Plan, rows: seq<Row>) {
    && (forall r :: r in rows ==>
          r.iteration < plan.iterations && r.position < |plan.steps| && r.handler == plan.steps[r.position].handler)
    && forall i, j :: 0 <= i < j < |rows| ==> Cell(rows[i]) != Cell(rows[j])
  }

  predicate DistinctHandlers(steps: seq<StepSpec>) {
    forall i, j :: 0 <= i < j < |steps| ==> steps[i].handler != steps[j].handler
  }

  function OpenRow(plan: Plan, it: nat, pos: nat): Row
    requires pos < |plan.steps|
  {
    var step := plan.steps[pos];
    Row(it, pos, step.handler, step.name, step.config, RowRunning, map[], None)
  }

  function ReplaceLast<T>(s: seq<T>, x: T): seq<T>
    requires s != []
  {
    s[..|s| - 1] + [x]
  }

  function Checkpointed(work: Work, partial: Output): Work
    requires work.rows != []
  {
    var last := work.rows[|work.rows| - 1];
    work.(rows := ReplaceLast(work.rows, last.(output := last.output + partial)))
  }

  function AfterSaves(work: Work, saves: seq<Output>): (w: Work)
    requires work.rows != []
    ensures |w.rows| == |work.rows|
    ensures w.rows[..|w.rows| - 1] == work.rows[..|w.rows| - 1]
    ensures w.rows[|w.rows| - 1] == work.rows[|work.rows| - 1].(output := w.rows[|w.rows| - 1].output)
    ensures w == work.(rows := w.rows)
    decreases |saves|
  {
    if saves == [] then work else AfterSaves(Checkpointed(work, saves[0]), saves[1..])
  }

  function SaveTrail(db: Db, saves: seq<Output>): seq<Event>
    requires db.work.rows != []
    decreases |saves|
  {
    if saves == [] then []
    else
      var next := db.(work := Checkpointed(db.work, saves[0]));
      [Commit(next)] + SaveTrail(next, saves[1..])
  }

  /** The prompt a result resolves to: `None` when resolving raises. */
  function Resolved(plan: Plan, result: StepResult): Option<Option<Prompt>> {
    if result.prompt.None? then Some(None)
    else
      var p := ResolvePrompt(plan.prompts, result.prompt.value);
      if p.None? then None else Some(p)
  }

  function RecordedOutput(output: Output, prompt: Option<Prompt>): Output {
    if prompt.None? then output
    else output["prompt_id" := Num(prompt.value.id * 1_000_000)]
               ["prompt_slug" := Text(prompt.value.slug)]
               ["prompt_version" := Num(prompt.value.version * 1_000_000)]
  }

  /** The one commit of a succeeded step: its row, its candidate, its benchmark results. */
  function Absorbed(plan: Plan, work: Work, it: nat, result: StepResult, prompt: Option<Prompt>): Work
    requires work.rows != []
  {
    var last := work.rows[|work.rows| - 1];
    var row := last.(status := RowSucceeded,
                     output := RecordedOutput(result.output, prompt),
                     promptId := if prompt.Some? then Some(prompt.value.id) else last.promptId);
    var w := work.(rows := ReplaceLast(work.rows, row),
                   summary := if result.summary != "" then result.summary else work.summary);
    if result.candidate.None? && result.benchmarks == [] then w
    else
      var cands := WithCandidate(work.candidates, it);
      var i := IndexOf(cands, it);
      w.(candidates := cands[i := Touched(cands[i], result.candidate, prompt)],
         results := work.results + Known(plan.benchmarks, it, result.benchmarks))
  }

  // ----- one call of the executor --------------------------------------------------------------

  function ResultAt(plan: Plan, rows: seq<Row>, it: nat, pos: nat): StepResult
    requires pos < |plan.steps|
  {
    plan.handler(plan.steps[pos], it, OutputsOf(rows, it), HistoryOf(rows, it))
  }

  function CallAt(m: Machine, rows: seq<Row>, it: nat, pos: nat): Call {
    Call(it, pos, OutputsOf(rows, it), HistoryOf(rows, it),
         if (it, pos) in m.retried then 2 else 1,
         if (it, pos) in m.prior then Some(m.prior[(it, pos)]) else None)
  }

  function Settled(m: Machine, rows: seq<Row>): Context {
    m.ctx.(iterations := m.plan.iterations, budget := Some(m.budget), timeout := Some(m.timeout),
           spent := Some(Spend(rows)))
  }

  function PausedDb(m: Machine, db: Db, kind: PauseKind, it: nat): Db {
    db.(status := Paused,
        ctx := Settled(m, db.work.rows).(iterationsDone := Some(it), pausedKind := Some(kind)))
  }

  function FailedDb(m: Machine, db: Db): Db {
    db.(status := Failed, ctx := Settled(m, db.work.rows))
  }

  function IterationEndDb(m: Machine, db: Db, it: nat): Db {
    db.(ctx := Settled(m, db.work.rows).(iterationsDone := Some(it + 1)),
        work := db.work.(candidates := MarkEvaluated(db.work.candidates, it)))
  }

  function SucceededDb(m: Machine, db: Db): Db {
    db.(status := Succeeded,
        ctx := db.ctx.(spent := Some(Spend(db.work.rows)), budget := Some(m.budget), timeout := Some(m.timeout)))
  }

  function FailedRow(row: Row, output: Output): Row {
    row.(status := RowFailed, output := output)
  }

  function NextAttempt(script: seq<Attempt>): Attempt {
    if script == [] then Attempt([], Dies) else script[0]
  }

  function Later(script: seq<Attempt>): seq<Attempt> {
    if script == [] then [] else script[1..]
  }

  predicate CapReached(m: Machine, rows: seq<Row>) {
    m.budget != 0 && Spend(rows) >= m.budget
  }

  function OpenedDb(m: Machine, db: Db, it: nat, pos: nat): (d: Db)
    requires pos < |m.plan.steps|
    ensures d.work.rows != []
  {
    db.(work := db.work.(rows := db.work.rows + [OpenRow(m.plan, it, pos)]))
  }

  function RaisedDb(db: Db, output: Output): Db
    requires db.work.rows != []
  {
    var rows := db.work.rows;
    db.(work := db.work.(rows := ReplaceLast(rows, FailedRow(rows[|rows| - 1], output))))
  }

  /** One handler call with all its commits, and the state to go on from unless the dispatch stops. */
  datatype CellRun = CellRun(trail: seq<Event>, next: Option<Db>)

  /** What follows the handler's return, its exception or its death. */
  function EndingFrom(m: Machine, saved: Db, it: nat, result: StepResult, ending: Ending): CellRun
    requires saved.work.rows != []
  {
    match ending
    case Dies => CellRun([], None)
    case Raises(output, resumable) =>
      var raised := RaisedDb(saved, output);
      var stopped := if resumable then PausedDb(m, raised, StepTime, it) else FailedDb(m, raised);
      CellRun([Commit(raised), Commit(stopped)], None)
    case Succeeds =>
      var prompt := Resolved(m.plan, result);
      if prompt.None? then CellRun([], None)
      else
        var next := saved.(work := Absorbed(m.plan, saved.work, it, result, prompt.value));
        CellRun([Commit(next)], Some(next))
  }

  function CellFrom(m: Machine, db: Db, it: nat, pos: nat, attempt: Attempt): CellRun
    requires pos < |m.plan.steps|
  {
    var begun := OpenedDb(m, db, it, pos);
    var saved := begun.(work := AfterSaves(begun.work, attempt.saves));
    var rest := EndingFrom(m, saved, it, ResultAt(m.plan, db.work.rows, it, pos), attempt.ending);
    CellRun([Commit(begun), Called(CallAt(m, db.work.rows, it, pos))] + SaveTrail(begun, attempt.saves) + rest.trail,
            rest.next)
  }

  /** Everything observable from cell `(it, pos)` on. */
  function From(m: Machine, db: Db, it: nat, pos: nat, script: seq<Attempt>): seq<Event>
    requires pos <= |m.plan.steps|
    decreases m.plan.iterations - it, |m.plan.steps| - pos
  {
    if it >= m.plan.iterations then
      [Commit(SucceededDb(m, db))]
    else if pos == |m.plan.steps| then
      var ended := IterationEndDb(m, db, it);
      [Commit(ended)] + From(m, ended, it + 1, 0, script)
    else if SucceededAt(db.work.rows, it, pos) then
      From(m, db, it, pos + 1, script)
    else if CapReached(m, db.work.rows) then
      [Commit(PausedDb(m, db, Cost, it))]
    else
      var cell := CellFrom(m, db, it, pos, NextAttempt(script));
      cell.trail + if cell.next.None? then [] else From(m, cell.next.value, it, pos + 1, Later(script))
  }

  /** The cells whose unfinished row a re-dispatch deletes, and what those rows had recorded. */
  predicate Unfinished(row: Row, iterations: nat) {
    !row.status.RowSucceeded? && row.iteration < iterations
  }

  function Cell(row: Row): (nat, nat) {
    (row.iteration, row.position)
  }

  function Retried(rows: seq<Row>, iterations: nat): set<(nat, nat)> {
    set r | r in rows && Unfinished(r, iterations) :: Cell(r)
  }

  predicate LeavesOutput(row: Row, iterations: nat) {
    Unfinished(row, iterations) && row.output != map[]
  }

  function PriorOutputs(rows: seq<Row>, iterations: nat): map<(nat, nat), Output> {
    if rows == [] then map[]
    else
      var last := rows[|rows| - 1];
      var before := PriorOutputs(rows[..|rows| - 1], iterations);
      if LeavesOutput(last, iterations) then before[Cell(last) := last.output] else before
  }

  function MachineOf(plan: Plan, db: Db): Machine {
    Machine(plan, db.ctx.(pausedKind := None), Cap(plan, db.ctx), OrDefault(db.ctx.timeout, plan.defaultTimeout),
            Retried(db.work.rows, plan.iterations), PriorOutputs(db.work.rows, plan.iterations))
  }

  function StartedDb(db: Db): Db {
    db.(status := Running)
  }

  function ReplayedDb(plan: Plan, db: Db): Db {
    StartedDb(db).(work := db.work.(rows := Kept(db.work.rows, plan.iterations)))
  }

  /** Everything observable of one call of the executor whose query returns the rows as listed. */
  function Trace(plan: Plan, db: Db, script: seq<Attempt>): seq<Event> {
    [Commit(StartedDb(db)), Commit(ReplayedDb(plan, db))] +
    From(MachineOf(plan, db), ReplayedDb(plan, db), 0, 0, script)
  }

  /** The same committed state with the rows listed in another order: a table has none. */
  function Reordered(db: Db, rows: seq<Row>): Db {
    db.(work := db.work.(rows := rows))
  }

  /** Everything observable of one call of the executor whose query returns the rows as `prior`. */
  function TraceRead(plan: Plan, db: Db, prior: seq<Row>, script: seq<Attempt>): seq<Event> {
    var read := Reordered(db, prior);
    [Commit(StartedDb(db)), Commit(ReplayedDb(plan, read))] +
    From(MachineOf(plan, read), ReplayedDb(plan, read), 0, 0, script)
  }
}
