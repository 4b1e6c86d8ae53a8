/** `execute_run` as the source writes it: volatile variables, nested loops and commits, proved to
    produce exactly `RunModel.TraceRead`. */
module RunExecutor {
  import opened Options
  import opened RunModel
  import opened Sorting

  // ----- replaying rows that come back in any order ------------------------------------------

  lemma InitRowsOk(plan: Plan, rows: seq<Row>)
    requires RowsOk(plan, rows) && rows != []
    ensures RowsOk(plan, rows[..|rows| - 1])
    ensures forall r :: r in rows[..|rows| - 1] ==> Cell(r) != Cell(rows[|rows| - 1])
    ensures forall r :: r in rows <==> r in rows[..|rows| - 1] || r == rows[|rows| - 1]
  {
    var init, last := rows[..|rows| - 1], rows[|rows| - 1];
    assert rows == init + [last];
    forall r | r in init ensures Cell(r) != Cell(last) {
      var i :| 0 <= i < |init| && init[i] == r;
      assert rows[i] == r;
    }
  }

  predicate Feeds(row: Row, it: nat) {
    row.status.RowSucceeded? && row.iteration == it
  }

  lemma {:induction false} OutputOfRow(plan: Plan, rows: seq<Row>, it: nat, r: Row)
    requires RowsOk(plan, rows) && DistinctHandlers(plan.steps) && r in rows && Feeds(r, it)
    ensures r.handler in OutputsOf(rows, it) && OutputsOf(rows, it)[r.handler] == r.output
  {
    var init, last := rows[..|rows| - 1], rows[|rows| - 1];
    InitRowsOk(plan, rows);
    if r in init {
      OutputOfRow(plan, init, it, r);
      assert last in rows && (Feeds(last, it) ==> r.position != last.position);
    }
  }

  lemma {:induction false} RowOfOutput(rows: seq<Row>, it: nat, h: string) returns (r: Row)
    requires h in OutputsOf(rows, it)
    ensures r in rows && Feeds(r, it) && r.handler == h
  {
    r := rows[|rows| - 1];
    if !(Feeds(r, it) && r.handler == h) {
      r := RowOfOutput(rows[..|rows| - 1], it, h);
    }
  }

  /** With distinct handler keys, replaying the rows in any order rebuilds the same outputs. */
  lemma ReplayInAnyOrder(plan: Plan, rows: seq<Row>, prior: seq<Row>, it: nat)
    requires RowsOk(plan, rows) && RowsOk(plan, prior) && DistinctHandlers(plan.steps)
    requires multiset(rows) == multiset(prior)
    ensures OutputsOf(rows, it) == OutputsOf(prior, it)
  {
    SameLength(rows, prior);
    var a, b := OutputsOf(rows, it), OutputsOf(prior, it);
    forall h | h in a ensures h in b && b[h] == a[h] {
      var r := RowOfOutput(rows, it, h);
      OutputOfRow(plan, rows, it, r);
      OutputOfRow(plan, prior, it, r);
    }
    forall h | h in b ensures h in a {
      var r := RowOfOutput(prior, it, h);
      OutputOfRow(plan, rows, it, r);
    }
  }

  lemma {:induction false} PriorOfRow(plan: Plan, rows: seq<Row>, n: nat, r: Row)
    requires RowsOk(plan, rows) && r in rows && LeavesOutput(r, n)
    ensures Cell(r) in PriorOutputs(rows, n) && PriorOutputs(rows, n)[Cell(r)] == r.output
  {
    InitRowsOk(plan, rows);
    if r in rows[..|rows| - 1] {
      PriorOfRow(plan, rows[..|rows| - 1], n, r);
    }
  }

  lemma {:induction false} RowOfPrior(rows: seq<Row>, n: nat, c: (nat, nat)) returns (r: Row)
    requires c in PriorOutputs(rows, n)
    ensures r in rows && LeavesOutput(r, n) && Cell(r) == c
  {
    r := rows[|rows| - 1];
    if !(LeavesOutput(r, n) && Cell(r) == c) {
      r := RowOfPrior(rows[..|rows| - 1], n, c);
    }
  }

  lemma PriorInAnyOrder(plan: Plan, rows: seq<Row>, prior: seq<Row>, n: nat)
    requires RowsOk(plan, rows) && RowsOk(plan, prior)
    requires multiset(rows) == multiset(prior)
    ensures PriorOutputs(rows, n) == PriorOutputs(prior, n)
  {
    SameLength(rows, prior);
    var a, b := PriorOutputs(rows, n), PriorOutputs(prior, n);
    forall c | c in a ensures c in b && b[c] == a[c] {
      var r := RowOfPrior(rows, n, c);
      PriorOfRow(plan, rows, n, r);
      PriorOfRow(plan, prior, n, r);
    }
    forall c | c in b ensures c in a {
      var r := RowOfPrior(prior, n, c);
      PriorOfRow(plan, rows, n, r);
    }
  }

  lemma {:induction false} KeptOutputs(rows: seq<Row>, iterations: nat, it: nat)
    requires it < iterations
    ensures OutputsOf(Kept(rows, iterations), it) == OutputsOf(rows, it)
  {
    if rows != [] {
      var init, last := rows[..|rows| - 1], rows[|rows| - 1];
      KeptOutputs(init, iterations, it);
      OutputsOfSnoc(Kept(init, iterations), last, it);
    }
  }

  lemma {:induction false} KeptMembers(rows: seq<Row>, iterations: nat)
    ensures forall r :: r in Kept(rows, iterations) <==> r in rows && r.status.RowSucceeded? && r.iteration < iterations
  {
    if rows != [] {
      KeptMembers(rows[..|rows| - 1], iterations);
    }
  }

  // ----- small facts about the rows ---------------------------------------------------------------

  lemma OutputsOfSnoc(rows: seq<Row>, row: Row, it: nat)
    ensures OutputsOf(rows + [row], it) ==
      if row.status.RowSucceeded? && row.iteration == it then OutputsOf(rows, it)[row.handler := row.output]
      else OutputsOf(rows, it)
  {
    assert (rows + [row])[..|rows|] == rows;
  }

  lemma SpendSnoc(rows: seq<Row>, row: Row)
    ensures Spend(rows + [row]) == Spend(rows) + if row.status.RowSucceeded? then StepCost(row.output) else 0
  {
    assert (rows + [row])[..|rows|] == rows;
  }

  lemma SucceededAtSnoc(rows: seq<Row>, row: Row, it: nat, pos: nat)
    ensures SucceededAt(rows + [row], it, pos) <==>
      SucceededAt(rows, it, pos) || (row.status.RowSucceeded? && row.iteration == it && row.position == pos)
  {
    forall r ensures r in rows + [row] <==> r in rows || r == row {}
    if SucceededAt(rows, it, pos) {
      var r :| r in rows && r.status.RowSucceeded? && r.iteration == it && r.position == pos;
      assert r in rows + [row];
    }
    if row.status.RowSucceeded? && row.iteration == it && row.position == pos {
      assert row in rows + [row];
    }
  }

  /** A database session holding one run: what the ORM objects of `execute_run` hold. */
  class RunSession {
    const plan: Plan
    var status: RunStatus
    var ctx: Context
    var rows: seq<Row>
    var candidates: seq<Candidate>
    var results: seq<BenchmarkResult>
    var summary: string

    /** What has been committed and which handlers were called, in order: the database and the outside
        world as the session leaves them. */
    var log: seq<Event>

    /** A new session loads the run, resolves its iterations and applies its agent override. */
    constructor (workflow: Workflow, db: Db)
      ensures plan == PlanOf(workflow, db.ctx) && Snapshot() == db && log == []
    {
      plan := PlanOf(workflow, db.ctx);
      status, ctx := db.status, db.ctx;
      rows, candidates := db.work.rows, db.work.candidates;
      results, summary := db.work.results, db.work.summary;
      log := [];
    }

    function Snapshot(): Db
      reads this
    {
      Db(status, ctx, Work(rows, candidates, results, summary))
    }

    method CommitAll()
      modifies this`log
      ensures log == old(log) + [Commit(Snapshot())]
    {
      log := log + [Commit(Snapshot())];
    }

    /** A query without ORDER BY: the same rows, in whatever order. */
    method ReadRows() returns (prior: seq<Row>)
      ensures multiset(prior) == multiset(rows)
    {
      prior := rows;
    }

    method RunSpend() returns (spent: int)
      ensures spent == Spend(rows)
    {
      spent := 0;
      for i := 0 to |rows|
        invariant spent == Spend(rows[..i])
      {
        assert rows[..i + 1][..i] == rows[..i];
        if rows[i].status.RowSucceeded? {
          spent := spent + StepCost(rows[i].output);
        }
      }
      assert rows[..|rows|] == rows;
    }

    method CandidateFor(iteration: nat) returns (i: nat)
      modifies this`candidates
      ensures candidates == WithCandidate(old(candidates), iteration)
      ensures i == IndexOf(candidates, iteration) && i < |candidates|
    {
      i := 0;
      while i < |candidates| && candidates[i].iteration != iteration
        invariant i <= |candidates|
        invariant forall j :: 0 <= j < i ==> candidates[j].iteration != iteration
      {
        i := i + 1;
      }
      if i == |candidates| {
        candidates := candidates + [Proposed(iteration)];
      }
    }

    /** Outcomes on benchmarks the lab does not have are dropped. */
    method RecordBenchmarks(iteration: nat, outcomes: seq<BenchmarkOutcome>)
      modifies this`results
      ensures results == old(results) + Known(plan.benchmarks, iteration, outcomes)
    {
      for i := 0 to |outcomes|
        invariant results == old(results) + Known(plan.benchmarks, iteration, outcomes[..i])
      {
        assert outcomes[..i + 1][..i] == outcomes[..i];
        if outcomes[i].slug in plan.benchmarks {
          results := results + [BenchmarkResult(iteration, outcomes[i])];
        }
      }
      assert outcomes[..|outcomes|] == outcomes;
    }

    method QueryPrompt(wanted: Prompt -> bool) returns (p: Option<Prompt>)
      ensures p == FindPrompt(plan.prompts, 0, wanted)
    {
      var i := 0;
      while i < |plan.prompts|
        invariant i <= |plan.prompts|
        invariant FindPrompt(plan.prompts, 0, wanted) == FindPrompt(plan.prompts, i, wanted)
      {
        if wanted(plan.prompts[i]) {
          return Some(plan.prompts[i]);
        }
        i := i + 1;
      }
      p := None;
    }

    /** `None` is the `StepError` of an unregistered prompt. */
    method FindRegistered(ref: PromptRef) returns (p: Option<Prompt>)
      ensures p == ResolvePrompt(plan.prompts, ref)
    {
      if ref.version.Some? {
        p := QueryPrompt((p: Prompt) => p.slug == ref.slug && p.version == ref.version.value);
        if p.Some? {
          return;
        }
      }
      p := QueryPrompt((p: Prompt) => p.slug == ref.slug && p.text == ref.template);
    }

    method Checkpoint(partial: Output)
      requires rows != []
      modifies this`rows, this`log
      ensures rows != []
      ensures Snapshot() == old(Snapshot()).(work := Checkpointed(old(Snapshot()).work, partial))
      ensures log == old(log) + [Commit(Snapshot())]
    {
      var i := |rows| - 1;
      rows := rows[..i] + [rows[i].(output := rows[i].output + partial)];
      CommitAll();
    }

    /** What the handler checkpoints while it runs. */
    method TakeCheckpoints(saves: seq<Output>)
      requires rows != []
      modifies this`rows, this`log
      ensures rows != []
      ensures Snapshot() == old(Snapshot()).(work := AfterSaves(old(Snapshot()).work, saves))
      ensures log == old(log) + SaveTrail(old(Snapshot()), saves)
    {
      hide SaveTrail, AfterSaves, Checkpointed;
      ghost var start := Snapshot();
      for i := 0 to |saves|
        invariant rows != []
        invariant Snapshot() == start.(work := Snapshot().work)
        invariant AfterSaves(Snapshot().work, saves[i..]) == AfterSaves(start.work, saves)
        invariant log + SaveTrail(Snapshot(), saves[i..]) == old(log) + SaveTrail(start, saves)
      {
        SaveStep(Snapshot(), saves, i);
        Checkpoint(saves[i]);
      }
      SavesDone(Snapshot(), saves);
    }

    method Pause(kind: PauseKind, it: nat, m: Machine)
      requires m.plan == plan
      modifies this`status, this`ctx, this`log
      ensures Snapshot() == PausedDb(m, old(Snapshot()), kind, it)
      ensures log == old(log) + [Commit(Snapshot())]
    {
      var spent := RunSpend();
      status := Paused;
      ctx := m.ctx.(iterations := plan.iterations, iterationsDone := Some(it), budget := Some(m.budget),
                       timeout := Some(m.timeout), spent := Some(spent), pausedKind := Some(kind));
      CommitAll();
    }

    method UpdateCandidate(it: nat, result: StepResult, prompt: Option<Prompt>)
      modifies this`candidates, this`results
      ensures var cands := WithCandidate(old(candidates), it);
        var i := IndexOf(cands, it);
        candidates == cands[i := Touched(cands[i], result.candidate, prompt)]
      ensures results == old(results) + Known(plan.benchmarks, it, result.benchmarks)
    {
      var i := CandidateFor(it);
      if result.candidate.Some? {
        candidates := candidates[i := Described(candidates[i], result.candidate.value)];
      }
      if prompt.Some? {
        candidates := candidates[i := candidates[i].(
          extra := candidates[i].extra["prompt_version" := Num(prompt.value.version * 1_000_000)])];
      }
      RecordBenchmarks(it, result.benchmarks);
    }

    /** A succeeded handler's result, stored by one commit. `ok` is false when its prompt is not
        registered: the exception leaves `execute_run` before anything is committed. */
    method StoreResult(it: nat, result: StepResult) returns (ok: bool)
      requires rows != []
      modifies this
      ensures ok <==> Resolved(plan, result).Some?
      ensures ok ==> Snapshot() == old(Snapshot()).(
        work := Absorbed(plan, old(Snapshot()).work, it, result, Resolved(plan, result).value))
      ensures ok ==> log == old(log) + [Commit(Snapshot())]
      ensures !ok ==> log == old(log)
    {
      var i := |rows| - 1;
      var row := rows[i].(status := RowSucceeded, output := result.output);
      var prompt: Option<Prompt> := None;
      if result.prompt.Some? {
        prompt := FindRegistered(result.prompt.value);
        if prompt.None? {
          return false;
        }
        row := row.(promptId := Some(prompt.value.id), output := RecordedOutput(result.output, prompt));
      }
      rows := rows[..i] + [row];
      if result.summary != "" {
        summary := result.summary;
      }
      if result.candidate.Some? || result.benchmarks != [] {
        UpdateCandidate(it, result, prompt);
      }
      CommitAll();
      ok := true;
    }

    /** Marks the iteration's candidate evaluated and settles the context. */
    method EndIteration(it: nat, m: Machine)
      requires m.plan == plan
      modifies this`candidates, this`ctx, this`log
      ensures Snapshot() == IterationEndDb(m, old(Snapshot()), it)
      ensures log == old(log) + [Commit(Snapshot())]
    {
      var i := 0;
      while i < |candidates| && candidates[i].iteration != it
        invariant i <= |candidates|
        invariant forall j :: 0 <= j < i ==> candidates[j].iteration != it
      {
        i := i + 1;
      }
      if i < |candidates| {
        candidates := candidates[i := candidates[i].(evaluated := true)];
      }
      var spent := RunSpend();
      ctx := m.ctx.(iterations := plan.iterations, iterationsDone := Some(it + 1), budget := Some(m.budget),
                       timeout := Some(m.timeout), spent := Some(spent));
      CommitAll();
    }

    /** The rows of earlier dispatches: outputs to replay, cells to retry, rows to delete. From the query
        on the session holds the rows in the order they came back in. */
    method Replay()
      returns (done: set<(nat, nat)>, retried: set<(nat, nat)>, priorOutput: map<(nat, nat), Output>,
               history: seq<Outputs>, ghost prior: seq<Row>)
      modifies this`rows, this`log
      ensures multiset(prior) == multiset(old(rows))
      ensures rows == Kept(prior, plan.iterations)
      ensures log == old(log) + [Commit(Snapshot())]
      ensures ReplayedSoFar(rows, plan.iterations, done, history)
      ensures RetriesSoFar(prior, plan.iterations, retried, priorOutput)
      ensures forall it: nat, pos: nat :: SucceededAt(rows, it, pos) ==> it < plan.iterations
    {
      hide OutputsOf, SucceededAt, Kept, Retried, PriorOutputs;
      var read := ReadRows();
      rows := read;
      done, retried, priorOutput := {}, {}, map[];
      history := seq(plan.iterations, _ => map[]);
      ReplayNothing(read, plan.iterations, history);
      var kept := 0;
      for i := 0 to |read|
        invariant ReplayedSoFar(read[..i], plan.iterations, done, history)
        invariant RetriesSoFar(read[..i], plan.iterations, retried, priorOutput)
        invariant kept == |Kept(read[..i], plan.iterations)|
        invariant rows == Kept(read[..i], plan.iterations) + read[i..]
        invariant log == old(log)
      {
        var ps := read[i];
        ReplayStep(read, i, plan.iterations, done, history);
        RetryStep(read, i, plan.iterations, retried, priorOutput);
        KeptStep(read, i, plan.iterations);
        if ps.status.RowSucceeded? && ps.iteration < plan.iterations {
          done := done + {(ps.iteration, ps.position)};
          history := history[ps.iteration := history[ps.iteration][ps.handler := ps.output]];
          kept := kept + 1;
        } else {
          if ps.iteration < plan.iterations {
            retried := retried + {(ps.iteration, ps.position)};
            if ps.output != map[] {
              priorOutput := priorOutput[(ps.iteration, ps.position) := ps.output];
            }
          }
          rows := rows[..kept] + rows[kept + 1..];
        }
      }
      assert read[..|read|] == read;
      prior := read;
      ReplayDone(read, plan.iterations, done, history);
      CommitAll();
    }

    /** The handler raised: the row keeps what the error carried, then the run pauses or fails. */
    method FailStep(partial: Output, resumable: bool, it: nat, m: Machine)
      requires rows != []
      requires m.plan == plan
      modifies this
      ensures var raised := RaisedDb(old(Snapshot()), partial);
        && Snapshot() == (if resumable then PausedDb(m, raised, StepTime, it) else FailedDb(m, raised))
        && log == old(log) + [Commit(raised), Commit(Snapshot())]
    {
      rows := rows[..|rows| - 1] + [rows[|rows| - 1].(status := RowFailed, output := partial)];
      CommitAll();
      if resumable {
        Pause(StepTime, it, m);
      } else {
        var total := RunSpend();
        status := Failed;
        ctx := m.ctx.(iterations := plan.iterations, budget := Some(m.budget), timeout := Some(m.timeout),
                         spent := Some(total));
        CommitAll();
      }
    }

    method EndStep(it: nat, result: StepResult, ending: Ending, m: Machine) returns (go: bool, output: Output)
      requires m.plan == plan && rows != []
      modifies this
      ensures var rest := EndingFrom(m, old(Snapshot()), it, result, ending);
        && log == old(log) + rest.trail
        && (go <==> rest.next.Some?)
        && (go ==> Snapshot() == rest.next.value && rows != [] && output == rows[|rows| - 1].output)
    {
      go, output := false, map[];
      match ending {
        case Dies =>
        case Raises(partial, resumable) =>
          FailStep(partial, resumable, it, m);
        case Succeeds =>
          go := StoreResult(it, result);
          if go {
            output := rows[|rows| - 1].output;
          }
      }
    }

    /** One cell of the grid, from the row's first commit to the step's last. `go` is false when the
        dispatch stops here; `output` is what the step recorded. */
    method RunCell(it: nat, pos: nat, attempt: Attempt, iterOutputs: Outputs, history: seq<Outputs>,
                   m: Machine)
      returns (go: bool, output: Output)
      requires m.plan == plan
      requires pos < |plan.steps|
      requires iterOutputs == OutputsOf(rows, it) && history == HistoryOf(rows, it)
      modifies this
      ensures var cell := CellFrom(m, old(Snapshot()), it, pos, attempt);
        && log == old(log) + cell.trail
        && (go <==> cell.next.Some?)
        && (go ==> Snapshot() == cell.next.value && rows != [] && output == rows[|rows| - 1].output)
    {
      hide OutputsOf, HistoryOf, EndingFrom, SaveTrail, AfterSaves;
      var step := plan.steps[pos];
      var call := Call(it, pos, iterOutputs, history, if (it, pos) in m.retried then 2 else 1,
                       if (it, pos) in m.prior then Some(m.prior[(it, pos)]) else None);
      assert call == CallAt(m, rows, it, pos);
      ghost var before := Snapshot();
      rows := rows + [Row(it, pos, step.handler, step.name, step.config, RowRunning, map[], None)];
      CommitAll();
      ghost var begun := Snapshot();
      assert begun == OpenedDb(m, before, it, pos);
      log := log + [Called(call)];
      ghost var opening := [Commit(begun), Called(call)];
      assert log == old(log) + opening && Snapshot() == begun;
      TakeCheckpoints(attempt.saves);
      ghost var saved, logged := Snapshot(), log;
      var result := plan.handler(step, it, call.outputs, call.history);
      go, output := EndStep(it, result, attempt.ending, m);
      ghost var rest := EndingFrom(m, saved, it, result, attempt.ending);
      assert log == old(log) + (opening + SaveTrail(begun, attempt.saves) + rest.trail);
    }

    /** Reads the context, marks the run running and replays its rows. */
    method Begin() returns (m: Machine, done: set<(nat, nat)>, history: seq<Outputs>, ghost prior: seq<Row>)
      modifies this
      ensures multiset(prior) == multiset(old(rows))
      ensures var read := Reordered(old(Snapshot()), prior);
        && m.plan == plan && m == MachineOf(plan, read) && Snapshot() == ReplayedDb(plan, read)
        && log == old(log) + [Commit(StartedDb(old(Snapshot()))), Commit(Snapshot())]
      ensures |history| == plan.iterations
      ensures plan.iterations > 0 ==> Following(rows, 0, 0, history, history[0], done)
    {
      var ctxState := ctx;
      var budget := OrDefault(ctxState.budget, plan.defaultBudget);
      var timeout := OrDefault(ctxState.timeout, plan.defaultTimeout);
      ctxState := ctxState.(pausedKind := None);
      status := Running;
      CommitAll();
      var retried, priorOutput;
      done, retried, priorOutput, history, prior := Replay();
      m := Machine(plan, ctxState, budget, timeout, retried, priorOutput);
    }

    /** The cells of one iteration. `go` is false when the dispatch stopped inside it. */
    method RunIteration(it: nat, script: seq<Attempt>, done: set<(nat, nat)>, history: seq<Outputs>, m: Machine)
      returns (go: bool, rest: seq<Attempt>, iterOutputs: Outputs)
      requires m.plan == plan && it < plan.iterations == |history|
      requires Following(rows, it, 0, history, history[it], done)
      modifies this
      ensures log + (if go then From(m, Snapshot(), it, |plan.steps|, rest) else []) ==
        old(log) + From(m, old(Snapshot()), it, 0, script)
      ensures go ==> Following(rows, it, |plan.steps|, history, iterOutputs, done)
    {
      hide From, CellFrom, OutputsOf, Spend, PausedDb, NextAttempt, Later, Following, SucceededAt;
      ghost var all := log + From(m, Snapshot(), it, 0, script);
      rest, iterOutputs := script, history[it];
      var pos := 0;
      while pos < |plan.steps|
        invariant pos <= |plan.steps|
        invariant Following(rows, it, pos, history, iterOutputs, done)
        invariant log + From(m, Snapshot(), it, pos, rest) == all
      {
        ghost var before, was := Snapshot(), rows;
        Unfold(m, before, it, pos, rest);
        FollowHere(rows, it, pos, history, iterOutputs, done);
        if (it, pos) in done {
          pos := pos + 1;
          continue;
        }
        var spent := RunSpend();
        if m.budget != 0 && spent >= m.budget {
          Pause(Cost, it, m);
          return false, rest, iterOutputs;
        }
        var output;
        go, output := RunCell(it, pos, NextAttempt(rest), iterOutputs, history[..it], m);
        if !go {
          return;
        }
        CellRows(m, before, it, pos, NextAttempt(rest));
        FollowCell(was, rows[|rows| - 1], it, pos, history, iterOutputs, done);
        iterOutputs := iterOutputs[plan.steps[pos].handler := output];
        rest := Later(rest);
        pos := pos + 1;
      }
      go := true;
    }

    method Finish(m: Machine)
      modifies this`status, this`ctx, this`log
      ensures Snapshot() == SucceededDb(m, old(Snapshot()))
      ensures log == old(log) + [Commit(Snapshot())]
    {
      status := Succeeded;
      var spent := RunSpend();
      ctx := ctx.(spent := Some(spent), budget := Some(m.budget), timeout := Some(m.timeout));
      CommitAll();
    }

    /** The grid, iteration by iteration. */
    method RunGrid(script: seq<Attempt>, done: set<(nat, nat)>, pastOutputs: seq<Outputs>, m: Machine)
      requires m.plan == plan && |pastOutputs| == plan.iterations
      requires plan.iterations > 0 ==> Following(rows, 0, 0, pastOutputs, pastOutputs[0], done)
      modifies this
      ensures log == old(log) + From(m, old(Snapshot()), 0, 0, script)
    {
      hide From, CellFrom, OutputsOf, Spend, IterationEndDb, Following, SucceededAt, Snapshot;
      ghost var all := log + From(m, Snapshot(), 0, 0, script);
      var rest, history := script, pastOutputs;
      var it := 0;
      while it < plan.iterations
        invariant it <= plan.iterations == |history|
        invariant it < plan.iterations ==> Following(rows, it, 0, history, history[it], done)
        invariant log + From(m, Snapshot(), it, 0, rest) == all
      {
        var go, later, iterOutputs := RunIteration(it, rest, done, history, m);
        if !go {
          return;
        }
        UnfoldEnd(m, Snapshot(), it, later);
        rest := later;
        FollowNext(rows, it, |plan.steps|, history, iterOutputs, done);
        history := history[it := iterOutputs];
        EndIteration(it, m);
        it := it + 1;
      }
      UnfoldLast(m, Snapshot(), it, rest);
      Finish(m);
    }

    /** One dispatch of the run, from the first commit to the last, in whatever order the query returns
        the rows. */
    method ExecuteRun(script: seq<Attempt>) returns (ghost prior: seq<Row>)
      modifies this
      ensures multiset(prior) == multiset(old(rows))
      ensures log == old(log) + TraceRead(plan, old(Snapshot()), prior, script)
    {
      hide From, Following, MachineOf, ReplayedDb, StartedDb;
      var m, done, history;
      m, done, history, prior := Begin();
      RunGrid(script, done, history, m);
    }
  }

  /** The volatile variables agree with the committed rows from cell `(it, pos)` on. */
  ghost predicate Following(rows: seq<Row>, it: nat, pos: nat, history: seq<Outputs>, iterOutputs: Outputs, done: set<(nat, nat)>) {
    && it < |history|
    && (forall i :: 0 <= i < |history| ==> OutputsOf(rows, i) == if i == it then iterOutputs else history[i])
    && forall i: nat, p: nat :: i > it || (i == it && p >= pos) ==> ((i, p) in done <==> SucceededAt(rows, i, p))
  }

  lemma FollowHere(rows: seq<Row>, it: nat, pos: nat, history: seq<Outputs>, iterOutputs: Outputs, done: set<(nat, nat)>)
    requires Following(rows, it, pos, history, iterOutputs, done)
    ensures (it, pos) in done <==> SucceededAt(rows, it, pos)
    ensures iterOutputs == OutputsOf(rows, it) && history[..it] == HistoryOf(rows, it)
    ensures Following(rows, it, pos + 1, history, iterOutputs, done)
  {}

  lemma FollowCell(rows: seq<Row>, row: Row, it: nat, pos: nat, history: seq<Outputs>, iterOutputs: Outputs, done: set<(nat, nat)>)
    requires Following(rows, it, pos, history, iterOutputs, done)
    requires row.status.RowSucceeded? && row.iteration == it && row.position == pos
    ensures Following(rows + [row], it, pos + 1, history, iterOutputs[row.handler := row.output], done)
  {
    ReplayedRow(rows, row);
  }

  lemma FollowNext(rows: seq<Row>, it: nat, pos: nat, history: seq<Outputs>, iterOutputs: Outputs, done: set<(nat, nat)>)
    requires Following(rows, it, pos, history, iterOutputs, done)
    ensures it + 1 < |history| ==> Following(rows, it + 1, 0, history[it := iterOutputs], history[it + 1], done)
  {}

  lemma SaveStep(db: Db, saves: seq<Output>, i: nat)
    requires db.work.rows != [] && i < |saves|
    ensures var next := db.(work := Checkpointed(db.work, saves[i]));
      && next.work.rows != []
      && AfterSaves(db.work, saves[i..]) == AfterSaves(next.work, saves[i + 1..])
      && SaveTrail(db, saves[i..]) == [Commit(next)] + SaveTrail(next, saves[i + 1..])
  {
    assert saves[i..][1..] == saves[i + 1..];
  }

  lemma SavesDone(db: Db, saves: seq<Output>)
    requires db.work.rows != []
    ensures AfterSaves(db.work, saves[|saves|..]) == db.work && SaveTrail(db, saves[|saves|..]) == []
  {}

  lemma ReplayedRow(rows: seq<Row>, row: Row)
    ensures forall it: nat :: (OutputsOf(rows + [row], it) ==
      if row.status.RowSucceeded? && row.iteration == it then OutputsOf(rows, it)[row.handler := row.output]
      else OutputsOf(rows, it))
    ensures forall it: nat, pos: nat :: SucceededAt(rows + [row], it, pos) <==>
      SucceededAt(rows, it, pos) || (row.status.RowSucceeded? && row.iteration == it && row.position == pos)
  {
    forall it: nat ensures OutputsOf(rows + [row], it) ==
      if row.status.RowSucceeded? && row.iteration == it then OutputsOf(rows, it)[row.handler := row.output]
      else OutputsOf(rows, it)
    {
      OutputsOfSnoc(rows, row, it);
    }
    forall it: nat, pos: nat ensures SucceededAt(rows + [row], it, pos) <==>
      SucceededAt(rows, it, pos) || (row.status.RowSucceeded? && row.iteration == it && row.position == pos)
    {
      SucceededAtSnoc(rows, row, it, pos);
    }
  }

  /** What the trace does at a cell of the grid. */
  lemma Unfold(m: Machine, db: Db, it: nat, pos: nat, script: seq<Attempt>)
    requires it < m.plan.iterations && pos < |m.plan.steps|
    ensures SucceededAt(db.work.rows, it, pos) ==>
      From(m, db, it, pos, script) == From(m, db, it, pos + 1, script)
    ensures !SucceededAt(db.work.rows, it, pos) && m.budget != 0 && Spend(db.work.rows) >= m.budget ==>
      From(m, db, it, pos, script) == [Commit(PausedDb(m, db, Cost, it))]
    ensures !SucceededAt(db.work.rows, it, pos) && !(m.budget != 0 && Spend(db.work.rows) >= m.budget) ==>
      var cell := CellFrom(m, db, it, pos, NextAttempt(script));
      From(m, db, it, pos, script) ==
        cell.trail + if cell.next.None? then [] else From(m, cell.next.value, it, pos + 1, Later(script))
  {}

  lemma UnfoldEnd(m: Machine, db: Db, it: nat, script: seq<Attempt>)
    requires it < m.plan.iterations
    ensures From(m, db, it, |m.plan.steps|, script) ==
      [Commit(IterationEndDb(m, db, it))] + From(m, IterationEndDb(m, db, it), it + 1, 0, script)
  {}

  lemma UnfoldLast(m: Machine, db: Db, it: nat, script: seq<Attempt>)
    requires it >= m.plan.iterations
    ensures From(m, db, it, 0, script) == [Commit(SucceededDb(m, db))]
  {}

  lemma CellRows(m: Machine, db: Db, it: nat, pos: nat, attempt: Attempt)
    requires pos < |m.plan.steps| && CellFrom(m, db, it, pos, attempt).next.Some?
    ensures var rows := CellFrom(m, db, it, pos, attempt).next.value.work.rows;
      && |rows| == |db.work.rows| + 1
      && var row := rows[|db.work.rows|];
      && rows == db.work.rows + [row]
      && row.status.RowSucceeded? && row.iteration == it && row.position == pos && row.handler == m.plan.steps[pos].handler
  {
    var begun := OpenedDb(m, db, it, pos);
    var saved := AfterSaves(begun.work, attempt.saves);
    assert saved.rows[..|saved.rows| - 1] == db.work.rows;
  }

  /** The replay variables hold what the rows read so far say. */
  ghost predicate ReplayedSoFar(read: seq<Row>, iterations: nat, done: set<(nat, nat)>, history: seq<Outputs>) {
    && |history| == iterations
    && (forall it :: 0 <= it < iterations ==> history[it] == OutputsOf(read, it))
    && forall it: nat, pos: nat :: (it, pos) in done <==> it < iterations && SucceededAt(read, it, pos)
  }

  ghost predicate RetriesSoFar(read: seq<Row>, iterations: nat, retried: set<(nat, nat)>, prior: map<(nat, nat), Output>) {
    retried == Retried(read, iterations) && prior == PriorOutputs(read, iterations)
  }

  lemma ReplayNothing(read: seq<Row>, iterations: nat, history: seq<Outputs>)
    requires |history| == iterations && forall i :: 0 <= i < iterations ==> history[i] == map[]
    ensures ReplayedSoFar(read[..0], iterations, {}, history)
    ensures RetriesSoFar(read[..0], iterations, {}, map[])
    ensures Kept(read[..0], iterations) == [] && read[0..] == read
  {}

  lemma KeptStep(read: seq<Row>, i: nat, iterations: nat)
    requires i < |read|
    ensures var row, before := read[i], Kept(read[..i], iterations);
      && (row.status.RowSucceeded? && row.iteration < iterations ==>
            Kept(read[..i + 1], iterations) == before + [row] && before + read[i..] == before + [row] + read[i + 1..])
      && (!(row.status.RowSucceeded? && row.iteration < iterations) ==>
            var rows := before + read[i..];
            Kept(read[..i + 1], iterations) == before && rows[..|before|] + rows[|before| + 1..] == before + read[i + 1..])
  {
    assert read[..i + 1][..i] == read[..i];
    assert read[i..] == [read[i]] + read[i + 1..];
  }

  lemma ReplayStep(prior: seq<Row>, i: nat, iterations: nat, done: set<(nat, nat)>, history: seq<Outputs>)
    requires i < |prior| && ReplayedSoFar(prior[..i], iterations, done, history)
    ensures var row := prior[i];
      if row.status.RowSucceeded? && row.iteration < iterations then
        ReplayedSoFar(prior[..i + 1], iterations, done + {(row.iteration, row.position)},
                      history[row.iteration := history[row.iteration][row.handler := row.output]])
      else
        ReplayedSoFar(prior[..i + 1], iterations, done, history)
  {
    assert prior[..i + 1] == prior[..i] + [prior[i]];
    ReplayedRow(prior[..i], prior[i]);
  }

  lemma RetryStep(prior: seq<Row>, i: nat, iterations: nat, retried: set<(nat, nat)>, priorOutput: map<(nat, nat), Output>)
    requires i < |prior| && RetriesSoFar(prior[..i], iterations, retried, priorOutput)
    ensures var row := prior[i];
      RetriesSoFar(
        prior[..i + 1], iterations,
        if Unfinished(row, iterations) then retried + {(row.iteration, row.position)} else retried,
        if LeavesOutput(row, iterations) then priorOutput[(row.iteration, row.position) := row.output] else priorOutput)
  {
    var read, row := prior[..i], prior[i];
    assert prior[..i + 1] == read + [row];
    assert (read + [row])[..|read|] == read;
    assert forall r :: r in read + [row] <==> r in read || r == row;
  }

  lemma ReplayDone(read: seq<Row>, n: nat, done: set<(nat, nat)>, history: seq<Outputs>)
    requires ReplayedSoFar(read, n, done, history)
    ensures ReplayedSoFar(Kept(read, n), n, done, history)
    ensures forall it: nat, pos: nat :: SucceededAt(Kept(read, n), it, pos) ==> it < n
  {
    KeptMembers(read, n);
    forall it | 0 <= it < n ensures OutputsOf(read, it) == OutputsOf(Kept(read, n), it) {
      KeptOutputs(read, n, it);
    }
  }

  lemma PermutedRowsOk(plan: Plan, rows: seq<Row>, prior: seq<Row>)
    requires RowsOk(plan, rows) && multiset(rows) == multiset(prior)
    ensures RowsOk(plan, prior)
  {
    SameLength(rows, prior);
    PermutedApart(rows, prior);
    forall i, j | 0 <= i < j < |prior| ensures Cell(prior[i]) != Cell(prior[j]) {
      assert prior[i] in rows && prior[j] in rows;
    }
  }
}
