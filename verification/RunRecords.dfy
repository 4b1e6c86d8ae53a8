/** What is on record of a run, told from what its handlers returned. Every step's inputs, row,
    candidate and summary are stated from the rows and results themselves, key by key, so that they
    tie down how `RunModel` computes them. */
module RunRecords {
  import opened Options
  import opened RunModel
  import opened RunReference
  import opened RunProtocol
  import opened Picking
  import RunTheorems

  // ----- what a handler is given -----------------------------------------------------------------

  predicate Left(row: Row, it: nat, handler: string) {
    row.status == RowSucceeded && row.iteration == it && row.handler == handler
  }

  predicate LastLeft(rows: seq<Row>, it: nat, handler: string, j: nat) {
    && j < |rows| && Left(rows[j], it, handler)
    && forall k :: j < k < |rows| ==> !Left(rows[k], it, handler)
  }

  /** For every handler that succeeded in the iteration, the output of its last such row. */
  ghost predicate Gathers(outputs: Outputs, rows: seq<Row>, it: nat) {
    && (forall j :: 0 <= j < |rows| && Left(rows[j], it, rows[j].handler) ==> rows[j].handler in outputs)
    && forall h :: h in outputs ==> exists j: nat :: LastLeft(rows, it, h, j) && outputs[h] == rows[j].output
  }

  /** The outputs of the iteration so far, and those of every earlier one. */
  ghost predicate Given(rows: seq<Row>, it: nat, outputs: Outputs, history: seq<Outputs>) {
    && Gathers(outputs, rows, it)
    && |history| == it && forall i :: 0 <= i < it ==> Gathers(history[i], rows, i)
  }

  lemma {:induction false} OutputsGather(rows: seq<Row>, it: nat)
    ensures Gathers(OutputsOf(rows, it), rows, it)
  {
    if rows != [] {
      var n := |rows| - 1;
      OutputsGather(rows[..n], it);
      forall h | h in OutputsOf(rows, it)
        ensures exists j: nat :: LastLeft(rows, it, h, j) && OutputsOf(rows, it)[h] == rows[j].output
      {
        if Left(rows[n], it, h) {
          assert LastLeft(rows, it, h, n);
        } else {
          var j: nat :| LastLeft(rows[..n], it, h, j) && OutputsOf(rows[..n], it)[h] == rows[..n][j].output;
          assert LastLeft(rows, it, h, j);
        }
      }
    }
  }

  lemma LastLeftOne(rows: seq<Row>, it: nat, handler: string, j: nat, k: nat)
    requires LastLeft(rows, it, handler, j) && LastLeft(rows, it, handler, k)
    ensures j == k
  {}

  /** The rows determine what is gathered from them. */
  lemma GathersOne(a: Outputs, b: Outputs, rows: seq<Row>, it: nat)
    requires Gathers(a, rows, it) && Gathers(b, rows, it)
    ensures a == b
  {
    forall h | h in a ensures h in b && b[h] == a[h] {
      var j: nat :| LastLeft(rows, it, h, j) && a[h] == rows[j].output;
      var k: nat :| LastLeft(rows, it, h, k) && b[h] == rows[k].output;
      LastLeftOne(rows, it, h, j, k);
    }
    forall h | h in b ensures h in a {
      var k: nat :| LastLeft(rows, it, h, k) && b[h] == rows[k].output;
    }
  }

  lemma GivenHere(rows: seq<Row>, it: nat)
    ensures Given(rows, it, OutputsOf(rows, it), HistoryOf(rows, it))
  {
    hide Gathers, OutputsOf;
    OutputsGather(rows, it);
    forall i: nat | i < it ensures Gathers(HistoryOf(rows, it)[i], rows, i) {
      OutputsGather(rows, i);
    }
  }

  /** A result is what the handler of row `j` returns on what the rows before it left. */
  ghost predicate Returned(plan: Plan, rows: seq<Row>, j: nat, result: StepResult) {
    && j < |rows| && rows[j].position < |plan.steps|
    && exists outputs, history ::
         Given(rows[..j], rows[j].iteration, outputs, history) &&
         result == plan.handler(plan.steps[rows[j].position], rows[j].iteration, outputs, history)
  }

  // ----- what a succeeded row records --------------------------------------------------------------

  const PROMPT_KEYS: set<string> := {"prompt_id", "prompt_slug", "prompt_version"}

  /** The registered prompt of the version the step names, if there is one, else of its very text. */
  ghost predicate Chosen(prompts: seq<Prompt>, ref: PromptRef, p: Prompt) {
    && p in prompts && p.slug == ref.slug
    && if exists q :: q in prompts && q.slug == ref.slug && ref.version == Some(q.version)
       then ref.version == Some(p.version)
       else p.text == ref.template
  }

  /** All the handler returned, and the prompt under the three keys. */
  ghost predicate Annotated(stored: Output, given: Output, p: Prompt) {
    && (forall key :: key !in PROMPT_KEYS ==> (key in stored <==> key in given))
    && (forall key :: key in given && key !in PROMPT_KEYS ==> stored[key] == given[key])
    && "prompt_id" in stored && stored["prompt_id"] == Num(p.id * 1_000_000)
    && "prompt_slug" in stored && stored["prompt_slug"] == Text(p.slug)
    && "prompt_version" in stored && stored["prompt_version"] == Num(p.version * 1_000_000)
  }

  ghost predicate Records(plan: Plan, row: Row, result: StepResult) {
    && row.position < |plan.steps|
    && var step := plan.steps[row.position];
    && row.handler == step.handler && row.name == step.name && row.config == step.config
    && row.status == RowSucceeded
    && if result.prompt.None? then row.output == result.output && row.promptId == None
       else exists p :: Chosen(plan.prompts, result.prompt.value, p) && row.promptId == Some(p.id) && Annotated(row.output, result.output, p)
  }

  lemma {:induction false} FoundPrompt(prompts: seq<Prompt>, from: nat, wanted: Prompt -> bool)
    requires from <= |prompts|
    ensures var p := FindPrompt(prompts, from, wanted);
      if p.Some? then p.value in prompts && wanted(p.value) else forall i :: from <= i < |prompts| ==> !wanted(prompts[i])
    decreases |prompts| - from
  {
    if from < |prompts| && !wanted(prompts[from]) {
      FoundPrompt(prompts, from + 1, wanted);
    }
  }

  lemma ResolvedChosen(prompts: seq<Prompt>, ref: PromptRef)
    requires ResolvePrompt(prompts, ref).Some?
    ensures Chosen(prompts, ref, ResolvePrompt(prompts, ref).value)
  {
    FoundPrompt(prompts, 0, (p: Prompt) => p.slug == ref.slug && p.text == ref.template);
    if ref.version.Some? {
      FoundPrompt(prompts, 0, (p: Prompt) => p.slug == ref.slug && p.version == ref.version.value);
    }
  }

  /** The row one succeeded step adds. */
  lemma StepRecords(plan: Plan, work: Work, it: nat, pos: nat)
    requires pos < |plan.steps| && StepWork(plan, work, it, pos).Some?
    ensures var rows, result := StepWork(plan, work, it, pos).value.rows, ResultAt(plan, work.rows, it, pos);
      && |rows| == |work.rows| + 1 && rows[..|work.rows|] == work.rows
      && Cell(rows[|work.rows|]) == (it, pos)
      && Records(plan, rows[|work.rows|], result)
  {
    hide ResultAt, FindPrompt;
    var result := ResultAt(plan, work.rows, it, pos);
    var begun := work.rows + [OpenRow(plan, it, pos)];
    assert begun[..|begun| - 1] == work.rows;
    if result.prompt.Some? {
      ResolvedChosen(plan.prompts, result.prompt.value);
    }
  }

  // ----- what a candidate and the summary hold --------------------------------------------------------

  /** The last of the given values; `None` when none is given. */
  ghost predicate Latest<T>(value: Option<T>, rows: seq<Row>, results: seq<StepResult>, given: (Row, StepResult) -> Option<T>)
    requires |rows| == |results|
  {
    if value.Some? then
      exists j :: 0 <= j < |rows| && given(rows[j], results[j]) == value && forall k :: j < k < |rows| ==> given(rows[k], results[k]).None?
    else forall j :: 0 <= j < |rows| ==> given(rows[j], results[j]).None?
  }

  lemma LatestMore<T>(value: Option<T>, rows: seq<Row>, results: seq<StepResult>, row: Row, result: StepResult, given: (Row, StepResult) -> Option<T>)
    requires |rows| == |results| && Latest(value, rows, results, given)
    ensures Latest(if given(row, result).Some? then given(row, result) else value, rows + [row], results + [result], given)
  {
    var more, all := rows + [row], results + [result];
    if given(row, result).Some? {
      assert given(more[|rows|], all[|rows|]) == given(row, result);
    } else if value.Some? {
      var j :| 0 <= j < |rows| && given(rows[j], results[j]) == value && forall k :: j < k < |rows| ==> given(rows[k], results[k]).None?;
      assert given(more[j], all[j]) == value;
    }
  }

  /** The step touched its iteration's candidate. */
  predicate Touches(row: Row, result: StepResult, it: nat) {
    row.iteration == it && (result.candidate.Some? || result.benchmarks != [])
  }

  predicate Tells(row: Row, result: StepResult, it: nat) {
    row.iteration == it && result.candidate.Some?
  }

  function GivenSummary(it: nat): (Row, StepResult) -> Option<string> {
    (r: Row, s: StepResult) => if Tells(r, s, it) then s.candidate.value.summary else None
  }

  function GivenCommit(it: nat): (Row, StepResult) -> Option<string> {
    (r: Row, s: StepResult) => if Tells(r, s, it) then s.candidate.value.commitSha else None
  }

  function GivenBranch(it: nat): (Row, StepResult) -> Option<string> {
    (r: Row, s: StepResult) => if Tells(r, s, it) then s.candidate.value.branch else None
  }

  function GivenScore(it: nat): (Row, StepResult) -> Option<real> {
    (r: Row, s: StepResult) => if Tells(r, s, it) then s.candidate.value.score else None
  }

  function GivenCost(it: nat): (Row, StepResult) -> Option<int> {
    (r: Row, s: StepResult) => if Tells(r, s, it) then s.candidate.value.cost else None
  }

  function GivenTokens(it: nat): (Row, StepResult) -> Option<int> {
    (r: Row, s: StepResult) => if Tells(r, s, it) then s.candidate.value.tokens else None
  }

  /** The version of the prompt comes last, the extras before it, and a name is an extra too. */
  function GivenExtra(it: nat, key: string): (Row, StepResult) -> Option<Value> {
    (r: Row, s: StepResult) =>
      if !Touches(r, s, it) then None
      else if key == "prompt_version" && s.prompt.Some? && key in r.output then Some(r.output[key])
      else if s.candidate.Some? && key in s.candidate.value.extra then Some(s.candidate.value.extra[key])
      else if key == "name" && s.candidate.Some? && s.candidate.value.name != "" then Some(Text(s.candidate.value.name))
      else None
  }

  function GivenRunSummary(r: Row, s: StepResult): Option<string> {
    if s.summary != "" then Some(s.summary) else None
  }

  function Under<K, V>(m: map<K, V>, key: K): Option<V> {
    if key in m then Some(m[key]) else None
  }

  /** Every field of a candidate is what a step of its iteration gave last. */
  ghost predicate Collects(c: Candidate, rows: seq<Row>, results: seq<StepResult>)
    requires |rows| == |results|
  {
    && Latest(c.summary, rows, results, GivenSummary(c.iteration))
    && Latest(c.commitSha, rows, results, GivenCommit(c.iteration))
    && Latest(c.branch, rows, results, GivenBranch(c.iteration))
    && Latest(c.score, rows, results, GivenScore(c.iteration))
    && Latest(c.cost, rows, results, GivenCost(c.iteration))
    && Latest(c.tokens, rows, results, GivenTokens(c.iteration))
    && forall key: string :: Latest(Under(c.extra, key), rows, results, GivenExtra(c.iteration, key))
  }

  predicate AnyTouches(rows: seq<Row>, results: seq<StepResult>, it: nat)
    requires |rows| == |results|
  {
    exists j :: 0 <= j < |rows| && Touches(rows[j], results[j], it)
  }

  predicate HasCandidate(candidates: seq<Candidate>, it: nat) {
    exists c :: c in candidates && c.iteration == it
  }

  /** One candidate for every iteration a step touched, and no other. */
  ghost predicate CandidatesTell(candidates: seq<Candidate>, rows: seq<Row>, results: seq<StepResult>)
    requires |rows| == |results|
  {
    && (forall c :: c in candidates ==> Collects(c, rows, results))
    && (forall it: nat :: HasCandidate(candidates, it) <==> AnyTouches(rows, results, it))
  }

  lemma TouchedMore(rows: seq<Row>, results: seq<StepResult>, row: Row, result: StepResult, it: nat)
    requires |rows| == |results|
    ensures AnyTouches(rows + [row], results + [result], it) <==> AnyTouches(rows, results, it) || Touches(row, result, it)
  {
    var more, all := rows + [row], results + [result];
    if AnyTouches(rows, results, it) {
      var j :| 0 <= j < |rows| && Touches(rows[j], results[j], it);
      assert Touches(more[j], all[j], it);
    }
    if Touches(row, result, it) {
      assert Touches(more[|rows|], all[|rows|], it);
    }
  }

  lemma CollectsNothing(rows: seq<Row>, results: seq<StepResult>, it: nat)
    requires |rows| == |results| && !AnyTouches(rows, results, it)
    ensures Collects(Proposed(it), rows, results)
  {
    forall j | 0 <= j < |rows| ensures !Touches(rows[j], results[j], it) && !Tells(rows[j], results[j], it) {}
  }

  function Newer<T>(given: Option<T>, current: Option<T>): Option<T> {
    if given.Some? then given else current
  }

  /** `d` is `c` with what one more step gives. */
  ghost predicate Follows(c: Candidate, d: Candidate, row: Row, result: StepResult) {
    var it := c.iteration;
    && d.iteration == it
    && d.summary == Newer(GivenSummary(it)(row, result), c.summary)
    && d.commitSha == Newer(GivenCommit(it)(row, result), c.commitSha)
    && d.branch == Newer(GivenBranch(it)(row, result), c.branch)
    && d.score == Newer(GivenScore(it)(row, result), c.score)
    && d.cost == Newer(GivenCost(it)(row, result), c.cost)
    && d.tokens == Newer(GivenTokens(it)(row, result), c.tokens)
    && forall key: string :: Under(d.extra, key) == Newer(GivenExtra(it, key)(row, result), Under(c.extra, key))
  }

  lemma TouchedFollows(c: Candidate, row: Row, result: StepResult, prompt: Option<Prompt>)
    requires Touches(row, result, c.iteration) && result.prompt.Some? == prompt.Some?
    requires prompt.Some? ==> Annotated(row.output, result.output, prompt.value)
    ensures Follows(c, Touched(c, result.candidate, prompt), row, result)
  {
    var d := Touched(c, result.candidate, prompt);
    forall key: string ensures Under(d.extra, key) == Newer(GivenExtra(c.iteration, key)(row, result), Under(c.extra, key)) {}
  }

  lemma SameFollows(c: Candidate, row: Row, result: StepResult)
    requires !Touches(row, result, c.iteration)
    ensures Follows(c, c, row, result)
  {}

  lemma CollectsMore(c: Candidate, d: Candidate, rows: seq<Row>, results: seq<StepResult>, row: Row, result: StepResult)
    requires |rows| == |results| && Collects(c, rows, results) && Follows(c, d, row, result)
    ensures Collects(d, rows + [row], results + [result])
  {
    hide Latest, Under, GivenExtra, Tells;
    var it := c.iteration;
    LatestMore(c.summary, rows, results, row, result, GivenSummary(it));
    LatestMore(c.commitSha, rows, results, row, result, GivenCommit(it));
    LatestMore(c.branch, rows, results, row, result, GivenBranch(it));
    LatestMore(c.score, rows, results, row, result, GivenScore(it));
    LatestMore(c.cost, rows, results, row, result, GivenCost(it));
    LatestMore(c.tokens, rows, results, row, result, GivenTokens(it));
    forall key: string ensures Latest(Under(d.extra, key), rows + [row], results + [result], GivenExtra(it, key)) {
      LatestMore(Under(c.extra, key), rows, results, row, result, GivenExtra(it, key));
    }
  }

  /** What a step does to the candidates is what the tells say. */
  lemma StepTells(candidates: seq<Candidate>, rows: seq<Row>, results: seq<StepResult>, row: Row, result: StepResult, prompt: Option<Prompt>)
    requires |rows| == |results| && CandidatesTell(candidates, rows, results)
    requires forall i, j :: 0 <= i < j < |candidates| ==> candidates[i].iteration != candidates[j].iteration
    requires Touches(row, result, row.iteration) && result.prompt.Some? == prompt.Some?
    requires prompt.Some? ==> Annotated(row.output, result.output, prompt.value)
    ensures var cands := WithCandidate(candidates, row.iteration);
      var i := IndexOf(cands, row.iteration);
      CandidatesTell(cands[i := Touched(cands[i], result.candidate, prompt)], rows + [row], results + [result])
  {
    hide Collects, AnyTouches, Annotated, Touched, IndexOf;
    var it := row.iteration;
    var cands := WithCandidate(candidates, it);
    var i := IndexOf(cands, it);
    var d := Touched(cands[i], result.candidate, prompt);
    var after := cands[i := d];
    TouchedFollows(cands[i], row, result, prompt);
    forall c | c in cands ensures Collects(c, rows, results) {
      if c !in candidates {
        CollectsNothing(rows, results, it);
      }
    }
    CollectsMore(cands[i], d, rows, results, row, result);
    forall c | c in after ensures Collects(c, rows + [row], results + [result]) {
      var k :| 0 <= k < |after| && after[k] == c;
      if k != i {
        assert cands[k] in cands;
        SameFollows(c, row, result);
        CollectsMore(c, c, rows, results, row, result);
      }
    }
    forall x: nat ensures HasCandidate(after, x) <==> AnyTouches(rows + [row], results + [result], x) {
      TouchedMore(rows, results, row, result, x);
      HasAfter(candidates, it, d, x);
    }
  }

  lemma HasAfter(candidates: seq<Candidate>, it: nat, d: Candidate, x: nat)
    requires d.iteration == it
    ensures var cands := WithCandidate(candidates, it);
      HasCandidate(cands[IndexOf(cands, it) := d], x) <==> HasCandidate(candidates, x) || x == it
  {
    var cands := WithCandidate(candidates, it);
    var i := IndexOf(cands, it);
    var after := cands[i := d];
    assert after[i] == d;
    if HasCandidate(candidates, x) && x != it {
      var c :| c in candidates && c.iteration == x;
      var k :| 0 <= k < |candidates| && candidates[k] == c;
      assert after[k] == c;
    }
    if HasCandidate(after, x) && x != it {
      var c :| c in after && c.iteration == x;
      var k :| 0 <= k < |after| && after[k] == c;
      assert cands[k] == c;
    }
  }

  /** A step that gives neither a candidate nor benchmarks leaves the candidates alone. */
  lemma UntouchedTells(candidates: seq<Candidate>, rows: seq<Row>, results: seq<StepResult>, row: Row, result: StepResult)
    requires |rows| == |results| && CandidatesTell(candidates, rows, results) && !Touches(row, result, row.iteration)
    ensures CandidatesTell(candidates, rows + [row], results + [result])
  {
    hide Collects, AnyTouches;
    forall c | c in candidates ensures Collects(c, rows + [row], results + [result]) {
      SameFollows(c, row, result);
      CollectsMore(c, c, rows, results, row, result);
    }
    forall x: nat ensures HasCandidate(candidates, x) <==> AnyTouches(rows + [row], results + [result], x) {
      TouchedMore(rows, results, row, result, x);
    }
  }

  // ----- the whole record ------------------------------------------------------------------------------

  /** The rows hold what the listed results say, and so do the candidates and the summary. */
  ghost predicate WorkTells(plan: Plan, work: Work, results: seq<StepResult>) {
    && |work.rows| == |results|
    && (forall j: nat :: j < |results| ==> Returned(plan, work.rows, j, results[j]) && Records(plan, work.rows[j], results[j]))
    && CandidatesTell(work.candidates, work.rows, results)
    && Latest(if work.summary != "" then Some(work.summary) else None, work.rows, results, GivenRunSummary)
  }

  lemma StepReturns(plan: Plan, work: Work, it: nat, pos: nat)
    requires pos < |plan.steps| && StepWork(plan, work, it, pos).Some?
    ensures Returned(plan, StepWork(plan, work, it, pos).value.rows, |work.rows|, ResultAt(plan, work.rows, it, pos))
  {
    hide Given, OutputsOf, HistoryOf, Records;
    StepRecords(plan, work, it, pos);
    GivenHere(work.rows, it);
  }

  lemma ReturnedPrefix(plan: Plan, rows: seq<Row>, more: seq<Row>, j: nat, result: StepResult)
    requires rows <= more && j < |rows| && Returned(plan, rows, j, result)
    ensures Returned(plan, more, j, result)
  {
    assert rows[..j] == more[..j] && rows[j] == more[j];
  }

  lemma StepCandidatesTell(plan: Plan, work: Work, results: seq<StepResult>, it: nat, pos: nat)
    requires pos < |plan.steps| && StepWork(plan, work, it, pos).Some? && WorkTells(plan, work, results)
    requires OnePerIteration(work.candidates, it, pos)
    ensures var next, result := StepWork(plan, work, it, pos).value, ResultAt(plan, work.rows, it, pos);
      |next.rows| == |work.rows| + 1 && CandidatesTell(next.candidates, work.rows + [next.rows[|work.rows|]], results + [result])
  {
    hide ResultAt, CandidatesTell, Touched, WithCandidate, IndexOf, Returned, Records;
    var next, result := StepWork(plan, work, it, pos).value, ResultAt(plan, work.rows, it, pos);
    StepRecords(plan, work, it, pos);
    var row := next.rows[|work.rows|];
    if Touches(row, result, it) {
      StepAnnotates(plan, work, it, pos);
      StepTells(work.candidates, work.rows, results, row, result, Resolved(plan, result).value);
    } else {
      UntouchedTells(work.candidates, work.rows, results, row, result);
    }
  }

  lemma StepAnnotates(plan: Plan, work: Work, it: nat, pos: nat)
    requires pos < |plan.steps| && StepWork(plan, work, it, pos).Some?
    ensures var rows, result := StepWork(plan, work, it, pos).value.rows, ResultAt(plan, work.rows, it, pos);
      && |rows| == |work.rows| + 1 && Resolved(plan, result).Some?
      && var prompt := Resolved(plan, result).value;
      && result.prompt.Some? == prompt.Some?
      && (prompt.Some? ==> Annotated(rows[|work.rows|].output, result.output, prompt.value))
  {
    hide ResultAt;
  }

  lemma StepWorkTells(plan: Plan, work: Work, results: seq<StepResult>, it: nat, pos: nat)
    requires pos < |plan.steps| && StepWork(plan, work, it, pos).Some? && WorkTells(plan, work, results)
    requires OnePerIteration(work.candidates, it, pos)
    ensures WorkTells(plan, StepWork(plan, work, it, pos).value, results + [ResultAt(plan, work.rows, it, pos)])
  {
    hide ResultAt, CandidatesTell, Returned, Records, Latest;
    var next, result := StepWork(plan, work, it, pos).value, ResultAt(plan, work.rows, it, pos);
    StepRecords(plan, work, it, pos);
    StepReturns(plan, work, it, pos);
    StepCandidatesTell(plan, work, results, it, pos);
    var row := next.rows[|work.rows|];
    assert next.rows == work.rows + [row];
    forall j: nat | j < |work.rows| ensures Returned(plan, next.rows, j, results[j]) && Records(plan, next.rows[j], results[j]) {
      ReturnedPrefix(plan, work.rows, next.rows, j, results[j]);
    }
    LatestMore(if work.summary != "" then Some(work.summary) else None, work.rows, results, row, result, GivenRunSummary);
  }

  lemma {:induction false} ReferenceTells(plan: Plan, it: nat, pos: nat) returns (results: seq<StepResult>)
    requires pos <= |plan.steps| && Reference(plan, it, pos).Some?
    ensures WorkTells(plan, Reference(plan, it, pos).value, results)
    decreases it, pos
  {
    hide WorkTells, StepWork, ResultAt, OnePerIteration;
    if pos != 0 {
      var before := Reference(plan, it, pos - 1).value;
      var init := ReferenceTells(plan, it, pos - 1);
      ReferenceCandidates(plan, it, pos - 1);
      StepWorkTells(plan, before, init, it, pos - 1);
      results := init + [ResultAt(plan, before.rows, it, pos - 1)];
    } else if it != 0 {
      results := ReferenceTells(plan, it - 1, |plan.steps|);
    } else {
      NothingTells(plan);
      results := [];
    }
  }

  lemma NothingTells(plan: Plan)
    ensures WorkTells(plan, Work([], [], [], ""), [])
  {}

  lemma CollectsBare(c: Candidate, rows: seq<Row>, results: seq<StepResult>)
    requires |rows| == |results| && Collects(c.(evaluated := false), rows, results)
    ensures Collects(c, rows, results)
  {
    hide Latest;
  }

  lemma TellsBare(candidates: seq<Candidate>, rows: seq<Row>, results: seq<StepResult>)
    requires |rows| == |results| && CandidatesTell(Bare(candidates), rows, results)
    ensures CandidatesTell(candidates, rows, results)
  {
    hide Collects, AnyTouches;
    var bare := Bare(candidates);
    forall c | c in candidates ensures Collects(c, rows, results) {
      var k :| 0 <= k < |candidates| && candidates[k] == c;
      assert bare[k] in bare;
      CollectsBare(c, rows, results);
    }
    forall it: nat ensures HasCandidate(candidates, it) <==> AnyTouches(rows, results, it) {
      if HasCandidate(candidates, it) {
        var c :| c in candidates && c.iteration == it;
        var k :| 0 <= k < |candidates| && candidates[k] == c;
        assert bare[k] in bare && bare[k].iteration == it;
      }
      if HasCandidate(bare, it) {
        var c :| c in bare && c.iteration == it;
        var k :| 0 <= k < |bare| && bare[k] == c;
        assert candidates[k] in candidates && candidates[k].iteration == it;
      }
    }
  }

  /** In every reachable state, on the succeeded rows in the order they stand, `finished`: row `j` holds all
      that the handler of its step returned on what the rows before it left, with the prompt chosen, and
      nothing else; a candidate exists exactly for the iterations a step gave one to, and each of its
      fields is what was given last, as is the run's summary. */
  lemma RecordsTell(life: Life, acts: seq<Act>) returns (finished: seq<Row>, results: seq<StepResult>)
    ensures var plan, work := PlanFor(life), After(life, acts).work;
      && finished <= work.rows
      && |work.rows| <= |finished| + 1 && (forall j :: |finished| <= j < |work.rows| ==> work.rows[j].status != RowSucceeded)
      && WorkTells(plan, work.(rows := finished), results)
  {
    hide WorkTells, Reference, CandidatesTell, Returned, Records, Latest, Ordered;
    var plan, db := PlanFor(life), After(life, acts);
    ReachableHolds(life, acts);
    var fi, fp :| HoldsAt(life, db, fi, fp);
    MatchesSome(plan, db.work, fi, fp);
    var ref := Reference(plan, fi, fp).value;
    finished := ref.rows;
    results := ReferenceTells(plan, fi, fp);
    BareTells(plan, ref, db.work.(rows := finished), results);
  }

  lemma BareTells(plan: Plan, ref: Work, work: Work, results: seq<StepResult>)
    requires WorkTells(plan, ref, results) && work.rows == ref.rows && Bare(work.candidates) == ref.candidates && work.summary == ref.summary
    ensures WorkTells(plan, work, results)
  {
    hide Returned, Records, Latest, CandidatesTell;
    TellsBare(work.candidates, work.rows, results);
  }

  /** The rows before it determine what a row's handler returned. */
  lemma ReturnedOne(plan: Plan, rows: seq<Row>, j: nat, a: StepResult, b: StepResult)
    requires Returned(plan, rows, j, a) && Returned(plan, rows, j, b)
    ensures a == b
  {
    hide Gathers;
    var it := rows[j].iteration;
    var outputs, history :| Given(rows[..j], it, outputs, history) && a == plan.handler(plan.steps[rows[j].position], it, outputs, history);
    var same, past :| Given(rows[..j], it, same, past) && b == plan.handler(plan.steps[rows[j].position], it, same, past);
    GathersOne(outputs, same, rows[..j], it);
    forall i | 0 <= i < it ensures history[i] == past[i] {
      GathersOne(history[i], past[i], rows[..j], i);
    }
    assert history == past;
  }

  /** Every succeeded row of every reachable state holds what its handler returned on what the rows before
      it left: every key of the output but the three of the prompt, with its value and no other key; with
      a prompt, the three keys and the id of the registered prompt chosen; without, no prompt at all. */
  lemma RowRecords(life: Life, acts: seq<Act>, j: nat)
    requires j < |After(life, acts).work.rows| && After(life, acts).work.rows[j].status == RowSucceeded
    ensures var plan, rows := PlanFor(life), After(life, acts).work.rows;
      exists result :: Returned(plan, rows, j, result) && Records(plan, rows[j], result)
  {
    hide Returned, Records, After;
    var plan, rows := PlanFor(life), After(life, acts).work.rows;
    var finished, results := RecordsTell(life, acts);
    ReturnedPrefix(plan, finished, rows, j, results[j]);
    assert rows[j] == finished[j];
  }

  ghost function OnKnown(benchmarks: set<string>, outcomes: seq<BenchmarkOutcome>): nat -> bool {
    (x: nat) => x < |outcomes| && outcomes[x].slug in benchmarks
  }

  /** `known` holds the outcomes on benchmarks the lab has, in order. */
  ghost predicate Keeps(benchmarks: set<string>, it: nat, outcomes: seq<BenchmarkOutcome>, n: nat, known: seq<BenchmarkResult>, at: seq<nat>) {
    && Picks(at, n, OnKnown(benchmarks, outcomes)) && |at| == |known|
    && forall i :: 0 <= i < |at| ==> at[i] < |outcomes| && known[i] == BenchmarkResult(it, outcomes[at[i]])
  }

  lemma KeepsMore(benchmarks: set<string>, it: nat, outcomes: seq<BenchmarkOutcome>, n: nat, known: seq<BenchmarkResult>, at: seq<nat>)
    requires n < |outcomes| && Keeps(benchmarks, it, outcomes, n, known, at)
    ensures if outcomes[n].slug in benchmarks
      then Keeps(benchmarks, it, outcomes, n + 1, known + [BenchmarkResult(it, outcomes[n])], at + [n])
      else Keeps(benchmarks, it, outcomes, n + 1, known, at)
  {
    hide Picks;
    PicksMore(at, n, OnKnown(benchmarks, outcomes));
  }

  /** Exactly the outcomes on benchmarks the lab has are kept, in the order given. */
  lemma {:induction false} KnownKeeps(benchmarks: set<string>, it: nat, outcomes: seq<BenchmarkOutcome>, n: nat) returns (at: seq<nat>)
    requires n <= |outcomes|
    ensures Keeps(benchmarks, it, outcomes, n, Known(benchmarks, it, outcomes[..n]), at)
  {
    at := [];
    if n == 0 {
      PicksNone(OnKnown(benchmarks, outcomes));
    } else {
      hide Keeps;
      at := KnownKeeps(benchmarks, it, outcomes, n - 1);
      assert outcomes[..n][..n - 1] == outcomes[..n - 1];
      KeepsMore(benchmarks, it, outcomes, n - 1, Known(benchmarks, it, outcomes[..n - 1]), at);
      at := if outcomes[n - 1].slug in benchmarks then at + [n - 1] else at;
    }
  }

  // ----- money -------------------------------------------------------------------------------------------

  /** Millionths of a dollar: a number as it is, `true` one dollar, anything else nothing. */
  function Worth(v: Value): int {
    if v.Num? then v.millionths else if v == Flag(true) then 1_000_000 else 0
  }

  /** What the succeeded rows report under `cost_usd`. */
  function Charged(rows: seq<Row>): int {
    if rows == [] then 0
    else
      var last := rows[|rows| - 1];
      Charged(rows[..|rows| - 1]) +
        if last.status == RowSucceeded && "cost_usd" in last.output then Worth(last.output["cost_usd"]) else 0
  }

  /** The spend the cap is compared with is what the succeeded rows report. */
  lemma {:induction false} SpendIsCharged(rows: seq<Row>)
    ensures Spend(rows) == Charged(rows)
  {
    if rows != [] {
      SpendIsCharged(rows[..|rows| - 1]);
    }
  }

  // ----- what a run is planned to do ---------------------------------------------------------------------

  /** The override replaces a non-empty `agent` and nothing else. */
  ghost predicate StepFor(step: StepSpec, given: StepSpec, agent: string) {
    && step.handler == given.handler && step.name == given.name
    && step.config.Keys == given.config.Keys
    && forall key :: key in given.config ==>
         step.config[key] == if key == "agent" && agent != "" && given.config[key] != "" then agent else given.config[key]
  }

  /** A value that is set and not 0, else the default. */
  function InForce(given: Option<nat>, default: nat): nat {
    if given.Some? && given.value > 0 then given.value else default
  }

  /** In every reachable state the plan is the launched one: the workflow's steps with the agent asked for,
      and as many iterations as were asked for, or as the workflow has when none or 0 were. */
  lemma PlanTells(life: Life, acts: seq<Act>)
    ensures var plan, w := PlanOf(life.workflow, After(life, acts).ctx), life.workflow;
      && plan == PlanFor(life)
      && |plan.steps| == |w.steps| && (forall p :: 0 <= p < |w.steps| ==> StepFor(plan.steps[p], w.steps[p], life.launch.agent))
      && plan.iterations == InForce(life.launch.iterations, w.iterations)
      && plan.prompts == w.prompts && plan.benchmarks == w.benchmarks && plan.handler == w.handler
      && plan.defaultBudget == w.defaultBudget && plan.defaultTimeout == w.defaultTimeout
  {
    hide After, Holds;
    RunTheorems.ReachableRowsOk(life, acts);
    var created := Created(life);
  }

  /** A new run waits with what was asked for: no work, no limit on time but the default, and a budget that
      stays 0 when 0 was asked for. */
  lemma CreatedTells(life: Life)
    ensures var db, launch := Created(life), life.launch;
      && db.status == Pending && db.work == Work([], [], [], "")
      && db.ctx.iterations == InForce(launch.iterations, life.workflow.iterations) && db.ctx.agentOverride == launch.agent
      && db.ctx.budget == Some(if launch.budget.Some? then launch.budget.value else life.workflow.defaultBudget)
      && db.ctx.timeout == None && db.ctx.iterationsDone == None && db.ctx.spent == None && db.ctx.pausedKind == None
  {}

  /** A claim, a retry and a resume each move a run on from its own statuses and leave it alone in any other;
      none of them touches the work, and only a resume the context. */
  lemma QueueTells(life: Life, db: Db, act: Act)
    requires !act.Execute?
    ensures var from := if act.Claim? then {Pending} else if act.Retry? then {Failed, Cancelled} else {Paused};
      var next := Next(life, db, act);
      if db.status in from then
        && next.status == (if act.Claim? then Scheduled else Pending) && next.work == db.work
        && (!act.Resume? ==> next.ctx == db.ctx)
      else next == db
  {}

  /** The nearest multiple of 100 micro-dollars, of two the one that is an even multiple. */
  predicate Rounds(rounded: nat, x: nat) {
    && rounded % 100 == 0 && -50 <= rounded - x <= 50
    && (rounded - x == 50 || rounded - x == -50 ==> (rounded / 100) % 2 == 0)
  }

  /** There is one such multiple. */
  lemma RoundsOne(a: nat, b: nat, x: nat)
    requires Rounds(a, x) && Rounds(b, x)
    ensures a == b
  {}

  /** What a resume of a paused run adds to the limits in force. Asked for nothing, it adds 2 dollars, or
      one hour if the run had stopped on time. All else about the run stays. */
  lemma ResumeTells(life: Life, db: Db, addUsd: Option<nat>, addTime: Option<nat>)
    requires db.status == Paused
    ensures var next, w := Next(life, db, Resume(addUsd, addTime)), life.workflow;
      var nothing, onTime := addUsd == None && addTime == None, db.ctx.pausedKind == Some(StepTime);
      var usd := if nothing then (if onTime then 0 else 2_000_000) else if addUsd.Some? then addUsd.value else 0;
      var time := if nothing then (if onTime then 36_000 else 0) else if addTime.Some? then addTime.value else 0;
      && next == db.(status := Pending, ctx := db.ctx.(budget := next.ctx.budget, timeout := next.ctx.timeout, pausedKind := None))
      && (if usd == 0 then next.ctx.budget == db.ctx.budget
          else next.ctx.budget.Some? && Rounds(next.ctx.budget.value, InForce(db.ctx.budget, w.defaultBudget) + usd))
      && (if time == 0 then next.ctx.timeout == db.ctx.timeout
          else next.ctx.timeout == Some(InForce(db.ctx.timeout, w.defaultTimeout) + time))
  {
    hide Round4, Rounds;
    forall x ensures Rounds(Round4(x), x) {
      Round4Rounds(x);
    }
  }

  lemma Round4Rounds(x: nat)
    ensures Rounds(Round4(x), x)
  {}
}
