/** The reference a run is compared with: the cells of the grid one after the other, with no
    commits, no budget, no checkpoints and no interruption. */
module RunReference {
  import opened Options
  import opened RunModel
  import RunExecutor

  /** One succeeded cell. `None` when the step's prompt is not registered. */
  function StepWork(plan: Plan, work: Work, it: nat, pos: nat): Option<Work>
    requires pos < |plan.steps|
  {
    var result := ResultAt(plan, work.rows, it, pos);
    var prompt := Resolved(plan, result);
    if prompt.None? then None
    else Some(Absorbed(plan, work.(rows := work.rows + [OpenRow(plan, it, pos)]), it, result, prompt.value))
  }

  /** What the cells before `(it, pos)` produce. */
  function Reference(plan: Plan, it: nat, pos: nat): Option<Work>
    requires pos <= |plan.steps|
    decreases it, pos
  {
    if pos == 0 then
      if it == 0 then Some(Work([], [], [], "")) else Reference(plan, it - 1, |plan.steps|)
    else
      var before := Reference(plan, it, pos - 1);
      if before.None? then None else StepWork(plan, before.value, it, pos - 1)
  }

  predicate Before(a: (nat, nat), b: (nat, nat)) {
    a.0 < b.0 || (a.0 == b.0 && a.1 < b.1)
  }

  /** The recorded row of a cell, apart from its output and prompt. */
  predicate RowOf(plan: Plan, row: Row, it: nat, pos: nat) {
    pos < |plan.steps| && row == OpenRow(plan, it, pos).(status := row.status, output := row.output, promptId := row.promptId)
  }

  predicate Ordered(plan: Plan, rows: seq<Row>, it: nat, pos: nat) {
    && (forall r :: r in rows ==> r.status.RowSucceeded? && RowOf(plan, r, r.iteration, r.position) && Before(Cell(r), (it, pos)))
    && forall i, j :: 0 <= i < j < |rows| ==> Before(Cell(rows[i]), Cell(rows[j]))
  }

  lemma StepRows(plan: Plan, work: Work, it: nat, pos: nat)
    requires pos < |plan.steps| && StepWork(plan, work, it, pos).Some?
    ensures var rows := StepWork(plan, work, it, pos).value.rows;
      && |rows| == |work.rows| + 1 && rows[..|work.rows|] == work.rows && rows == work.rows + [rows[|work.rows|]]
      && RowOf(plan, rows[|work.rows|], it, pos) && rows[|work.rows|].status.RowSucceeded?
  {
    var begun := work.rows + [OpenRow(plan, it, pos)];
    assert begun[..|begun| - 1] == work.rows;
  }

  lemma OrderedSnoc(plan: Plan, rows: seq<Row>, row: Row, it: nat, pos: nat)
    requires Ordered(plan, rows, it, pos)
    requires RowOf(plan, row, it, pos) && row.status.RowSucceeded?
    ensures Ordered(plan, rows + [row], it, pos + 1)
  {
    forall r | r in rows + [row]
      ensures r.status.RowSucceeded? && RowOf(plan, r, r.iteration, r.position) && Before(Cell(r), (it, pos + 1))
    {
      assert r in rows || r == row;
    }
    forall i, j | 0 <= i < j < |rows + [row]| ensures Before(Cell((rows + [row])[i]), Cell((rows + [row])[j])) {
      assert rows[i] in rows;
    }
  }

  /** The reference's rows are the grid's cells before `(it, pos)`, in order. */
  lemma {:induction false} ReferenceOrdered(plan: Plan, it: nat, pos: nat)
    requires pos <= |plan.steps| && Reference(plan, it, pos).Some?
    ensures Ordered(plan, Reference(plan, it, pos).value.rows, it, pos)
    decreases it, pos
  {
    hide StepWork, Ordered;
    if pos != 0 {
      var before := Reference(plan, it, pos - 1).value;
      ReferenceOrdered(plan, it, pos - 1);
      StepRows(plan, before, it, pos - 1);
      OrderedSnoc(plan, before.rows, Reference(plan, it, pos).value.rows[|before.rows|], it, pos - 1);
    } else if it != 0 {
      ReferenceOrdered(plan, it - 1, |plan.steps|);
      OrderedWiden(plan, Reference(plan, it, pos).value.rows, it - 1);
    } else {
      OrderedNothing(plan);
    }
  }

  lemma OrderedWiden(plan: Plan, rows: seq<Row>, it: nat)
    requires Ordered(plan, rows, it, |plan.steps|)
    ensures Ordered(plan, rows, it + 1, 0)
  {}

  lemma OrderedNothing(plan: Plan)
    ensures Ordered(plan, [], 0, 0)
  {}

  /** Every cell before `(it, pos)` has a row. */
  lemma {:induction false} ReferenceComplete(plan: Plan, it: nat, pos: nat, i: nat, p: nat)
    requires pos <= |plan.steps| && Reference(plan, it, pos).Some?
    requires p < |plan.steps| && Before((i, p), (it, pos))
    ensures SucceededAt(Reference(plan, it, pos).value.rows, i, p)
    decreases it, pos
  {
    hide StepWork, SucceededAt;
    if pos == 0 {
      ReferenceComplete(plan, it - 1, |plan.steps|, i, p);
    } else {
      var before := Reference(plan, it, pos - 1).value;
      StepRows(plan, before, it, pos - 1);
      var rows := Reference(plan, it, pos).value.rows;
      RunExecutor.SucceededAtSnoc(before.rows, rows[|before.rows|], i, p);
      if (i, p) != (it, pos - 1) {
        ReferenceComplete(plan, it, pos - 1, i, p);
      }
    }
  }

  lemma ReferenceCells(plan: Plan, it: nat, pos: nat, i: nat, p: nat)
    requires pos <= |plan.steps| && Reference(plan, it, pos).Some?
    ensures SucceededAt(Reference(plan, it, pos).value.rows, i, p) <==> p < |plan.steps| && Before((i, p), (it, pos))
  {
    ReferenceOrdered(plan, it, pos);
    if p < |plan.steps| && Before((i, p), (it, pos)) {
      ReferenceComplete(plan, it, pos, i, p);
    }
  }

  /** A longer reference run extends a shorter one, and exists only if the shorter one does. */
  lemma {:induction false} ReferencePrefix(plan: Plan, it: nat, pos: nat, i: nat, p: nat)
    requires pos <= |plan.steps| && p <= |plan.steps|
    requires !Before((it, pos), (i, p)) && Reference(plan, it, pos).Some?
    ensures Reference(plan, i, p).Some?
    ensures Reference(plan, i, p).value.rows <= Reference(plan, it, pos).value.rows
    decreases it, pos
  {
    hide StepWork;
    if (i, p) != (it, pos) {
      if pos == 0 {
        ReferencePrefix(plan, it - 1, |plan.steps|, i, p);
      } else {
        ReferencePrefix(plan, it, pos - 1, i, p);
        StepRows(plan, Reference(plan, it, pos - 1).value, it, pos - 1);
      }
    }
  }

  /** The benchmark outcomes of the cells before `(it, pos)` on benchmarks the lab has, in order. */
  function Outcomes(plan: Plan, rows: seq<Row>): seq<BenchmarkResult>
    requires forall r :: r in rows ==> r.position < |plan.steps|
  {
    if rows == [] then []
    else
      var init, last := rows[..|rows| - 1], rows[|rows| - 1];
      assert forall r :: r in init ==> r in rows;
      assert last in rows;
      Outcomes(plan, init) + Known(plan.benchmarks, last.iteration, ResultAt(plan, init, last.iteration, last.position).benchmarks)
  }

  lemma StepResults(plan: Plan, work: Work, it: nat, pos: nat)
    requires pos < |plan.steps| && StepWork(plan, work, it, pos).Some?
    ensures StepWork(plan, work, it, pos).value.results ==
      work.results + Known(plan.benchmarks, it, ResultAt(plan, work.rows, it, pos).benchmarks)
  {}

  lemma OutcomesNothing(plan: Plan)
    ensures Outcomes(plan, []) == []
  {}

  lemma OrderedPositions(plan: Plan, it: nat, pos: nat)
    requires pos <= |plan.steps| && Reference(plan, it, pos).Some?
    ensures forall r :: r in Reference(plan, it, pos).value.rows ==> r.position < |plan.steps|
  {
    ReferenceOrdered(plan, it, pos);
  }

  lemma {:induction false} ReferenceOutcomes(plan: Plan, it: nat, pos: nat)
    requires pos <= |plan.steps| && Reference(plan, it, pos).Some?
    ensures forall r :: r in Reference(plan, it, pos).value.rows ==> r.position < |plan.steps|
    ensures Reference(plan, it, pos).value.results == Outcomes(plan, Reference(plan, it, pos).value.rows)
    decreases it, pos
  {
    hide StepWork, ResultAt, Known, Absorbed, Outcomes, Ordered;
    OutcomesNothing(plan);
    OrderedPositions(plan, it, pos);
    if pos != 0 {
      var before := Reference(plan, it, pos - 1).value;
      ReferenceOutcomes(plan, it, pos - 1);
      StepRows(plan, before, it, pos - 1);
      StepResults(plan, before, it, pos - 1);
      OutcomesSnoc(plan, before.rows, Reference(plan, it, pos).value.rows[|before.rows|]);
    } else if it != 0 {
      ReferenceOutcomes(plan, it - 1, |plan.steps|);
    }
  }

  lemma OutcomesSnoc(plan: Plan, rows: seq<Row>, row: Row)
    requires forall r :: r in rows + [row] ==> r.position < |plan.steps|
    ensures row.position < |plan.steps| && forall r :: r in rows ==> r.position < |plan.steps|
    ensures Outcomes(plan, rows + [row]) ==
      Outcomes(plan, rows) + Known(plan.benchmarks, row.iteration, ResultAt(plan, rows, row.iteration, row.position).benchmarks)
  {
    assert row in rows + [row];
    assert forall r :: r in rows ==> r in rows + [row];
    assert (rows + [row])[..|rows|] == rows;
  }

  /** One candidate per iteration, and none for an iteration not yet reached. */
  predicate OnePerIteration(candidates: seq<Candidate>, it: nat, pos: nat) {
    && (forall c :: c in candidates ==> c.iteration < it || (c.iteration == it && pos > 0))
    && forall i, j :: 0 <= i < j < |candidates| ==> candidates[i].iteration != candidates[j].iteration
  }

  lemma WithOnePerIteration(candidates: seq<Candidate>, it: nat, pos: nat)
    requires OnePerIteration(candidates, it, pos)
    ensures OnePerIteration(WithCandidate(candidates, it), it, pos + 1)
  {
    hide IndexOf;
    var cands := WithCandidate(candidates, it);
    forall c | c in cands ensures c.iteration < it || c.iteration == it {
      assert c in candidates || c == Proposed(it);
    }
  }

  lemma UpdatedOnePerIteration(candidates: seq<Candidate>, it: nat, pos: nat, i: nat, c: Candidate)
    requires OnePerIteration(candidates, it, pos) && i < |candidates| && c.iteration == candidates[i].iteration
    ensures OnePerIteration(candidates[i := c], it, pos)
  {
    assert candidates[i] in candidates;
    forall x | x in candidates[i := c] ensures x.iteration < it || (x.iteration == it && pos > 0) {
      assert x in candidates || x == c;
    }
  }

  lemma TouchedOnePerIteration(candidates: seq<Candidate>, it: nat, pos: nat, info: Option<CandidateInfo>, prompt: Option<Prompt>)
    requires OnePerIteration(candidates, it, pos)
    ensures var cands := WithCandidate(candidates, it);
      var i := IndexOf(cands, it);
      OnePerIteration(cands[i := Touched(cands[i], info, prompt)], it, pos + 1)
  {
    hide IndexOf, WithCandidate, OnePerIteration;
    var cands := WithCandidate(candidates, it);
    var i := IndexOf(cands, it);
    WithOnePerIteration(candidates, it, pos);
    UpdatedOnePerIteration(cands, it, pos + 1, i, Touched(cands[i], info, prompt));
  }

  lemma StepCandidates(plan: Plan, work: Work, it: nat, pos: nat)
    requires pos < |plan.steps| && StepWork(plan, work, it, pos).Some?
    requires OnePerIteration(work.candidates, it, pos)
    ensures OnePerIteration(StepWork(plan, work, it, pos).value.candidates, it, pos + 1)
  {
    var result := ResultAt(plan, work.rows, it, pos);
    TouchedOnePerIteration(work.candidates, it, pos, result.candidate, Resolved(plan, result).value);
  }

  lemma {:induction false} ReferenceCandidates(plan: Plan, it: nat, pos: nat)
    requires pos <= |plan.steps| && Reference(plan, it, pos).Some?
    ensures OnePerIteration(Reference(plan, it, pos).value.candidates, it, pos)
    decreases it, pos
  {
    hide StepWork;
    if pos != 0 {
      ReferenceCandidates(plan, it, pos - 1);
      StepCandidates(plan, Reference(plan, it, pos - 1).value, it, pos - 1);
    } else if it != 0 {
      ReferenceCandidates(plan, it - 1, |plan.steps|);
    }
  }
}
