/** The query for a run's rows has no ORDER BY. With distinct handler keys a dispatch does the same
    whatever order they come back in, over whole histories. */
module RunOrder {
  import opened Options
  import opened RunModel
  import opened RunProtocol
  import opened RunTheorems
  import opened Sorting
  import RunExecutor

  /** The same committed state, rows in any order. */
  ghost predicate Shuffled(a: Db, b: Db) {
    a == Reordered(b, a.work.rows) && multiset(a.work.rows) == multiset(b.work.rows)
  }

  /** Rows that replay alike. */
  ghost predicate SameOutputs(a: seq<Row>, b: seq<Row>) {
    forall it: nat :: OutputsOf(a, it) == OutputsOf(b, it)
  }

  ghost predicate SameEvent(e: Event, f: Event) {
    match (e, f)
    case (Commit(a), Commit(b)) => Shuffled(a, b)
    case (Called(c), Called(d)) => c == d
    case _ => false
  }

  ghost predicate SameEvents(a: seq<Event>, b: seq<Event>) {
    |a| == |b| && forall i :: 0 <= i < |a| ==> SameEvent(a[i], b[i])
  }

  lemma SameThen(a: seq<Event>, b: seq<Event>, c: seq<Event>, d: seq<Event>)
    requires SameEvents(a, b) && SameEvents(c, d)
    ensures SameEvents(a + c, b + d)
  {
    hide SameEvent;
  }

  lemma SameOne(a: Db, b: Db)
    requires Shuffled(a, b)
    ensures SameEvents([Commit(a)], [Commit(b)])
  {}

  // ----- what does not depend on the order ---------------------------------------------------------

  lemma {:induction false} SpendWithout(rows: seq<Row>, i: nat)
    requires i < |rows|
    ensures Spend(rows) == Spend(rows[..i] + rows[i + 1..]) + if rows[i].status.RowSucceeded? then StepCost(rows[i].output) else 0
    decreases |rows|
  {
    var n := |rows| - 1;
    if i < n {
      SpendWithout(rows[..n], i);
      var rest := rows[..i] + rows[i + 1..];
      assert rest == rows[..n][..i] + rows[..n][i + 1..] + [rows[n]];
      RunExecutor.SpendSnoc(rows[..n][..i] + rows[..n][i + 1..], rows[n]);
    } else {
      assert rows[..i] + rows[i + 1..] == rows[..n];
    }
  }

  lemma AllBut(rows: seq<Row>, i: nat)
    requires i < |rows|
    ensures multiset(rows[..i] + rows[i + 1..]) == multiset(rows) - multiset{rows[i]}
  {
    assert rows == rows[..i] + [rows[i]] + rows[i + 1..];
  }

  lemma {:induction false} SpendShuffled(a: seq<Row>, b: seq<Row>)
    requires multiset(a) == multiset(b)
    ensures Spend(a) == Spend(b)
    decreases |a|
  {
    hide StepCost;
    SameLength(a, b);
    if a != [] {
      var n := |a| - 1;
      assert a[n] in b;
      var i :| 0 <= i < |b| && b[i] == a[n];
      SpendWithout(a, n);
      SpendWithout(b, i);
      AllBut(a, n);
      AllBut(b, i);
      SpendShuffled(a[..n] + a[n + 1..], b[..i] + b[i + 1..]);
    }
  }

  lemma SucceededShuffled(a: seq<Row>, b: seq<Row>, it: nat, pos: nat)
    requires multiset(a) == multiset(b)
    ensures SucceededAt(a, it, pos) <==> SucceededAt(b, it, pos)
  {
    SameLength(a, b);
  }

  lemma HistoryShuffled(a: seq<Row>, b: seq<Row>, n: nat)
    requires SameOutputs(a, b)
    ensures HistoryOf(a, n) == HistoryOf(b, n)
  {}

  // ----- the open row ------------------------------------------------------------------------------

  /** Both states end in the same row, over rows that are shuffled and replay alike. */
  ghost predicate OpenTwins(a: Db, b: Db, x: seq<Row>, y: seq<Row>, row: Row) {
    && a.work.rows == x + [row] && b.work.rows == y + [row]
    && a == Reordered(b, x + [row]) && multiset(x) == multiset(y) && SameOutputs(x, y)
  }

  lemma OpenShuffled(a: Db, b: Db, x: seq<Row>, y: seq<Row>, row: Row)
    requires OpenTwins(a, b, x, y, row)
    ensures Shuffled(a, b) && SameOutputs(a.work.rows, b.work.rows) && Spend(a.work.rows) == Spend(b.work.rows)
  {
    forall it: nat ensures OutputsOf(a.work.rows, it) == OutputsOf(b.work.rows, it) {
      RunExecutor.OutputsOfSnoc(x, row, it);
      RunExecutor.OutputsOfSnoc(y, row, it);
    }
    SpendShuffled(a.work.rows, b.work.rows);
  }

  lemma LastReplaced(x: seq<Row>, row: Row, other: Row)
    ensures ReplaceLast(x + [row], other) == x + [other]
  {}

  lemma {:induction false} SavesTwins(a: Db, b: Db, x: seq<Row>, y: seq<Row>, row: Row, saves: seq<Output>) returns (after: Row)
    requires OpenTwins(a, b, x, y, row)
    ensures SameEvents(SaveTrail(a, saves), SaveTrail(b, saves))
    ensures OpenTwins(a.(work := AfterSaves(a.work, saves)), b.(work := AfterSaves(b.work, saves)), x, y, after)
    decreases |saves|
  {
    hide SameOutputs, SameEvents;
    after := row;
    if saves == [] {
      NoEvents();
    } else {
      after := row.(output := row.output + saves[0]);
      LastReplaced(x, row, after);
      LastReplaced(y, row, after);
      var a1, b1 := a.(work := Checkpointed(a.work, saves[0])), b.(work := Checkpointed(b.work, saves[0]));
      OpenShuffled(a1, b1, x, y, after);
      SameOne(a1, b1);
      after := SavesTwins(a1, b1, x, y, after, saves[1..]);
      SameThen([Commit(a1)], [Commit(b1)], SaveTrail(a1, saves[1..]), SaveTrail(b1, saves[1..]));
    }
  }

  lemma NoEvents()
    ensures SameEvents([], [])
  {}

  lemma RaisedTwins(m: Machine, a: Db, b: Db, x: seq<Row>, y: seq<Row>, row: Row, it: nat, result: StepResult, ending: Ending)
    requires OpenTwins(a, b, x, y, row) && ending.Raises?
    ensures SameEvents(EndingFrom(m, a, it, result, ending).trail, EndingFrom(m, b, it, result, ending).trail)
  {
    var failed := FailedRow(row, ending.output);
    LastReplaced(x, row, failed);
    LastReplaced(y, row, failed);
    OpenShuffled(RaisedDb(a, ending.output), RaisedDb(b, ending.output), x, y, failed);
  }

  lemma StoredTwins(m: Machine, a: Db, b: Db, x: seq<Row>, y: seq<Row>, row: Row, it: nat, result: StepResult)
    requires OpenTwins(a, b, x, y, row)
    ensures var r, s := EndingFrom(m, a, it, result, Succeeds), EndingFrom(m, b, it, result, Succeeds);
      && SameEvents(r.trail, s.trail) && (r.next.Some? <==> s.next.Some?)
      && (r.next.Some? ==> Shuffled(r.next.value, s.next.value) && SameOutputs(r.next.value.work.rows, s.next.value.work.rows))
  {
    var prompt := Resolved(m.plan, result);
    if prompt.Some? {
      var stored := row.(status := RowSucceeded, output := RecordedOutput(result.output, prompt.value),
                         promptId := if prompt.value.Some? then Some(prompt.value.value.id) else row.promptId);
      LastReplaced(x, row, stored);
      LastReplaced(y, row, stored);
      var a1 := a.(work := Absorbed(m.plan, a.work, it, result, prompt.value));
      var b1 := b.(work := Absorbed(m.plan, b.work, it, result, prompt.value));
      OpenShuffled(a1, b1, x, y, stored);
      SameOne(a1, b1);
    }
  }

  lemma CellTwins(m: Machine, a: Db, b: Db, it: nat, pos: nat, attempt: Attempt)
    requires Shuffled(a, b) && SameOutputs(a.work.rows, b.work.rows) && pos < |m.plan.steps|
    ensures var r, s := CellFrom(m, a, it, pos, attempt), CellFrom(m, b, it, pos, attempt);
      && SameEvents(r.trail, s.trail) && (r.next.Some? <==> s.next.Some?)
      && (r.next.Some? ==> Shuffled(r.next.value, s.next.value) && SameOutputs(r.next.value.work.rows, s.next.value.work.rows))
  {
    hide SameOutputs, SameEvents, EndingFrom, SaveTrail, AfterSaves, OutputsOf, HistoryOf;
    var x, y, row := a.work.rows, b.work.rows, OpenRow(m.plan, it, pos);
    var a0, b0 := OpenedDb(m, a, it, pos), OpenedDb(m, b, it, pos);
    var call := CallAt(m, x, it, pos);
    CallTwins(m, x, y, it, pos);
    OpeningTwins(a0, b0, x, y, row, call);
    var after := SavesTwins(a0, b0, x, y, row, attempt.saves);
    var a1, b1 := a0.(work := AfterSaves(a0.work, attempt.saves)), b0.(work := AfterSaves(b0.work, attempt.saves));
    var result := ResultAt(m.plan, x, it, pos);
    var r, s := EndingFrom(m, a1, it, result, attempt.ending), EndingFrom(m, b1, it, result, attempt.ending);
    EndingTwins(m, a1, b1, x, y, after, it, result, attempt.ending);
    var front, rear := [Commit(a0), Called(call)], [Commit(b0), Called(call)];
    SameThen(front, rear, SaveTrail(a0, attempt.saves), SaveTrail(b0, attempt.saves));
    SameThen(front + SaveTrail(a0, attempt.saves), rear + SaveTrail(b0, attempt.saves), r.trail, s.trail);
  }

  lemma CallTwins(m: Machine, x: seq<Row>, y: seq<Row>, it: nat, pos: nat)
    requires SameOutputs(x, y) && pos < |m.plan.steps|
    ensures CallAt(m, x, it, pos) == CallAt(m, y, it, pos) && ResultAt(m.plan, x, it, pos) == ResultAt(m.plan, y, it, pos)
  {
    HistoryShuffled(x, y, it);
  }

  lemma OpeningTwins(a: Db, b: Db, x: seq<Row>, y: seq<Row>, row: Row, call: Call)
    requires OpenTwins(a, b, x, y, row)
    ensures SameEvents([Commit(a), Called(call)], [Commit(b), Called(call)])
  {
    OpenShuffled(a, b, x, y, row);
  }

  lemma EndingTwins(m: Machine, a: Db, b: Db, x: seq<Row>, y: seq<Row>, row: Row, it: nat, result: StepResult, ending: Ending)
    requires OpenTwins(a, b, x, y, row)
    ensures var r, s := EndingFrom(m, a, it, result, ending), EndingFrom(m, b, it, result, ending);
      && SameEvents(r.trail, s.trail) && (r.next.Some? <==> s.next.Some?)
      && (r.next.Some? ==> Shuffled(r.next.value, s.next.value) && SameOutputs(r.next.value.work.rows, s.next.value.work.rows))
  {
    hide OpenTwins, SameOutputs, Shuffled;
    match ending {
      case Dies => NoEvents();
      case Raises(_, _) => RaisedTwins(m, a, b, x, y, row, it, result, ending);
      case Succeeds => StoredTwins(m, a, b, x, y, row, it, result);
    }
  }

  // ----- one dispatch ------------------------------------------------------------------------------

  lemma {:induction false} FromTwins(m: Machine, a: Db, b: Db, it: nat, pos: nat, script: seq<Attempt>)
    requires Shuffled(a, b) && SameOutputs(a.work.rows, b.work.rows) && pos <= |m.plan.steps|
    requires it >= m.plan.iterations ==> pos == 0
    ensures SameEvents(From(m, a, it, pos, script), From(m, b, it, pos, script))
    decreases m.plan.iterations - it, |m.plan.steps| - pos
  {
    hide CellFrom, SameEvents, SameOutputs, Spend, SucceededAt, From;
    SpendShuffled(a.work.rows, b.work.rows);
    if it >= m.plan.iterations {
      RunExecutor.UnfoldLast(m, a, it, script);
      RunExecutor.UnfoldLast(m, b, it, script);
      SameOne(SucceededDb(m, a), SucceededDb(m, b));
    } else if pos == |m.plan.steps| {
      RunExecutor.UnfoldEnd(m, a, it, script);
      RunExecutor.UnfoldEnd(m, b, it, script);
      var a1, b1 := IterationEndDb(m, a, it), IterationEndDb(m, b, it);
      SameOne(a1, b1);
      FromTwins(m, a1, b1, it + 1, 0, script);
      SameThen([Commit(a1)], [Commit(b1)], From(m, a1, it + 1, 0, script), From(m, b1, it + 1, 0, script));
    } else {
      RunExecutor.Unfold(m, a, it, pos, script);
      RunExecutor.Unfold(m, b, it, pos, script);
      SucceededShuffled(a.work.rows, b.work.rows, it, pos);
      if SucceededAt(a.work.rows, it, pos) {
        FromTwins(m, a, b, it, pos + 1, script);
      } else if m.budget != 0 && Spend(a.work.rows) >= m.budget {
        SameOne(PausedDb(m, a, Cost, it), PausedDb(m, b, Cost, it));
      } else {
        var r, s := CellFrom(m, a, it, pos, NextAttempt(script)), CellFrom(m, b, it, pos, NextAttempt(script));
        CellTwins(m, a, b, it, pos, NextAttempt(script));
        if r.next.Some? {
          FromTwins(m, r.next.value, s.next.value, it, pos + 1, Later(script));
          SameThen(r.trail, s.trail, From(m, r.next.value, it, pos + 1, Later(script)), From(m, s.next.value, it, pos + 1, Later(script)));
        } else {
          NoEvents();
          SameThen(r.trail, s.trail, [], []);
        }
      }
    }
  }

  lemma {:induction false} KeptCounts(rows: seq<Row>, n: nat, r: Row)
    ensures multiset(Kept(rows, n))[r] == if r.status.RowSucceeded? && r.iteration < n then multiset(rows)[r] else 0
  {
    if rows != [] {
      var init, last := rows[..|rows| - 1], rows[|rows| - 1];
      assert rows == init + [last];
      KeptCounts(init, n, r);
    }
  }

  lemma KeptShuffled(a: seq<Row>, b: seq<Row>, n: nat)
    requires multiset(a) == multiset(b)
    ensures multiset(Kept(a, n)) == multiset(Kept(b, n))
  {
    forall r ensures multiset(Kept(a, n))[r] == multiset(Kept(b, n))[r] {
      KeptCounts(a, n, r);
      KeptCounts(b, n, r);
    }
  }

  lemma {:induction false} OutputsBeyond(rows: seq<Row>, it: nat)
    requires forall r :: r in rows ==> r.iteration < it
    ensures OutputsOf(rows, it) == map[]
  {
    if rows != [] {
      assert rows[|rows| - 1] in rows;
      OutputsBeyond(rows[..|rows| - 1], it);
    }
  }

  lemma KeptReplayAlike(plan: Plan, a: seq<Row>, b: seq<Row>, n: nat)
    requires RowsOk(plan, a) && DistinctHandlers(plan.steps) && multiset(a) == multiset(b)
    ensures SameOutputs(Kept(a, n), Kept(b, n))
  {
    hide RowsOk, DistinctHandlers;
    RunExecutor.PermutedRowsOk(plan, a, b);
    RunExecutor.KeptMembers(a, n);
    RunExecutor.KeptMembers(b, n);
    forall it: nat ensures OutputsOf(Kept(a, n), it) == OutputsOf(Kept(b, n), it) {
      if it < n {
        RunExecutor.KeptOutputs(a, n, it);
        RunExecutor.KeptOutputs(b, n, it);
        RunExecutor.ReplayInAnyOrder(plan, a, b, it);
      } else {
        OutputsBeyond(Kept(a, n), it);
        OutputsBeyond(Kept(b, n), it);
      }
    }
  }

  lemma MachinesSame(plan: Plan, a: Db, b: Db)
    requires Shuffled(a, b) && RowsOk(plan, b.work.rows)
    ensures MachineOf(plan, a) == MachineOf(plan, b)
  {
    hide RowsOk, PriorOutputs;
    SameLength(a.work.rows, b.work.rows);
    RunExecutor.PermutedRowsOk(plan, b.work.rows, a.work.rows);
    RunExecutor.PriorInAnyOrder(plan, a.work.rows, b.work.rows, plan.iterations);
  }

  /** With distinct handler keys a dispatch commits the same states, apart from the order of rows, and
      makes the same handler calls, in whatever order its query returns the rows. */
  lemma DispatchInAnyOrder(plan: Plan, db: Db, canonical: Db, prior: seq<Row>, script: seq<Attempt>)
    requires RowsOk(plan, canonical.work.rows) && DistinctHandlers(plan.steps)
    requires Shuffled(db, canonical) && multiset(prior) == multiset(db.work.rows)
    ensures SameEvents(TraceRead(plan, db, prior, script), Trace(plan, canonical, script))
  {
    hide RowsOk, DistinctHandlers, SameOutputs, SameEvents, From, Kept, MachineOf;
    var read := Reordered(db, prior);
    var n := plan.iterations;
    assert Shuffled(read, canonical);
    MachinesSame(plan, read, canonical);
    KeptShuffled(canonical.work.rows, prior, n);
    RunExecutor.PermutedRowsOk(plan, canonical.work.rows, prior);
    KeptReplayAlike(plan, prior, canonical.work.rows, n);
    var a, b := ReplayedDb(plan, read), ReplayedDb(plan, canonical);
    FromTwins(MachineOf(plan, canonical), a, b, 0, 0, script);
    SameOne(StartedDb(db), StartedDb(canonical));
    SameOne(a, b);
    SameThen([Commit(StartedDb(db))], [Commit(StartedDb(canonical))], [Commit(a)], [Commit(b)]);
    assert [Commit(StartedDb(db))] + [Commit(a)] == [Commit(StartedDb(db)), Commit(a)];
    assert [Commit(StartedDb(canonical))] + [Commit(b)] == [Commit(StartedDb(canonical)), Commit(b)];
    SameThen([Commit(StartedDb(db)), Commit(a)], [Commit(StartedDb(canonical)), Commit(b)],
             From(MachineOf(plan, read), a, 0, 0, script), From(MachineOf(plan, canonical), b, 0, 0, script));
  }

  // ----- whole histories ---------------------------------------------------------------------------

  lemma {:induction false} LastCommitShuffled(a: Db, b: Db, s: seq<Event>, t: seq<Event>)
    requires Shuffled(a, b) && SameEvents(s, t)
    ensures Shuffled(LastCommit(a, s), LastCommit(b, t))
  {
    hide Shuffled;
    if s != [] {
      var n := |s| - 1;
      assert SameEvent(s[n], t[n]);
      LastCommitShuffled(a, b, s[..n], t[..n]);
    }
  }

  /** A query's answer: some order of the rows. */
  function Answer(order: seq<Row>, rows: seq<Row>): (r: seq<Row>)
    ensures multiset(r) == multiset(rows)
  {
    if multiset(order) == multiset(rows) then order else rows
  }

  /** One act, of which a dispatch gets its rows in the given order. */
  function NextRead(life: Life, db: Db, act: Act, order: seq<Row>): Db {
    match act
    case Execute(script, cut) =>
      LastCommit(db, CutAt(TraceRead(PlanOf(life.workflow, db.ctx), db, Answer(order, db.work.rows), script), cut))
    case _ => Next(life, db, act)
  }

  function AfterRead(life: Life, acts: seq<Act>, orders: seq<seq<Row>>): Db
    requires |orders| == |acts|
  {
    if acts == [] then Created(life)
    else
      var n := |acts| - 1;
      NextRead(life, AfterRead(life, acts[..n], orders[..n]), acts[n], orders[n])
  }

  lemma NextInAnyOrder(life: Life, db: Db, acts: seq<Act>, act: Act, order: seq<Row>)
    requires DistinctHandlers(life.workflow.steps) && Shuffled(db, After(life, acts))
    ensures Shuffled(NextRead(life, db, act, order), Next(life, After(life, acts), act))
  {
    hide DistinctHandlers, RowsOk, After, TraceRead, Trace, SameEvents;
    var canonical := After(life, acts);
    if act.Execute? {
      ReachableRowsOk(life, acts);
      OverrideKeepsHandlers(life, acts);
      var plan := PlanOf(life.workflow, canonical.ctx);
      var prior := Answer(order, db.work.rows);
      DispatchInAnyOrder(plan, db, canonical, prior, act.script);
      var s, t := TraceRead(plan, db, prior, act.script), Trace(plan, canonical, act.script);
      CutSame(s, t, act.cut);
      LastCommitShuffled(db, canonical, CutAt(s, act.cut), CutAt(t, act.cut));
    }
  }

  lemma CutSame(s: seq<Event>, t: seq<Event>, cut: nat)
    requires SameEvents(s, t)
    ensures SameEvents(CutAt(s, cut), CutAt(t, cut))
  {}

  lemma OverrideKeepsHandlers(life: Life, acts: seq<Act>)
    requires DistinctHandlers(life.workflow.steps)
    ensures DistinctHandlers(PlanOf(life.workflow, After(life, acts).ctx).steps)
  {}

  /** With distinct handler keys every history ends, apart from the order of rows, where it would with the
      rows coming back as they were written. */
  lemma {:induction false} SameInAnyOrder(life: Life, acts: seq<Act>, orders: seq<seq<Row>>)
    requires DistinctHandlers(life.workflow.steps) && |orders| == |acts|
    ensures Shuffled(AfterRead(life, acts, orders), After(life, acts))
  {
    hide DistinctHandlers, NextRead, Next, Shuffled;
    if acts == [] {
      ShuffledSelf(Created(life));
    } else {
      var n := |acts| - 1;
      SameInAnyOrder(life, acts[..n], orders[..n]);
      NextInAnyOrder(life, AfterRead(life, acts[..n], orders[..n]), acts[..n], acts[n], orders[n]);
    }
  }

  lemma ShuffledSelf(db: Db)
    ensures Shuffled(db, db)
  {}

  /** Interrupted equals uninterrupted, whatever order every dispatch gets its rows in. */
  lemma TransparencyInAnyOrder(life: Life, acts: seq<Act>, orders: seq<seq<Row>>,
                               other: Life, otherActs: seq<Act>, otherOrders: seq<seq<Row>>)
    requires DistinctHandlers(life.workflow.steps) && |orders| == |acts| && |otherOrders| == |otherActs|
    requires other.workflow == life.workflow && other.launch == life.launch.(budget := other.launch.budget)
    requires AfterRead(life, acts, orders).status.Succeeded? && AfterRead(other, otherActs, otherOrders).status.Succeeded?
    ensures var a, b := AfterRead(life, acts, orders).work, AfterRead(other, otherActs, otherOrders).work;
      && multiset(a.rows) == multiset(b.rows)
      && a.candidates == b.candidates && a.results == b.results && a.summary == b.summary
  {
    hide DistinctHandlers, AfterRead, After;
    SameInAnyOrder(life, acts, orders);
    SameInAnyOrder(other, otherActs, otherOrders);
    ResumeTransparency(life, acts, other, otherActs);
  }

  lemma {:induction false} FirstCallSame(s: seq<Event>, t: seq<Event>)
    requires SameEvents(s, t)
    ensures FirstCall(s) == FirstCall(t)
    decreases |s|
  {
    if s != [] {
      assert SameEvent(s[0], t[0]);
      FirstCallSame(s[1..], t[1..]);
    }
  }

  /** After a resumable stop and a resume, the next dispatch begins with the same call in whatever order it
      gets its rows: at the stopped cell, second attempt, unless the cap is reached. */
  lemma ContinuesInAnyOrder(life: Life, acts: seq<Act>, orders: seq<seq<Row>>, addUsd: Option<nat>, addTime: Option<nat>,
                            prior: seq<Row>, script: seq<Attempt>)
    requires DistinctHandlers(life.workflow.steps) && |orders| == |acts|
    requires PausedFor(AfterRead(life, acts, orders), StepTime)
    requires multiset(prior) == multiset(AfterRead(life, acts, orders).work.rows)
    ensures var again := Next(life, Next(life, AfterRead(life, acts, orders), Resume(addUsd, addTime)), Claim);
      var canonical := Next(life, Next(life, After(life, acts), Resume(addUsd, addTime)), Claim);
      && PausedFor(After(life, acts), StepTime)
      && FirstCall(TraceRead(PlanOf(life.workflow, again.ctx), again, prior, script)) ==
           FirstCall(Trace(PlanFor(life), canonical, script))
  {
    hide DistinctHandlers, AfterRead, After, TraceRead, Trace, FirstCall, SameEvents;
    var db := AfterRead(life, acts, orders);
    SameInAnyOrder(life, acts, orders);
    var more := acts + [Resume(addUsd, addTime)];
    AfterOne(life, acts, Resume(addUsd, addTime));
    AfterOne(life, more, Claim);
    var again := Next(life, Next(life, db, Resume(addUsd, addTime)), Claim);
    var canonical := After(life, more + [Claim]);
    ReachableRowsOk(life, more + [Claim]);
    OverrideKeepsHandlers(life, more + [Claim]);
    DispatchInAnyOrder(PlanFor(life), again, canonical, prior, script);
    FirstCallSame(TraceRead(PlanFor(life), again, prior, script), Trace(PlanFor(life), canonical, script));
  }

  lemma AfterOne(life: Life, acts: seq<Act>, act: Act)
    ensures After(life, acts + [act]) == Next(life, After(life, acts), act)
  {
    assert (acts + [act])[..|acts|] == acts;
  }

  /** Whatever interrupted a run that succeeded, one dispatch of a fresh run under a cap above every partial
      sum of the grid succeeds and leaves the same work, in whatever orders the rows came back. */
  lemma UninterruptedInAnyOrder(life: Life, acts: seq<Act>, orders: seq<seq<Row>>, cap: nat, script: seq<Attempt>)
    requires DistinctHandlers(life.workflow.steps) && |orders| == |acts|
    requires AfterRead(life, acts, orders).status.Succeeded?
    requires AllSucceed(script) && |script| >= Cells(PlanFor(life), 0, 0)
    requires cap > 0 && forall k :: 0 <= k <= |After(life, acts).work.rows| ==> Spend(After(life, acts).work.rows[..k]) < cap
    ensures var other := life.(launch := life.launch.(budget := Some(cap)));
      var direct := Finished(other, Next(other, Created(other), Claim), script);
      && direct.status.Succeeded?
      && Shuffled(AfterRead(life, acts, orders), AfterRead(life, acts, orders).(work := direct.work))
  {
    hide DistinctHandlers, AfterRead, After, Finished, Next, Created, Cells, PlanFor;
    SameInAnyOrder(life, acts, orders);
    UninterruptedSame(life, acts, cap, script);
  }
}
